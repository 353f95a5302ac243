/** `getStatusClass` of the vanilla list viewer: a prioritised,
    case-insensitive keyword classifier for a status text. */
module Status {
  import opened Wrappers
  import opened Text
  import opened Ocds

  const ActiveClass := "status-active"
  const CompleteClass := "status-complete"
  const CancelledClass := "status-cancelled"

  /** The status mentions `active` or `open`, in any ASCII case. */
  ghost predicate SaysActive(s: string)
  {
    Occurs(ToLower(s), "active") || Occurs(ToLower(s), "open")
  }

  ghost predicate SaysComplete(s: string)
  {
    Occurs(ToLower(s), "complete") || Occurs(ToLower(s), "closed")
  }

  ghost predicate SaysCancelled(s: string)
  {
    Occurs(ToLower(s), "cancel")
  }

  function GetStatusClass(status: Option<string>): (cls: string)
    ensures cls in {"", ActiveClass, CompleteClass, CancelledClass}
    ensures cls == ActiveClass <==> Present(status) && SaysActive(status.value)
    ensures cls == CompleteClass <==>
      Present(status) && !SaysActive(status.value) && SaysComplete(status.value)
    ensures cls == CancelledClass <==>
      Present(status) && !SaysActive(status.value) && !SaysComplete(status.value) && SaysCancelled(status.value)
  {
    if !Present(status) then ""
    else
      var lower := ToLower(status.value);
      if Contains(lower, "active") || Contains(lower, "open") then ActiveClass
      else if Contains(lower, "complete") || Contains(lower, "closed") then CompleteClass
      else if Contains(lower, "cancel") then CancelledClass
      else ""
  }

  /** Lower-casing the status first changes nothing. */
  lemma StatusClassIgnoresCase(s: string)
    ensures GetStatusClass(Some(ToLower(s))) == GetStatusClass(Some(s))
  {
    ToLowerIdempotent(s);
  }

  /** A status that mentions both an active and a cancelled keyword is
      classed as active. */
  lemma ActiveOutranksCancelled()
    ensures GetStatusClass(Some("Open - Cancelled")) == ActiveClass
  {
    var lower := ToLower("Open - Cancelled");
    assert lower[0..4] == "open";
    assert OccursAt(lower, "open", 0);
  }
}

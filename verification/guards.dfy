/** The decisions the component takes before touching the view. */
module Guards {
  import opened Values

  /** `visRun`'s guard: `vis && (!isDestroyed || !isDestroying) && isVisible !== false`. */
  predicate RunAllowed(hasView: bool, isVisible: Flag, isDestroyed: bool, isDestroying: bool)
    ensures RunAllowed(hasView, isVisible, isDestroyed, isDestroying) ==> hasView && isVisible != Off
    // only the two destroy flags together block the run; either one alone does not
    ensures isDestroyed && isDestroying ==> !RunAllowed(hasView, isVisible, isDestroyed, isDestroying)
    ensures hasView && (isVisible == On || isVisible == Unset) && !(isDestroyed && isDestroying)
      ==> RunAllowed(hasView, isVisible, isDestroyed, isDestroying)
  {
    hasView && (!isDestroyed || !isDestroying) && isVisible.NotFalse()
  }

  /** `windowResize`'s guard: visible unless explicitly false, and resizable only when truthy. */
  predicate ResizeAllowed(isVisible: Flag, isResizable: Flag)
    ensures ResizeAllowed(isVisible, isResizable) <==> isResizable == On && isVisible in {On, Unset}
  {
    isVisible.NotFalse() && isResizable.Truthy()
  }

  /** An `isVisible` pair asks for a resize when the new value is truthy and differs from the old one. */
  predicate VisibilityRequestsResize(change: Option<Change<Flag>>)
    ensures VisibilityRequestsResize(change)
      <==> change == Some(Change(Off, On)) || change == Some(Change(Unset, On))
  {
    change.Some? && change.value.after.Truthy() && change.value.before != change.value.after
  }

  /** An `aspectRatio` pair asks for a resize whenever old and new differ, present or not. */
  predicate AspectRatioRequestsResize(change: Option<Change<Option<real>>>)
    ensures AspectRatioRequestsResize(change) ==> change.Some?
    // two different ratios, or a ratio set or cleared, ask for a resize
    ensures change.Some? && change.value.before != change.value.after ==> AspectRatioRequestsResize(change)
    ensures change.Some? && change.value.before == change.value.after ==> !AspectRatioRequestsResize(change)
  {
    change.Some? && change.value.before != change.value.after
  }

  /** How many times `didUpdateAttrs` calls `scheduleOnceResize` for one notification. */
  function ScheduleRequests(changedAttrs: Option<ChangedAttrs>): (n: nat)
    ensures n <= 2
    ensures changedAttrs.None? ==> n == 0
    ensures changedAttrs.Some? && changedAttrs.value.isVisible.None? && changedAttrs.value.aspectRatio.None? ==> n == 0
    // hiding the component, or a visibility pair that did not really change, schedules nothing by itself
    ensures (changedAttrs.Some? && changedAttrs.value.aspectRatio.None? &&
             changedAttrs.value.isVisible.Some? && changedAttrs.value.isVisible.value.after != On) ==> n == 0
    ensures n == 2 ==> (changedAttrs.Some? && changedAttrs.value.aspectRatio.Some? &&
                        changedAttrs.value.isVisible.Some? && changedAttrs.value.isVisible.value.after == On)
    ensures n > 0 <==> (changedAttrs.Some? &&
                        (VisibilityRequestsResize(changedAttrs.value.isVisible) ||
                         AspectRatioRequestsResize(changedAttrs.value.aspectRatio)))
  {
    if changedAttrs.None? then 0
    else
      (if VisibilityRequestsResize(changedAttrs.value.isVisible) then 1 else 0)
      + (if AspectRatioRequestsResize(changedAttrs.value.aspectRatio) then 1 else 0)
  }
}

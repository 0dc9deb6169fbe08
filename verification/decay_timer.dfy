/**
 The single-slot timer that clears the highlighted scan region 100 ms after it
 was set (the delay itself is not modelled). Handles stand for the ids
 `setTimeout` returns: each schedule hands out a new one, and only the handle
 still pending can fire.
 */
module DecayTimer {
  import opened Wrappers

  /**
   `pending` is the handle of the one scheduled clear, if any; `issued` counts
   the handles handed out so far (the next one is `issued`).
   */
  datatype Timer = Timer(pending: Option<nat>, issued: nat) {
    /** The pending handle is one that was handed out. */
    predicate Valid() {
      pending.Some? ==> pending.value < issued
    }
  }

  const NoTimer: Timer := Timer(None, 0)

  /** `clearTimeout` of the pending handle, if there is one. */
  function Cancel(t: Timer): (r: Timer)
    ensures r.pending.None? && r.issued == t.issued
    ensures r.Valid()
  {
    t.(pending := None)
  }

  /** Re-arms the slot: the previous clear is cancelled and a new one scheduled. */
  function Arm(t: Timer): (r: Timer)
    ensures r.pending.Some? && r.pending.value >= t.issued
    ensures t.Valid() && t.pending.Some? ==> r.pending != t.pending
    ensures r.issued > t.issued
    ensures t.Valid() ==> r.Valid()
  {
    var c := Cancel(t);
    Timer(Some(c.issued), c.issued + 1)
  }

  /** Whether the clear scheduled under `h` is still due to run. */
  predicate IsPending(t: Timer, h: nat) {
    t.pending == Some(h)
  }

  /** The clear scheduled under `h` runs; it empties the slot if still pending. */
  function Fire(t: Timer, h: nat): (r: Timer)
    ensures IsPending(t, h) ==> r.pending.None? && r.issued == t.issued
    ensures !IsPending(t, h) ==> r == t
    ensures !IsPending(r, h)
  {
    if IsPending(t, h) then t.(pending := None) else t
  }

  /** Arming supersedes every handle handed out before: none of them can fire. */
  lemma ArmSupersedesEarlierHandles(t: Timer, h: nat)
    requires h < t.issued
    ensures Fire(Arm(t), h) == Arm(t)
  {
  }

  /** A clear runs at most once: firing the same handle again changes nothing. */
  lemma FireIsIdempotent(t: Timer, h: nat)
    ensures Fire(Fire(t, h), h) == Fire(t, h)
  {
  }
}

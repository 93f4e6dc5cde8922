/** The gateway's fixed-window rate limiter: each socket has one slot a bucket, and a slot starts a new window the
    first time it is checked after the last window's end. */
module RateLimit {
  import opened Basics

  const WINDOW: int := 60000
  const SEND_LIMIT: nat := 30
  const TYPING_LIMIT: nat := 120

  datatype Slot = Slot(count: nat, resetAt: int)

  datatype Bucket = Send | Typing

  datatype Buckets = Buckets(send: Slot, typing: Slot) {
    function Get(b: Bucket): Slot {
      if b.Send? then send else typing
    }

    function Set(b: Bucket, slot: Slot): Buckets {
      if b.Send? then this.(send := slot) else this.(typing := slot)
    }
  }

  function Fresh(now: int): Buckets {
    Buckets(Slot(0, now + WINDOW), Slot(0, now + WINDOW))
  }

  function Ceiling(b: Bucket): nat {
    if b.Send? then SEND_LIMIT else TYPING_LIMIT
  }

  /** The slot after a check, and whether the event is accepted. */
  function Check(slot: Slot, now: int, ceiling: nat): (Slot, bool) {
    var current := if slot.resetAt <= now then Slot(0, now + WINDOW) else slot;
    if current.count >= ceiling then (current, false) else (current.(count := current.count + 1), true)
  }

  // ----- Any sequence of checks, oldest first -----

  predicate Ordered(times: seq<int>) {
    forall i, j :: 0 <= i <= j < |times| ==> times[i] <= times[j]
  }

  /** How many of the events at these times are accepted from time lo up to and including hi. */
  function AcceptedIn(slot: Slot, times: seq<int>, ceiling: nat, lo: int, hi: int): nat
    decreases |times|
  {
    if |times| == 0 then 0
    else
      var (next, ok) := Check(slot, times[0], ceiling);
      (if ok && lo <= times[0] <= hi then 1 else 0) + AcceptedIn(next, times[1..], ceiling, lo, hi)
  }

  lemma Later(times: seq<int>)
    requires Ordered(times) && |times| > 0
    ensures Ordered(times[1..])
  {
    assert forall i :: 0 <= i < |times[1..]| ==> times[1..][i] == times[i + 1];
  }

  lemma {:induction false} NoneAfter(slot: Slot, times: seq<int>, ceiling: nat, lo: int, hi: int)
    requires Ordered(times) && (|times| > 0 ==> times[0] > hi)
    ensures AcceptedIn(slot, times, ceiling, lo, hi) == 0
    decreases |times|
  {
    if |times| > 0 {
      Later(times);
      NoneAfter(Check(slot, times[0], ceiling).0, times[1..], ceiling, lo, hi);
    }
  }

  /** Before the window ends no more than the rest of its ceiling is accepted. */
  lemma {:induction false} WithinWindow(slot: Slot, times: seq<int>, ceiling: nat, lo: int, hi: int)
    requires Ordered(times) && slot.count <= ceiling && hi < slot.resetAt
    ensures AcceptedIn(slot, times, ceiling, lo, hi) <= ceiling - slot.count
    decreases |times|
  {
    if |times| > 0 {
      if times[0] > hi {
        NoneAfter(slot, times, ceiling, lo, hi);
      } else {
        Later(times);
        WithinWindow(Check(slot, times[0], ceiling).0, times[1..], ceiling, lo, hi);
      }
    }
  }

  /** Inside one window nothing is refused that the ceiling allows: exactly the first events are accepted. */
  lemma {:induction false} ExactInWindow(slot: Slot, times: seq<int>, ceiling: nat, lo: int, hi: int)
    requires slot.count <= ceiling && hi < slot.resetAt && forall t <- times :: lo <= t <= hi
    ensures AcceptedIn(slot, times, ceiling, lo, hi) ==
      if |times| <= ceiling - slot.count then |times| else ceiling - slot.count
    decreases |times|
  {
    if |times| > 0 {
      assert times[0] in times && forall t <- times[1..] :: t in times;
      ExactInWindow(Check(slot, times[0], ceiling).0, times[1..], ceiling, lo, hi);
    }
  }

  /** Until a whole window past its end, no more than that and one more ceiling. */
  lemma {:induction false} WithinTwoWindows(slot: Slot, times: seq<int>, ceiling: nat, lo: int, hi: int)
    requires Ordered(times) && slot.count <= ceiling && hi < slot.resetAt + WINDOW
    ensures AcceptedIn(slot, times, ceiling, lo, hi) <= 2 * ceiling - slot.count
    decreases |times|
  {
    if |times| > 0 {
      Later(times);
      var next := Check(slot, times[0], ceiling).0;
      if slot.resetAt <= times[0] {
        WithinWindow(next, times[1..], ceiling, lo, hi);
      } else {
        WithinTwoWindows(next, times[1..], ceiling, lo, hi);
      }
    }
  }

  /** Any 60 seconds, both ends included, see at most twice the ceiling. */
  lemma {:induction false} AtMostTwice(slot: Slot, times: seq<int>, ceiling: nat, lo: int)
    requires Ordered(times) && slot.count <= ceiling
    ensures AcceptedIn(slot, times, ceiling, lo, lo + WINDOW) <= 2 * ceiling
    decreases |times|
  {
    if |times| > 0 {
      Later(times);
      var next := Check(slot, times[0], ceiling).0;
      if times[0] < lo {
        AtMostTwice(next, times[1..], ceiling, lo);
      } else if slot.resetAt > times[0] {
        WithinTwoWindows(slot, times, ceiling, lo, lo + WINDOW);
      } else {
        WithinTwoWindows(Slot(0, times[0] + WINDOW), times, ceiling, lo, lo + WINDOW);
      }
    }
  }
}

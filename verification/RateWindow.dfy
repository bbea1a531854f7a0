/** How many input events a second the debug bridge lets through (debug/src/bridge.cpp:628-639): a
    counter over windows that open when an event comes after the last one is over.  Times are those of
    the requests, in milliseconds since the device started; the tick they are read from wraps. */
module RateWindow {
  import opened BridgeModel

  /** When the current window opened and how many it has let through. */
  datatype Gate = Gate(start: nat, count: nat)

  predicate Over(g: Gate, now: nat) {
    Elapsed(now, g.start) >= 1000
  }

  predicate Admits(limit: nat, g: Gate, now: nat) {
    (if Over(g, now) then 0 else g.count) < limit
  }

  function Asked(limit: nat, g: Gate, now: nat): Gate {
    var current := if Over(g, now) then Gate(now, 0) else g;
    if Admits(limit, g, now) then current.(count := current.count + 1) else current
  }

  ghost function GateAfter(limit: nat, nows: seq<nat>): Gate {
    if nows == [] then Gate(0, 0) else Asked(limit, GateAfter(limit, nows[..|nows| - 1]), nows[|nows| - 1])
  }

  /** The request at `i` was let through. */
  ghost predicate Passes(limit: nat, nows: seq<nat>, i: nat)
    requires i < |nows|
  {
    Admits(limit, GateAfter(limit, nows[..i]), nows[i])
  }

  /** The request at `i` opened a window. */
  ghost predicate Opens(limit: nat, nows: seq<nat>, i: nat)
    requires i < |nows|
  {
    Over(GateAfter(limit, nows[..i]), nows[i])
  }

  ghost function Passed(limit: nat, nows: seq<nat>, from: nat, end: nat): nat
    requires from <= end <= |nows|
  {
    if from == end then 0 else Passed(limit, nows, from, end - 1) + if Passes(limit, nows, end - 1) then 1 else 0
  }

  lemma GateNext(limit: nat, nows: seq<nat>, i: nat)
    requires i < |nows|
    ensures GateAfter(limit, nows[..i + 1]) == Asked(limit, GateAfter(limit, nows[..i]), nows[i])
  {
    assert nows[..i + 1][..i] == nows[..i];
  }

  lemma FirstGate(limit: nat, nows: seq<nat>)
    ensures GateAfter(limit, nows[..0]) == Gate(0, 0)
  {
    assert nows[..0] == [];
  }

  lemma GateAppend(limit: nat, nows: seq<nat>, now: nat)
    ensures GateAfter(limit, nows + [now]) == Asked(limit, GateAfter(limit, nows), now)
    ensures Passes(limit, nows + [now], |nows|) == Admits(limit, GateAfter(limit, nows), now)
  {
    assert (nows + [now])[..|nows|] == nows;
  }

  /** No window opens after the request at `from` and before the one at `end`. */
  ghost predicate OneWindow(limit: nat, nows: seq<nat>, from: nat, end: nat)
    requires from <= end <= |nows|
  {
    forall i :: from < i < end ==> !Opens(limit, nows, i)
  }

  lemma {:induction false} CountFits(limit: nat, nows: seq<nat>)
    ensures GateAfter(limit, nows).count <= limit
  {
    if nows != [] {
      CountFits(limit, nows[..|nows| - 1]);
    }
  }

  /** What the gate knows of the window since `from`. */
  ghost predicate Counts(limit: nat, g: Gate, nows: seq<nat>, from: nat, passed: nat, own: bool) {
    && from <= |nows| && passed <= g.count
    && (own ==> from < |nows| && g == Gate(nows[from], passed))
    && (from == 0 && !own ==> g == Gate(0, passed))
  }

  lemma CountsNext(limit: nat, g: Gate, nows: seq<nat>, from: nat, passed: nat, own: bool, i: nat)
    requires i < |nows| && from < i && Counts(limit, g, nows, from, passed, own) && !Over(g, nows[i])
    ensures Counts(limit, Asked(limit, g, nows[i]), nows, from,
                   passed + if Admits(limit, g, nows[i]) then 1 else 0, own)
  {
  }

  lemma {:induction false} CountsWindow(limit: nat, nows: seq<nat>, from: nat, end: nat)
    requires from < end <= |nows| && OneWindow(limit, nows, from, end)
    ensures Counts(limit, GateAfter(limit, nows[..end]), nows, from, Passed(limit, nows, from, end),
                   Opens(limit, nows, from))
  {
    GateNext(limit, nows, end - 1);
    if from < end - 1 {
      CountsWindow(limit, nows, from, end - 1);
      assert !Opens(limit, nows, end - 1);
      CountsNext(limit, GateAfter(limit, nows[..end - 1]), nows, from, Passed(limit, nows, from, end - 1),
                 Opens(limit, nows, from), end - 1);
    } else {
      assert Passed(limit, nows, from, from) == 0;
      assert from == 0 ==> nows[..from] == [];
    }
  }

  /** No window lets through more than its limit, whatever the clock does. */
  lemma WindowKeepsLimit(limit: nat, nows: seq<nat>, from: nat, end: nat)
    requires from <= end <= |nows| && OneWindow(limit, nows, from, end)
    ensures Passed(limit, nows, from, end) <= limit
  {
    if from < end {
      CountsWindow(limit, nows, from, end);
      CountFits(limit, nows[..end]);
    }
  }

  lemma {:induction false} WindowOf(limit: nat, nows: seq<nat>, i: nat) returns (from: nat)
    requires i <= |nows|
    ensures from <= i && OneWindow(limit, nows, from, i) && (from == 0 || (from < i && Opens(limit, nows, from)))
  {
    if i == 0 {
      from := 0;
    } else if Opens(limit, nows, i - 1) {
      from := i - 1;
    } else {
      from := WindowOf(limit, nows, i - 1);
    }
  }

  /** And it refuses nothing short of that: behind a refusal are as many requests let through, since the
      window in force opened less than a second ago by the tick. */
  lemma RefusedWhenFull(limit: nat, nows: seq<nat>, i: nat) returns (from: nat)
    requires i < |nows| && limit > 0 && !Passes(limit, nows, i)
    ensures from < i && OneWindow(limit, nows, from, i + 1) && Passed(limit, nows, from, i) == limit
    ensures Elapsed(nows[i], if Opens(limit, nows, from) then nows[from] else 0) < 1000
    ensures from == 0 || Opens(limit, nows, from)
  {
    from := WindowOf(limit, nows, i);
    CountFits(limit, nows[..i]);
    FirstGate(limit, nows);
    if from < i {
      CountsWindow(limit, nows, from, i);
    }
  }

  // ---------------------------------------------------------------------------
  // Any second.

  ghost predicate Onward(nows: seq<nat>) {
    forall i, j :: 0 <= i <= j < |nows| ==> nows[i] <= nows[j]
  }

  lemma {:induction false} PassedSplits(limit: nat, nows: seq<nat>, from: nat, mid: nat, end: nat)
    requires from <= mid <= end <= |nows|
    ensures Passed(limit, nows, from, end) == Passed(limit, nows, from, mid) + Passed(limit, nows, mid, end)
  {
    if mid < end {
      PassedSplits(limit, nows, from, mid, end - 1);
    }
  }

  lemma FarApart(now: nat, since: nat)
    requires since <= now && Elapsed(now, since) >= 1000
    ensures now - since >= 1000
  {
  }

  /** Two windows do not open within a second. */
  lemma OpensFarApart(limit: nat, nows: seq<nat>, i: nat, j: nat)
    requires Onward(nows) && i < j < |nows| && Opens(limit, nows, i) && Opens(limit, nows, j)
    ensures nows[j] - nows[i] >= 1000
  {
    var from := WindowOf(limit, nows, j);
    CountsWindow(limit, nows, from, j);
    assert from >= i;
    FarApart(nows[j], nows[from]);
  }

  /** On a clock that does not go back, no thousand milliseconds let through more than twice the limit. */
  lemma SecondKeepsTwice(limit: nat, nows: seq<nat>, from: nat, end: nat)
    requires Onward(nows) && from < end <= |nows| && nows[end - 1] < nows[from] + 1000
    ensures Passed(limit, nows, from, end) <= 2 * limit
  {
    if mid :| from < mid < end && Opens(limit, nows, mid) {
      forall i | from < i < end && i != mid ensures !Opens(limit, nows, i) {
        if Opens(limit, nows, i) {
          OpensFarApart(limit, nows, if i < mid then i else mid, if i < mid then mid else i);
        }
      }
      PassedSplits(limit, nows, from, mid, end);
      WindowKeepsLimit(limit, nows, from, mid);
      WindowKeepsLimit(limit, nows, mid, end);
    } else {
      WindowKeepsLimit(limit, nows, from, end);
    }
  }

  // ---------------------------------------------------------------------------
  // And twice is reached.

  function Repeat(now: nat, n: nat): (nows: seq<nat>)
    ensures |nows| == n && forall i :: 0 <= i < n ==> nows[i] == now
  {
    seq(n, _ => now)
  }

  /** The gate after `n` requests at once, none refused. */
  function Burst(g: Gate, now: nat, n: nat): Gate {
    if n == 0 then g else Gate(if Over(g, now) then now else g.start, n)
  }

  lemma BurstGoesOn(limit: nat, g: Gate, now: nat, n: nat)
    requires n < limit && (Over(g, now) || g.count == 0)
    ensures Admits(limit, Burst(g, now, n), now) && Asked(limit, Burst(g, now, n), now) == Burst(g, now, n + 1)
  {
    assert Elapsed(now, now) == 0;
  }

  lemma {:induction false} BurstPasses(limit: nat, before: seq<nat>, now: nat, n: nat, nows: seq<nat>)
    requires n <= limit && nows == before + Repeat(now, n)
    requires Over(GateAfter(limit, before), now) || GateAfter(limit, before).count == 0
    ensures GateAfter(limit, nows) == Burst(GateAfter(limit, before), now, n)
    ensures Passed(limit, nows, |before|, |nows|) == n
  {
    if n == 0 {
      assert nows == before;
    } else {
      var shorter := before + Repeat(now, n - 1);
      BurstPasses(limit, before, now, n - 1, shorter);
      assert nows == shorter + [now];
      BurstGoesOn(limit, GateAfter(limit, before), now, n - 1);
      GateAppend(limit, shorter, now);
      PassedOfPrefix(limit, shorter, [now], |before|, |shorter|);
    }
  }

  lemma {:induction false} PassedOfPrefix(limit: nat, nows: seq<nat>, more: seq<nat>, from: nat, end: nat)
    requires from <= end <= |nows|
    ensures Passed(limit, nows + more, from, end) == Passed(limit, nows, from, end)
  {
    if from < end {
      PassedOfPrefix(limit, nows, more, from, end - 1);
      assert (nows + more)[..end - 1] == nows[..end - 1];
    }
  }

  /** The limit is not one on events a second: a burst at the end of one window and one at the start of
      the next go through whole, a millisecond apart. */
  lemma TwiceInTwoMilliseconds(limit: nat) returns (nows: seq<nat>)
    ensures nows == Repeat(999, limit) + Repeat(1000, limit) && Passed(limit, nows, 0, |nows|) == 2 * limit
  {
    var first := Repeat(999, limit);
    nows := first + Repeat(1000, limit);
    assert [] + first == first;
    BurstPasses(limit, [], 999, limit, first);
    BurstPasses(limit, first, 1000, limit, nows);
    PassedOfPrefix(limit, first, Repeat(1000, limit), 0, |first|);
    PassedSplits(limit, nows, 0, |first|, |nows|);
  }

  /** Every stretch of less than a second stays within the limit, whatever is asked and when. */
  ghost predicate LimitsEverySecond(limit: nat) {
    forall nows, from: nat, end: nat :: Onward(nows) && WithinSecond(nows, from, end) ==>
      Passed(limit, nows, from, end) <= limit
  }

  predicate WithinSecond(nows: seq<nat>, from: nat, end: nat) {
    from < end <= |nows| && nows[end - 1] < nows[from] + 1000
  }

  /** The limit is one on any second only where nothing is let through at all. */
  lemma OnlyNothingIsLimited(limit: nat)
    ensures LimitsEverySecond(limit) <==> limit == 0
  {
    if limit == 0 {
      forall nows, from: nat, end: nat | Onward(nows) && WithinSecond(nows, from, end)
        ensures Passed(limit, nows, from, end) <= limit
      {
        SecondKeepsTwice(limit, nows, from, end);
      }
    } else {
      var nows := TwiceInTwoMilliseconds(limit);
      assert Onward(nows) && WithinSecond(nows, 0, |nows|);
    }
  }
}

/** Whole histories of calls on the trust engine (core/src/trust.cpp:85-263): what state they lead to,
    how trust falls and is earned back along them, and which policies keep it within what the evidence
    allows. */
module TrustHistory {
  import opened Wrappers
  import opened TrustModel

  /** The reasons whose evidence stands. */
  ghost function LiveAfter(p: Policy, acts: seq<Act>): set<nat> {
    set r: nat | r < REASONS && StandingOf(p, acts, r).Alleged?
  }

  ghost function ScoreAfter(p: Policy, acts: seq<Act>): nat
    requires p.Valid()
  {
    ScoreOf(p, LiveAfter(p, acts))
  }

  ghost predicate Quiet(p: Policy, acts: seq<Act>) {
    forall r: nat :: r < REASONS ==> StandingOf(p, acts, r) != Lapsed(false)
  }

  ghost predicate NothingUnanswered(p: Policy, acts: seq<Act>) {
    forall r: nat :: r < REASONS ==> !Unanswered(p, acts, r)
  }

  lemma QuietMeans(p: Policy, acts: seq<Act>)
    ensures Quiet(p, acts) <==> NothingUnanswered(p, acts)
  {
    forall r: nat | r < REASONS ensures StandingOf(p, acts, r) == Lapsed(false) <==> Unanswered(p, acts, r) {
      LapsedMeansUnanswered(p, acts, r);
    }
  }

  /** Only an update judges, by the evidence it leaves standing. */
  ghost function StanceAfter(p: Policy, acts: seq<Act>): Stance
    requires p.Valid()
  {
    if acts == [] then Stance(Trusted, None)
    else
      var before, last := StanceAfter(p, acts[..|acts| - 1]), acts[|acts| - 1];
      if last.Update? then Judge(p, before, ScoreAfter(p, acts), Quiet(p, acts), last.now) else before
  }

  ghost function StateAfter(p: Policy, acts: seq<Act>): TrustState
    requires p.Valid()
  {
    StanceAfter(p, acts).state
  }

  lemma StanceNext(p: Policy, acts: seq<Act>, act: Act)
    requires p.Valid()
    ensures StanceAfter(p, acts + [act]) ==
            if act.Update?
            then Judge(p, StanceAfter(p, acts), ScoreAfter(p, acts + [act]), Quiet(p, acts + [act]), act.now)
            else StanceAfter(p, acts)
  {
    assert (acts + [act])[..|acts|] == acts;
  }

  /** The engine's masks show what the history left. */
  lemma AgreeMeans(p: Policy, m: Masks, acts: seq<Act>)
    requires Agree(p, m, acts)
    ensures m.live == LiveAfter(p, acts) && (m.unconfirmed == {} <==> Quiet(p, acts))
  {
    assert forall r: nat :: r < REASONS ==> Shows(m, r, StandingOf(p, acts, r));
    assert forall r :: r in m.live <==> r in LiveAfter(p, acts);
    assert forall r: nat :: r in m.unconfirmed <==> r < REASONS && StandingOf(p, acts, r) == Lapsed(false);
  }

  // ---------------------------------------------------------------------------
  // Falling and rising.

  /** The update at `j` finds a score fit for recovery and nothing unanswered. */
  ghost predicate CleanAt(p: Policy, acts: seq<Act>, j: nat)
    requires p.Valid() && j < |acts|
  {
    ScoreAfter(p, acts[..j + 1]) <= p.recoverBelow && Quiet(p, acts[..j + 1])
  }

  /** Every update from `a` on was clean, and none after it moved the state. */
  ghost predicate HoldFrom(p: Policy, acts: seq<Act>, a: nat)
    requires p.Valid()
  {
    && a < |acts| && acts[a].Update?
    && (forall j :: a <= j < |acts| && acts[j].Update? ==> CleanAt(p, acts, j))
    && (forall j :: a < j <= |acts| ==> StateAfter(p, acts[..j]) == StateAfter(p, acts))
  }

  lemma HoldGrows(p: Policy, acts: seq<Act>, act: Act, a: nat)
    requires p.Valid() && HoldFrom(p, acts, a) && StateAfter(p, acts + [act]) == StateAfter(p, acts)
    requires act.Update? ==> CleanAt(p, acts + [act], |acts|)
    ensures HoldFrom(p, acts + [act], a)
  {
    var longer := acts + [act];
    forall j | a <= j < |longer| && longer[j].Update? ensures CleanAt(p, longer, j) {
      if j < |acts| {
        assert longer[..j + 1] == acts[..j + 1];
        assert CleanAt(p, acts, j);
      }
    }
    forall j | a < j <= |longer| ensures StateAfter(p, longer[..j]) == StateAfter(p, longer) {
      assert longer[..j] == if j <= |acts| then acts[..j] else longer;
    }
  }

  lemma HoldStarts(p: Policy, acts: seq<Act>, act: Act)
    requires p.Valid() && act.Update? && CleanAt(p, acts + [act], |acts|)
    ensures HoldFrom(p, acts + [act], |acts|)
  {
    assert (acts + [act])[..|acts| + 1] == acts + [act];
  }

  /** The time the hold is counted from is that of an update since when everything has been clean. */
  lemma {:induction false} HoldBegan(p: Policy, acts: seq<Act>) returns (a: nat)
    requires p.Valid() && StanceAfter(p, acts).clean.Some?
    ensures HoldFrom(p, acts, a) && acts[a].now == StanceAfter(p, acts).clean.value
  {
    var n := |acts| - 1;
    var front, act := acts[..n], acts[n];
    assert acts == front + [act];
    StanceNext(p, front, act);
    assert acts[..n + 1] == acts;
    if StanceAfter(p, acts) == StanceAfter(p, front) {
      a := HoldBegan(p, front);
      HoldGrows(p, front, act, a);
    } else {
      a := n;
      HoldStarts(p, front, act);
    }
  }

  lemma PrefixStep(p: Policy, acts: seq<Act>, k: nat)
    requires p.Valid() && k < |acts|
    ensures StanceAfter(p, acts[..k + 1]) ==
            if acts[k].Update?
            then Judge(p, StanceAfter(p, acts[..k]), ScoreAfter(p, acts[..k + 1]), Quiet(p, acts[..k + 1]), acts[k].now)
            else StanceAfter(p, acts[..k])
  {
    assert acts[..k + 1] == acts[..k] + [acts[k]];
    StanceNext(p, acts[..k], acts[k]);
  }

  /** A rise is one step and has a whole hold behind it, from the update at `a`: no update of it found
      a score above the recovery threshold or any allegation unanswered, and the state did not move.
      So silence is never outwaited, and no two rises share any of a hold. */
  lemma RiseIsEarned(p: Policy, acts: seq<Act>, k: nat) returns (a: nat)
    requires p.Valid() && k < |acts| && StateAfter(p, acts[..k + 1]).Rank() > StateAfter(p, acts[..k]).Rank()
    ensures a < k && acts[a].Update? && acts[k].Update? && (p.hold > 0 ==> acts[a].now + p.hold <= acts[k].now)
    ensures forall j :: a <= j <= k && acts[j].Update? ==> ScoreAfter(p, acts[..j + 1]) <= p.recoverBelow
    ensures forall j :: a <= j <= k && acts[j].Update? ==> NothingUnanswered(p, acts[..j + 1])
    ensures forall j :: a < j <= k ==> StateAfter(p, acts[..j]) == StateAfter(p, acts[..k])
    ensures StateAfter(p, acts[..k + 1]) == if StateAfter(p, acts[..k]) == Untrusted then Degraded else Trusted
  {
    PrefixStep(p, acts, k);
    var before := acts[..k];
    a := HoldBegan(p, before);
    forall j | a <= j <= k && acts[j].Update? ensures CleanAt(p, acts, j) {
      if j < k {
        assert before[..j + 1] == acts[..j + 1];
        assert CleanAt(p, before, j);
      }
    }
    forall j | a < j <= k ensures StateAfter(p, acts[..j]) == StateAfter(p, before) {
      assert before[..j] == acts[..j];
    }
    forall j | a <= j <= k && acts[j].Update? ensures NothingUnanswered(p, acts[..j + 1]) {
      assert CleanAt(p, acts, j);
      QuietMeans(p, acts[..j + 1]);
    }
  }

  /** What one update may do to the state, by the thresholds themselves: from full trust it goes where the
      score says; from Degraded it falls exactly at the lower threshold; and nothing skips a state upwards. */
  predicate Decides(p: Policy, before: TrustState, score: nat, after: TrustState) {
    match before
    case Trusted =>
      && (after == Untrusted <==> score >= p.untrustAt)
      && (after == Degraded <==> p.degradeAt <= score < p.untrustAt)
    case Degraded => (after == Untrusted <==> score >= p.untrustAt) && (after == Trusted ==> score <= p.recoverBelow)
    case Untrusted => after != Trusted && (after == Degraded ==> score <= p.recoverBelow)
  }

  lemma JudgeDecides(p: Policy, s: Stance, score: nat, quiet: bool, now: nat)
    ensures Decides(p, s.state, score, Judge(p, s, score, quiet, now).state)
  {
  }

  /** Falls are immediate and go exactly as far as the score says; and only updates move the state. */
  lemma FallsAtOnce(p: Policy, acts: seq<Act>, k: nat)
    requires p.Valid() && k < |acts|
    ensures acts[k].Update? ==>
              Decides(p, StateAfter(p, acts[..k]), ScoreAfter(p, acts[..k + 1]), StateAfter(p, acts[..k + 1]))
    ensures var before, after := StateAfter(p, acts[..k]), StateAfter(p, acts[..k + 1]);
            var allowed := Allowed(p, ScoreAfter(p, acts[..k + 1]));
            && (acts[k].Update? && allowed.Rank() < before.Rank() ==> after == allowed)
            && (after.Rank() < before.Rank() ==> acts[k].Update? && after == allowed)
            && (after != before ==> acts[k].Update?)
  {
    PrefixStep(p, acts, k);
    if acts[k].Update? {
      var score, quiet := ScoreAfter(p, acts[..k + 1]), Quiet(p, acts[..k + 1]);
      JudgeDecides(p, StanceAfter(p, acts[..k]), score, quiet, acts[k].now);
    }
  }

  /** Evidence counts for exactly as long as the policy says, on any clock. */
  lemma EvidenceLasts(p: Policy, acts: seq<Act>, r: nat, at: nat, now: nat)
    requires p.Valid() && r < REASONS
    ensures r in LiveAfter(p, acts + [Report(r, at)] + [Update(now)]) <==> now < at + p.ttl && p.ttl > 0
  {
    StandingNext(p, acts, Report(r, at), r);
    StandingNext(p, acts + [Report(r, at)], Update(now), r);
  }

  /** What each reason comes to by itself under the default policy: spoofing is not to be trusted, seven
      more are degraded, jamming and motion among them, and the rest are not enough. */
  lemma AloneByDefault(r: nat, at: nat, now: nat)
    requires r < REASONS && now < at + 15000
    ensures StateAfter(DEFAULT_POLICY, [Report(r, at), Update(now)]) ==
            if r == RECEIVER_SPOOFING then Untrusted
            else if r in {0, 2, MOTION_DISAGREEMENT, 5, 7, 8, 9} then Degraded
            else Trusted
  {
    var p, said, acts := DEFAULT_POLICY, [Report(r, at)], [Report(r, at), Update(now)];
    assert acts == [] + said + [Update(now)] && [] + said == said;
    EvidenceLasts(p, [], r, at, now);
    OnlyReported(p, r, at, now);
    SumOfOne(p.weight, r, REASONS);
    StanceNext(p, [], Report(r, at));
    StanceNext(p, said, Update(now));
    JudgeDecides(p, StanceAfter(p, said), ScoreAfter(p, acts), Quiet(p, acts), now);
  }

  lemma OnlyReported(p: Policy, r: nat, at: nat, now: nat)
    requires p.Valid() && r < REASONS && now < at + p.ttl && p.ttl > 0
    ensures LiveAfter(p, [Report(r, at), Update(now)]) == {r}
  {
    var said := [Report(r, at)];
    forall o: nat ensures StandingOf(p, [Report(r, at), Update(now)], o).Alleged? <==> o == r {
      assert [] + said == said && said + [Update(now)] == [Report(r, at), Update(now)];
      StandingNext(p, [], Report(r, at), o);
      StandingNext(p, said, Update(now), o);
    }
  }

  // ---------------------------------------------------------------------------
  // Staying within what the evidence allows.

  /** Whatever is reported, retracted and left over time, no update leaves a state better than the
      evidence it found allows. */
  ghost predicate NeverTooGood(p: Policy)
    requires p.Valid()
  {
    forall acts: seq<Act> :: acts != [] && acts[|acts| - 1].Update? ==> WithinAllowed(p, acts)
  }

  ghost predicate WithinAllowed(p: Policy, acts: seq<Act>)
    requires p.Valid()
  {
    StateAfter(p, acts).Rank() <= Allowed(p, ScoreAfter(p, acts)).Rank()
  }

  /** Some reasons that can stand together score enough to lower trust and little enough to recover.
      Where evidence counts for no time at all, no reason ever stands. */
  ghost predicate Overlaps(p: Policy)
    requires p.Valid()
  {
    exists live: set<nat> :: OverlapsAt(p, live)
  }

  ghost predicate OverlapsAt(p: Policy, live: set<nat>)
    requires p.Valid()
  {
    && (forall r :: r in live ==> r < REASONS) && (live == {} || p.ttl > 0)
    && Allowed(p, ScoreOf(p, live)) != Trusted && ScoreOf(p, live) <= p.recoverBelow
  }

  /** A quick test that shuts every overlap out. */
  predicate Separated(p: Policy) {
    p.recoverBelow < p.degradeAt && p.recoverBelow < p.untrustAt
  }

  lemma JudgedWithin(p: Policy, s: Stance, score: nat, quiet: bool, now: nat)
    requires Judge(p, s, score, quiet, now).state.Rank() > Allowed(p, score).Rank()
    ensures Allowed(p, score) != Trusted && score <= p.recoverBelow
  {
  }

  lemma StandsOnlyInTime(p: Policy, acts: seq<Act>)
    requires acts != [] && acts[|acts| - 1].Update? && p.ttl == 0
    ensures LiveAfter(p, acts) == {}
  {
  }

  /** The exact condition, for every policy: trust stays within what the evidence allows along every
      history if and only if nothing overlaps. */
  lemma NeverTooGoodIffNoOverlap(p: Policy)
    requires p.Valid()
    ensures NeverTooGood(p) <==> !Overlaps(p)
    ensures Separated(p) ==> !Overlaps(p)
  {
    if live: set<nat> :| OverlapsAt(p, live) {
      Overshoots(p, live, Overshoot(p, live));
      assert !WithinAllowed(p, Overshoot(p, live));
    }
    forall acts: seq<Act> | acts != [] && acts[|acts| - 1].Update? && !WithinAllowed(p, acts) ensures Overlaps(p) {
      StanceNext(p, acts[..|acts| - 1], acts[|acts| - 1]);
      assert acts == acts[..|acts| - 1] + [acts[|acts| - 1]];
      JudgedWithin(p, StanceAfter(p, acts[..|acts| - 1]), ScoreAfter(p, acts), Quiet(p, acts), acts[|acts| - 1].now);
      if p.ttl == 0 {
        StandsOnlyInTime(p, acts);
      }
      assert OverlapsAt(p, LiveAfter(p, acts));
    }
  }

  // ---------------------------------------------------------------------------
  // Earning it back.

  /** The clock of the updates never goes back. */
  ghost predicate Onward(acts: seq<Act>) {
    forall i, j :: 0 <= i < j < |acts| && acts[i].Update? && acts[j].Update? ==> acts[i].now <= acts[j].now
  }

  /** Every update from `a` up to `n` is clean. */
  ghost predicate CleanTo(p: Policy, acts: seq<Act>, a: nat, n: nat)
    requires p.Valid()
  {
    a < n <= |acts| && acts[a].Update? && forall j :: a <= j < n && acts[j].Update? ==> CleanAt(p, acts, j)
  }

  lemma CleanNeverFalls(p: Policy, acts: seq<Act>, k: nat)
    requires p.Valid() && !Overlaps(p) && k < |acts| && acts[k].Update? && CleanAt(p, acts, k)
    ensures Allowed(p, ScoreAfter(p, acts[..k + 1])) == Trusted
  {
    if p.ttl == 0 {
      StandsOnlyInTime(p, acts[..k + 1]);
    }
    assert !OverlapsAt(p, LiveAfter(p, acts[..k + 1]));
  }

  lemma CountedFromEarlier(p: Policy, acts: seq<Act>, a: nat)
    requires p.Valid() && Onward(acts) && a < |acts| && acts[a].Update? && StanceAfter(p, acts[..a]).clean.Some?
    ensures StanceAfter(p, acts[..a]).clean.value <= acts[a].now
  {
    var b := HoldBegan(p, acts[..a]);
    assert acts[..a][b] == acts[b];
  }

  /** While it is clean the state does not fall, and until it rises its hold goes on counting. */
  lemma {:induction false} CleanCounts(p: Policy, acts: seq<Act>, a: nat, n: nat)
    requires p.Valid() && !Overlaps(p) && Onward(acts) && CleanTo(p, acts, a, n)
    ensures var first, s := StateAfter(p, acts[..a]), StanceAfter(p, acts[..n]);
            s.state.Rank() > first.Rank() || (s.state == first && s.clean.Some? && s.clean.value <= acts[a].now)
  {
    PrefixStep(p, acts, n - 1);
    if acts[n - 1].Update? {
      CleanNeverFalls(p, acts, n - 1);
    }
    if n > a + 1 {
      CleanCounts(p, acts, a, n - 1);
    } else if StanceAfter(p, acts[..a]).clean.Some? {
      CountedFromEarlier(p, acts, a);
    }
  }

  /** Trust comes back: a hold in which every update is clean ends in a better state, or in full trust. */
  lemma HoldPays(p: Policy, acts: seq<Act>, a: nat, k: nat)
    requires p.Valid() && !Overlaps(p) && Onward(acts) && a < k && CleanTo(p, acts, a, k + 1)
    requires acts[k].Update? && acts[a].now + p.hold <= acts[k].now
    ensures StateAfter(p, acts[..k + 1]) == Trusted
            || StateAfter(p, acts[..k + 1]).Rank() > StateAfter(p, acts[..a]).Rank()
  {
    CleanCounts(p, acts, a, k);
    PrefixStep(p, acts, k);
    CleanNeverFalls(p, acts, k);
  }

  // ---------------------------------------------------------------------------
  // The history that goes past it.

  /** One report of each reason of `live` below `n`, all at the same time. */
  ghost function Reports(live: set<nat>, at: nat, n: nat): seq<Act>
    decreases n
  {
    if n == 0 then []
    else if n - 1 in live then Reports(live, at, n - 1) + [Report(n - 1, at)]
    else Reports(live, at, n - 1)
  }

  lemma {:induction false} Reported(p: Policy, acts: seq<Act>, live: set<nat>, at: nat, n: nat)
    requires p.Valid()
    ensures forall r: nat :: StandingOf(p, acts + Reports(live, at, n), r) ==
                             if r in live && r < n then Alleged(at, false) else StandingOf(p, acts, r)
    ensures StanceAfter(p, acts + Reports(live, at, n)) == StanceAfter(p, acts)
    decreases n
  {
    if n == 0 {
      assert acts + [] == acts;
    } else {
      Reported(p, acts, live, at, n - 1);
      if n - 1 in live {
        var front := acts + Reports(live, at, n - 1);
        assert acts + Reports(live, at, n) == front + [Report(n - 1, at)];
        StanceNext(p, front, Report(n - 1, at));
        forall r: nat
          ensures StandingOf(p, front + [Report(n - 1, at)], r) ==
                  Stand(p, StandingOf(p, front, r), Report(n - 1, at), r)
        {
          StandingNext(p, front, Report(n - 1, at), r);
        }
      }
    }
  }

  /** Exactly the reasons of `live` stand, all since `at`. */
  ghost predicate JustThese(p: Policy, acts: seq<Act>, live: set<nat>, at: nat) {
    forall r: nat :: StandingOf(p, acts, r) == if r in live && r < REASONS then Alleged(at, false) else Silent
  }

  /** An update that finds just these, all fresh, judges just these. */
  lemma UpdateFinds(p: Policy, acts: seq<Act>, live: set<nat>, at: nat)
    requires p.Valid() && OverlapsAt(p, live) && JustThese(p, acts, live, at)
    ensures JustThese(p, acts + [Update(at)], live, at) && ScoreAfter(p, acts + [Update(at)]) == ScoreOf(p, live)
    ensures StanceAfter(p, acts + [Update(at)]) == Judge(p, StanceAfter(p, acts), ScoreOf(p, live), true, at)
  {
    StanceNext(p, acts, Update(at));
    forall r: nat ensures StandingOf(p, acts + [Update(at)], r) == StandingOf(p, acts, r) {
      StandingNext(p, acts, Update(at), r);
    }
    assert forall r :: r in LiveAfter(p, acts + [Update(at)]) <==> r in live;
    assert LiveAfter(p, acts + [Update(at)]) == live;
  }

  /** Everything of `live` is reported, found twice, reported again after the hold and found again. */
  ghost function Lowered(p: Policy, live: set<nat>): seq<Act> {
    Reports(live, 0, |p.weight|) + [Update(0)] + [Update(0)]
  }

  ghost function Overshoot(p: Policy, live: set<nat>): seq<Act> {
    Lowered(p, live) + Reports(live, p.hold, |p.weight|) + [Update(p.hold)]
  }

  /** Full trust found wanting twice at one instant is down at once, and its hold begins. */
  lemma JudgedTwice(p: Policy, score: nat)
    requires p.Valid() && Allowed(p, score) != Trusted && score <= p.recoverBelow
    ensures Judge(p, Judge(p, Stance(Trusted, None), score, true, 0), score, true, 0) ==
            Stance(Allowed(p, score), Some(0))
  {
  }

  lemma LoweredStance(p: Policy, live: set<nat>)
    requires p.Valid() && OverlapsAt(p, live)
    ensures JustThese(p, Lowered(p, live), live, 0)
    ensures StanceAfter(p, Lowered(p, live)) == Stance(Allowed(p, ScoreOf(p, live)), Some(0))
  {
    var reports := Reports(live, 0, |p.weight|);
    Reported(p, [], live, 0, |p.weight|);
    assert [] + reports == reports;
    UpdateFinds(p, reports, live, 0);
    var once := reports + [Update(0)];
    UpdateFinds(p, once, live, 0);
    assert Lowered(p, live) == once + [Update(0)];
    JudgedTwice(p, ScoreOf(p, live));
  }

  /** Along this history an overlap leaves a state one better than the evidence allows. */
  lemma Overshoots(p: Policy, live: set<nat>, acts: seq<Act>)
    requires p.Valid() && OverlapsAt(p, live) && acts == Overshoot(p, live)
    ensures acts != [] && acts[|acts| - 1].Update? && LiveAfter(p, acts) == live
    ensures StateAfter(p, acts) == Allowed(p, ScoreOf(p, live)).OneBetter() && !WithinAllowed(p, acts)
  {
    LoweredStance(p, live);
    var again := Lowered(p, live) + Reports(live, p.hold, |p.weight|);
    Reported(p, Lowered(p, live), live, p.hold, |p.weight|);
    UpdateFinds(p, again, live, p.hold);
    assert forall r :: r in LiveAfter(p, acts) <==> r in live;
  }

  // ---------------------------------------------------------------------------
  // Policies.

  lemma DefaultPolicyArgument(live: set<nat>, r: nat)
    ensures DEFAULT_POLICY.Valid() && NeverTooGood(DEFAULT_POLICY)
    ensures RECEIVER_SPOOFING in live ==> Allowed(DEFAULT_POLICY, ScoreOf(DEFAULT_POLICY, live)) == Untrusted
    ensures MOTION_DISAGREEMENT in live && r in live && r < REASONS && r != MOTION_DISAGREEMENT ==>
              Allowed(DEFAULT_POLICY, ScoreOf(DEFAULT_POLICY, live)) == Untrusted
  {
    DefaultWeights(live, r);
    NeverTooGoodIffNoOverlap(DEFAULT_POLICY);
  }
}

/** The trust engine of core/src/trust.cpp:85-330, proved against the values of TrustModel. */
module Trust {
  import opened Wrappers
  import opened TrustModel
  import opened TrustHistory

  class TrustEngine {
    const policy: Policy
    var state: TrustState
    var live: set<nat>
    var unconfirmed: set<nat>
    var abandoned: set<nat>
    var score: nat
    var evidenceAt: seq<nat>
    var cleanSinceValid: bool
    var cleanSince: nat
    const log: array<Transition>
    var recorded: nat

    /** Since the last reset: every call made, and every transition. */
    ghost var acts: seq<Act>
    ghost var entered: seq<Transition>

    /** The masks say how every allegation stands, and the state is what the history made of it. */
    ghost predicate FollowsActs()
      reads `live, `unconfirmed, `abandoned, `evidenceAt, `state, `cleanSinceValid, `cleanSince, `acts
    {
      policy.Valid() && |evidenceAt| == REASONS && Agree(policy, Now(), acts) && Held() == StanceAfter(policy, acts)
    }

    ghost function Now(): Masks
      reads `live, `unconfirmed, `abandoned, `evidenceAt
    {
      Masks(live, unconfirmed, abandoned, evidenceAt)
    }

    ghost function Held(): Stance
      reads `state, `cleanSinceValid, `cleanSince
    {
      Stance(state, if cleanSinceValid then Some(cleanSince) else None)
    }

    ghost predicate LogAgrees()
      reads `state, `recorded, `entered, log
    {
      recorded == |entered| && Chains(entered, state) && Keeps(log[..], entered)
    }

    ghost predicate Valid()
      reads this, log
    {
      FollowsActs() && LogAgrees()
    }

    constructor (policy: Policy)
      requires policy.Valid()
      ensures Valid() && this.policy == policy && state == Trusted && acts == [] && entered == [] && fresh(log)
    {
      this.policy := policy;
      state, live, unconfirmed, abandoned, score := Trusted, {}, {}, {}, 0;
      evidenceAt, cleanSinceValid, cleanSince, recorded := NO_EVIDENCE, false, 0, 0;
      log := new Transition[LOG_CAPACITY](_ => Transition(Trusted, Trusted, {}, 0));
      acts, entered := [], [];
      NothingAlleged(policy);
    }

    method Report(reason: nat, at: nat)
      requires FollowsActs() && reason < REASONS
      modifies `live, `unconfirmed, `abandoned, `evidenceAt, `acts
      ensures FollowsActs() && acts == old(acts) + [Act.Report(reason, at)]
      ensures reason in live && reason !in unconfirmed
    {
      evidenceAt := evidenceAt[reason := at];
      live, unconfirmed, abandoned := live + {reason}, unconfirmed - {reason}, abandoned - {reason};
      AgreeNext(policy, old(Now()), acts, Act.Report(reason, at), Now());
      StanceNext(policy, acts, Act.Report(reason, at));
      acts := acts + [Act.Report(reason, at)];
    }

    method Clear(reason: nat)
      requires FollowsActs() && reason < REASONS
      modifies `live, `unconfirmed, `abandoned, `acts
      ensures FollowsActs() && acts == old(acts) + [Act.Clear(reason)]
      ensures reason !in live && reason !in unconfirmed
    {
      live, unconfirmed, abandoned := live - {reason}, unconfirmed - {reason}, abandoned - {reason};
      AgreeNext(policy, old(Now()), acts, Act.Clear(reason), Now());
      StanceNext(policy, acts, Act.Clear(reason));
      acts := acts + [Act.Clear(reason)];
    }

    /** The subject of an allegation has left: it stops being waited for, and evidence that still
        stands goes on counting. */
    method StopAwaiting(reason: nat)
      requires FollowsActs() && reason < REASONS
      modifies `unconfirmed, `abandoned, `acts
      ensures FollowsActs() && acts == old(acts) + [Act.StopAwaiting(reason)]
      ensures reason !in unconfirmed
    {
      unconfirmed, abandoned := unconfirmed - {reason}, abandoned + {reason};
      AgreeNext(policy, old(Now()), acts, Act.StopAwaiting(reason), Now());
      StanceNext(policy, acts, Act.StopAwaiting(reason));
      acts := acts + [Act.StopAwaiting(reason)];
    }

    /** Evidence decays, the score is taken and the state is judged.  `Valid` ties the state to the whole
        history; where the policy has no overlap it is never better than the evidence allows. */
    method Update(now: nat)
      requires Valid()
      modifies this, log
      ensures Valid() && acts == old(acts) + [Act.Update(now)]
      ensures live == LiveAfter(policy, acts) && score == ScoreOf(policy, live)
      ensures Decides(policy, old(state), score, state)
      ensures !Overlaps(policy) ==> state.Rank() <= Allowed(policy, score).Rank()
      ensures entered == if state == old(state) then old(entered)
                         else old(entered) + [Transition(old(state), state, live, now)]
    {
      ghost var next := acts + [Act.Update(now)];
      StanceNext(policy, acts, Act.Update(now));
      Decay(now);
      ghost var masks := Now();
      AgreeMeans(policy, masks, next);
      TakeScore();
      Weigh(now);
      assert Now() == masks;
      acts := next;
      if !Overlaps(policy) {
        StaysWithin(policy, next);
      }
    }

    method Decay(now: nat)
      requires policy.Valid() && |evidenceAt| == REASONS && Agree(policy, Now(), acts)
      modifies `live, `unconfirmed
      ensures Agree(policy, Now(), acts + [Act.Update(now)])
    {
      ghost var m := Now();
      for i := 0 to REASONS
        invariant abandoned == m.abandoned && evidenceAt == m.evidenceAt && |evidenceAt| == REASONS
        invariant Known(Now())
        invariant forall r: nat, s: Standing :: Shows(m, r, s) ==>
                    Shows(Now(), r, if r < i then Stand(policy, s, Act.Update(now), r) else s)
      {
        if i in live && Elapsed(evidenceAt[i], now) >= policy.ttl {
          live := live - {i};
          if i !in abandoned {
            unconfirmed := unconfirmed + {i};
          }
        }
      }
      AgreeNext(policy, m, acts, Act.Update(now), Now());
    }

    method TakeScore()
      requires policy.Valid()
      modifies `score
      ensures score == ScoreOf(policy, live)
    {
      var total := 0;
      for i := 0 to REASONS
        invariant total == Sum(policy.weight, live, i)
      {
        if i in live {
          total := total + policy.weight[i];
        }
      }
      score := if total > MAX_SCORE then MAX_SCORE else total;
    }

    method Weigh(now: nat)
      requires LogAgrees()
      modifies `state, `cleanSinceValid, `cleanSince, `recorded, log, `entered
      ensures LogAgrees() && Held() == Judge(policy, old(Held()), score, unconfirmed == {}, now)
      ensures Decides(policy, old(state), score, state)
      ensures entered == if state == old(state) then old(entered)
                         else old(entered) + [Transition(old(state), state, live, now)]
    {
      var target := if score >= policy.untrustAt then Untrusted
                    else if score >= policy.degradeAt then Degraded
                    else Trusted;
      if target.Rank() < state.Rank() {
        cleanSinceValid := false;
        Enter(target, now);
        return;
      }
      if score > policy.recoverBelow || unconfirmed != {} {
        cleanSinceValid := false;
        return;
      }
      if !cleanSinceValid {
        cleanSinceValid, cleanSince := true, now;
        return;
      }
      if state != Trusted && Elapsed(cleanSince, now) >= policy.hold {
        Enter(state.OneBetter(), now);
        cleanSince := now;
      }
    }

    /** Every change of state, and nothing else, is logged. */
    method Enter(next: TrustState, now: nat)
      requires LogAgrees()
      modifies `state, `recorded, log, `entered
      ensures LogAgrees() && state == next
      ensures entered == if next == old(state) then old(entered)
                         else old(entered) + [Transition(old(state), next, live, now)]
    {
      if next == state {
        return;
      }
      var entry := Transition(state, next, live, now);
      KeepsNext(log[..], entered, entry);
      ChainsNext(entered, state, entry);
      log[Place(recorded)] := entry;
      recorded, state, entered := recorded + 1, next, entered + [entry];
    }

    method TransitionsLogged() returns (kept: nat)
      requires LogAgrees()
      ensures kept == if |entered| < LOG_CAPACITY then |entered| else LOG_CAPACITY
    {
      return if recorded < LOG_CAPACITY then recorded else LOG_CAPACITY;
    }

    /** Entry 0 is the oldest kept, and they come back in the order they were made. */
    method TransitionAt(index: nat) returns (t: Option<Transition>)
      requires LogAgrees()
      ensures var kept := if |entered| < LOG_CAPACITY then |entered| else LOG_CAPACITY;
              t == if index < kept then Some(entered[|entered| - kept + index]) else None
    {
      var kept := TransitionsLogged();
      if index >= kept {
        return None;
      }
      var oldest := if recorded < LOG_CAPACITY then 0 else Place(recorded);
      if recorded >= LOG_CAPACITY {
        PlaceFrom(recorded, index);
      }
      return Some(log[Place(oldest + index)]);
    }

    method Reset()
      requires Valid()
      modifies this
      ensures Valid() && state == Trusted && live == {} && unconfirmed == {} && acts == [] && entered == []
    {
      state, live, unconfirmed, abandoned, score := Trusted, {}, {}, {}, 0;
      evidenceAt, cleanSinceValid, recorded := NO_EVIDENCE, false, 0;
      acts, entered := [], [];
      NothingAlleged(policy);
    }
  }

  lemma StaysWithin(p: Policy, acts: seq<Act>)
    requires p.Valid() && !Overlaps(p) && acts != [] && acts[|acts| - 1].Update?
    ensures StateAfter(p, acts).Rank() <= Allowed(p, ScoreAfter(p, acts)).Rank()
  {
    NeverTooGoodIffNoOverlap(p);
    assert WithinAllowed(p, acts);
  }

  /** One report of each reason of `reasons`. */
  method ReportEach(engine: TrustEngine, reasons: set<nat>, at: nat)
    requires engine.FollowsActs()
    modifies engine`live, engine`unconfirmed, engine`abandoned, engine`evidenceAt, engine`acts
    ensures engine.FollowsActs() && engine.acts == old(engine.acts) + Reports(reasons, at, |engine.policy.weight|)
  {
    for r := 0 to |engine.policy.weight|
      invariant engine.FollowsActs() && engine.acts == old(engine.acts) + Reports(reasons, at, r)
    {
      if r in reasons {
        engine.Report(r, at);
      }
    }
  }

  /** The history of an overshoot, on the engine itself. */
  method Overshot(policy: Policy, live: set<nat>) returns (engine: TrustEngine)
    requires policy.Valid()
    ensures fresh(engine) && engine.Valid() && engine.policy == policy && engine.acts == Overshoot(policy, live)
  {
    engine := new TrustEngine(policy);
    ReportEach(engine, live, 0);
    ghost var reports := Reports(live, 0, |policy.weight|);
    assert [] + reports == reports;
    engine.Update(0);
    engine.Update(0);
    ReportEach(engine, live, policy.hold);
    engine.Update(policy.hold);
  }

  /** Where reasons overlap, the engine comes to show a state better than the evidence that stands
      allows. */
  method OverlapOvershoots(policy: Policy, live: set<nat>) returns (engine: TrustEngine)
    requires policy.Valid() && OverlapsAt(policy, live)
    ensures fresh(engine) && engine.Valid() && engine.policy == policy && engine.live == live
    ensures engine.state == Allowed(policy, ScoreOf(policy, live)).OneBetter() != Allowed(policy, ScoreOf(policy, live))
  {
    engine := Overshot(policy, live);
    Overshoots(policy, live, engine.acts);
    AgreeMeans(policy, engine.Now(), engine.acts);
    assert engine.Held().state == engine.state;
  }

  const ACCURACY_POOR: nat := 11

  /** Recovering below the degrading threshold is not enough when the other one is lower still: with
      these numbers a poor accuracy, which is Untrusted, climbs to Degraded while it is being reported. */
  method BelowDegradeIsNotEnough() returns (engine: TrustEngine)
    ensures engine.policy == DEFAULT_POLICY.(degradeAt := 60, untrustAt := 10, recoverBelow := 20)
    ensures engine.policy.recoverBelow < engine.policy.degradeAt
    ensures engine.live == {ACCURACY_POOR} && engine.state == Degraded
    ensures engine.policy.Valid() && Allowed(engine.policy, ScoreOf(engine.policy, engine.live)) == Untrusted
  {
    var policy := DEFAULT_POLICY.(degradeAt := 60, untrustAt := 10, recoverBelow := 20);
    SumOfOne(policy.weight, ACCURACY_POOR, |policy.weight|);
    engine := OverlapOvershoots(policy, {ACCURACY_POOR});
  }
}

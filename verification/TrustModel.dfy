/** Trust as values (core/src/trust.cpp): what has been alleged and not answered, what the evidence that
    stands scores and what a score allows, one evaluation, and the log. */
module TrustModel {
  import opened Wrappers

  const REASONS: nat := 15

  datatype TrustState = Untrusted | Degraded | Trusted {
    function Rank(): nat {
      match this
      case Untrusted => 0
      case Degraded => 1
      case Trusted => 2
    }

    function OneBetter(): TrustState {
      if this.Untrusted? then Degraded else Trusted
    }
  }

  datatype Policy = Policy(weight: seq<nat>, degradeAt: nat, untrustAt: nat, recoverBelow: nat, ttl: nat, hold: nat) {
    predicate Valid() {
      |weight| == REASONS && hold <= LONGEST && ttl <= LONGEST
    }
  }

  const LONGEST: nat := 0xFFFF_FFFF

  /** A clock that went backwards has measured nothing, and durations saturate. */
  function Elapsed(from: nat, to: nat): nat {
    if to <= from then 0 else if to - from > LONGEST then LONGEST else to - from
  }

  // ---------------------------------------------------------------------------
  // Allegations.

  datatype Act = Report(reason: nat, at: nat) | Clear(reason: nat) | StopAwaiting(reason: nat) | Update(now: nat)

  /** How an allegation stands: not made or withdrawn; standing on evidence; or lapsed with its
      evidence and never withdrawn.  Its subject may have left since it was made. */
  datatype Standing = Silent | Alleged(at: nat, left: bool) | Lapsed(left: bool)

  function Stand(p: Policy, s: Standing, act: Act, reason: nat): Standing {
    match act
    case Report(r, at) => if r == reason then Alleged(at, false) else s
    case Clear(r) => if r == reason then Silent else s
    case StopAwaiting(r) =>
      if r == reason && s != Silent then s.(left := true) else s
    case Update(now) => if s.Alleged? && Elapsed(s.at, now) >= p.ttl then Lapsed(s.left) else s
  }

  ghost function StandingOf(p: Policy, acts: seq<Act>, reason: nat): Standing {
    if acts == [] then Silent else Stand(p, StandingOf(p, acts[..|acts| - 1], reason), acts[|acts| - 1], reason)
  }

  lemma StandingNext(p: Policy, acts: seq<Act>, act: Act, reason: nat)
    ensures StandingOf(p, acts + [act], reason) == Stand(p, StandingOf(p, acts, reason), act, reason)
  {
    assert (acts + [act])[..|acts + [act]| - 1] == acts;
  }

  predicate Mentions(act: Act, reason: nat) {
    !act.Update? && act.reason == reason
  }

  /** The last word about `reason` is the report at `i`. */
  ghost predicate LastWord(acts: seq<Act>, reason: nat, i: nat) {
    && i < |acts| && acts[i].Report? && acts[i].reason == reason
    && forall k :: i < k < |acts| ==> !Mentions(acts[k], reason)
  }

  /** The update at `j` found the evidence of the report at `i` expired. */
  ghost predicate Expires(p: Policy, acts: seq<Act>, i: nat, j: nat) {
    i < j < |acts| && acts[i].Report? && acts[j].Update? && Elapsed(acts[i].at, acts[j].now) >= p.ttl
  }

  lemma {:induction false} AfterReport(p: Policy, acts: seq<Act>, reason: nat, i: nat)
    requires LastWord(acts, reason, i)
    ensures StandingOf(p, acts, reason) == if exists j :: Expires(p, acts, i, j) then Lapsed(false)
                                          else Alleged(acts[i].at, false)
  {
    var n := |acts| - 1;
    if i < n {
      AfterReport(p, acts[..n], reason, i);
      if j :| Expires(p, acts[..n], i, j) {
        assert Expires(p, acts, i, j);
      } else if Expires(p, acts, i, n) {
      } else if j :| Expires(p, acts, i, j) {
        assert Expires(p, acts[..n], i, j);
      }
    }
  }

  lemma {:induction false} ReportBehind(p: Policy, acts: seq<Act>, reason: nat) returns (i: nat)
    requires StandingOf(p, acts, reason) != Silent && !StandingOf(p, acts, reason).left
    ensures LastWord(acts, reason, i)
  {
    i := |acts| - 1;
    if !Mentions(acts[i], reason) {
      i := ReportBehind(p, acts[..i], reason);
    }
  }

  /** The last word about `reason` is a report whose evidence some update since has found expired. */
  ghost predicate Unanswered(p: Policy, acts: seq<Act>, reason: nat) {
    exists i, j :: LastWord(acts, reason, i) && Expires(p, acts, i, j)
  }

  /** Silence is not an all-clear: what has lapsed is what is unanswered. */
  lemma LapsedMeansUnanswered(p: Policy, acts: seq<Act>, reason: nat)
    ensures StandingOf(p, acts, reason) == Lapsed(false) <==> Unanswered(p, acts, reason)
  {
    if StandingOf(p, acts, reason) == Lapsed(false) {
      var i := ReportBehind(p, acts, reason);
      AfterReport(p, acts, reason, i);
    }
    if i, j :| LastWord(acts, reason, i) && Expires(p, acts, i, j) {
      AfterReport(p, acts, reason, i);
    }
  }

  /** The engine's three masks and its timestamps. */
  datatype Masks = Masks(live: set<nat>, unconfirmed: set<nat>, abandoned: set<nat>, evidenceAt: seq<nat>)

  /** How `r` stands, read off the masks. */
  ghost predicate Shows(m: Masks, r: nat, s: Standing) {
    && r < |m.evidenceAt| == REASONS
    && (r in m.live <==> s.Alleged?) && (r in m.live ==> m.evidenceAt[r] == s.at)
    && (r in m.unconfirmed <==> s == Lapsed(false))
    && (s != Silent ==> (r in m.abandoned <==> s.left))
  }

  ghost predicate Agree(p: Policy, m: Masks, acts: seq<Act>) {
    && (forall r :: 0 <= r < REASONS ==> Shows(m, r, StandingOf(p, acts, r)))
    && Known(m)
  }

  ghost predicate Known(m: Masks) {
    (forall r :: r in m.live ==> r < REASONS) && (forall r :: r in m.unconfirmed ==> r < REASONS)
  }

  const NO_EVIDENCE: seq<nat> := seq(REASONS, _ => 0)

  lemma NothingAlleged(p: Policy)
    ensures |NO_EVIDENCE| == REASONS && Agree(p, Masks({}, {}, {}, NO_EVIDENCE), [])
  {
  }

  /** Masks that follow an act reason by reason follow the whole history. */
  lemma AgreeNext(p: Policy, m: Masks, acts: seq<Act>, act: Act, after: Masks)
    requires Agree(p, m, acts)
    requires forall r, s :: Shows(m, r, s) ==> Shows(after, r, Stand(p, s, act, r))
    requires Known(after)
    ensures Agree(p, after, acts + [act])
  {
    forall r | 0 <= r < REASONS ensures Shows(after, r, StandingOf(p, acts + [act], r)) {
      assert Shows(m, r, StandingOf(p, acts, r));
      StandingNext(p, acts, act, r);
    }
  }

  // ---------------------------------------------------------------------------
  // Scores and states.

  /** The best state a score allows. */
  function Allowed(p: Policy, score: nat): TrustState {
    if score >= p.untrustAt then Untrusted else if score >= p.degradeAt then Degraded else Trusted
  }

  /** The state, and since when the score has been clean if it is. */
  datatype Stance = Stance(state: TrustState, clean: Option<nat>)

  /** One evaluation: down at once; up one step when the score has stayed clean, with nothing
      unanswered, for the whole hold. */
  function Judge(p: Policy, s: Stance, score: nat, quiet: bool, now: nat): Stance {
    if Allowed(p, score).Rank() < s.state.Rank() then Stance(Allowed(p, score), None)
    else if score > p.recoverBelow || !quiet then s.(clean := None)
    else if s.clean == None then s.(clean := Some(now))
    else if s.state != Trusted && Elapsed(s.clean.value, now) >= p.hold then Stance(s.state.OneBetter(), Some(now))
    else s
  }

  // ---------------------------------------------------------------------------
  // The score.

  /** The weight of the first `n` reasons that are live. */
  function Sum(weight: seq<nat>, live: set<nat>, n: nat): nat
    requires n <= |weight|
  {
    if n == 0 then 0 else Sum(weight, live, n - 1) + if n - 1 in live then weight[n - 1] else 0
  }

  const MAX_SCORE: nat := 0xFFFF

  function ScoreOf(p: Policy, live: set<nat>): nat
    requires p.Valid()
  {
    if Sum(p.weight, live, |p.weight|) > MAX_SCORE then MAX_SCORE else Sum(p.weight, live, |p.weight|)
  }

  /** More evidence never scores less, and so never allows a better state. */
  lemma {:induction false} MoreIsWorse(p: Policy, fewer: set<nat>, more: set<nat>, n: nat)
    requires fewer <= more && n <= |p.weight|
    ensures Sum(p.weight, fewer, n) <= Sum(p.weight, more, n)
    ensures p.Valid() && n == |p.weight| ==>
              Allowed(p, ScoreOf(p, more)).Rank() <= Allowed(p, ScoreOf(p, fewer)).Rank()
  {
    if n > 0 {
      MoreIsWorse(p, fewer, more, n - 1);
    }
  }

  /** Each reason that stands adds its own weight, once, until the score is full. */
  lemma {:induction false} SumAdds(weight: seq<nat>, live: set<nat>, r: nat, n: nat)
    requires r !in live && n <= |weight|
    ensures Sum(weight, live + {r}, n) == Sum(weight, live, n) + if r < n then weight[r] else 0
    ensures Sum(weight, {}, n) == 0
  {
    if n > 0 {
      SumAdds(weight, live, r, n - 1);
    }
  }

  lemma ScoreAdds(p: Policy, live: set<nat>, r: nat)
    requires p.Valid() && r !in live && r < REASONS
    ensures ScoreOf(p, {}) == 0
    ensures ScoreOf(p, live + {r}) ==
            if ScoreOf(p, live) + p.weight[r] > 65535 then 65535 else ScoreOf(p, live) + p.weight[r]
  {
    SumAdds(p.weight, live, r, |p.weight|);
  }

  lemma SumOfOne(weight: seq<nat>, r: nat, n: nat)
    requires r < |weight| && n <= |weight|
    ensures Sum(weight, {r}, n) == if r < n then weight[r] else 0
  {
    SumAdds(weight, {}, r, n);
    assert {} + {r} == {r};
  }

  lemma {:induction false} ScoresBoth(p: Policy, live: set<nat>, n: nat, i: nat, j: nat)
    requires i < n <= |p.weight| && i in live && (j == i || (j < n && j in live))
    ensures Sum(p.weight, live, n) >= p.weight[i] + if j == i then 0 else p.weight[j]
  {
    if i == n - 1 {
      if j != i {
        ScoresBoth(p, live, n - 1, j, j);
      }
    } else if j == n - 1 {
      ScoresBoth(p, live, n - 1, i, i);
    } else {
      ScoresBoth(p, live, n - 1, i, j);
    }
  }

  const MOTION_DISAGREEMENT: nat := 4
  const RECEIVER_SPOOFING: nat := 1

  const DEFAULT_POLICY := Policy([35, 70, 30, 25, 45, 40, 25, 40, 30, 30, 25, 15, 15, 20, 20], 30, 60, 15, 15000, 5000)

  /** The argument of the default weights, whatever else is alleged: the receiver's spoofing alarm is
      enough by itself, and movement the wrist did not make is Untrusted as soon as anything agrees. */
  lemma DefaultWeights(live: set<nat>, r: nat)
    ensures RECEIVER_SPOOFING in live ==> Allowed(DEFAULT_POLICY, ScoreOf(DEFAULT_POLICY, live)) == Untrusted
    ensures MOTION_DISAGREEMENT in live && r in live && r < REASONS && r != MOTION_DISAGREEMENT ==>
              Allowed(DEFAULT_POLICY, ScoreOf(DEFAULT_POLICY, live)) == Untrusted
  {
    var p := DEFAULT_POLICY;
    if RECEIVER_SPOOFING in live {
      ScoresBoth(p, live, REASONS, RECEIVER_SPOOFING, RECEIVER_SPOOFING);
    }
    if MOTION_DISAGREEMENT in live && r in live && r < REASONS && r != MOTION_DISAGREEMENT {
      ScoresBoth(p, live, REASONS, MOTION_DISAGREEMENT, r);
    }
  }

  // ---------------------------------------------------------------------------
  // The log.

  datatype Transition = Transition(from: TrustState, to: TrustState, reasons: set<nat>, at: nat)

  /** The state after the first `n` entries. */
  function StateAt(entered: seq<Transition>, n: nat): TrustState
    requires n <= |entered|
  {
    if n == 0 then Trusted else entered[n - 1].to
  }

  /** Each entry starts where the one before it ended, moves, and the last one ends at `state`. */
  ghost predicate Chains(entered: seq<Transition>, state: TrustState) {
    && (forall i :: 0 <= i < |entered| ==> entered[i].from == StateAt(entered, i) != entered[i].to)
    && state == StateAt(entered, |entered|)
  }

  lemma ChainsNext(entered: seq<Transition>, state: TrustState, t: Transition)
    requires Chains(entered, state) && t.from == state != t.to
    ensures Chains(entered + [t], t.to)
  {
    forall i | 0 <= i < |entered| + 1
      ensures (entered + [t])[i].from == StateAt(entered + [t], i) != (entered + [t])[i].to
    {
      assert StateAt(entered + [t], i) == StateAt(entered, i);
      assert i < |entered| ==> (entered + [t])[i] == entered[i];
    }
  }

  const LOG_CAPACITY: nat := 16

  /** The ring keeps the latest entries, each at its number's place. */
  ghost predicate Keeps(ring: seq<Transition>, entered: seq<Transition>) {
    && |ring| == LOG_CAPACITY
    && forall i :: 0 <= i < |entered| && |entered| - LOG_CAPACITY <= i ==> ring[Place(i)] == entered[i]
  }

  function Place(i: nat): (at: nat)
    ensures at < LOG_CAPACITY
  {
    i % LOG_CAPACITY
  }

  /** Where the entry `index` places after the oldest one is, once the ring has come round. */
  lemma PlaceFrom(recorded: nat, index: nat)
    requires recorded >= LOG_CAPACITY > index
    ensures Place(Place(recorded) + index) == Place(recorded - LOG_CAPACITY + index)
  {
    var q := recorded / LOG_CAPACITY;
    assert Place(recorded) + index - (recorded - LOG_CAPACITY + index) == LOG_CAPACITY * (1 - q);
  }

  lemma KeepsNext(ring: seq<Transition>, entered: seq<Transition>, t: Transition)
    requires Keeps(ring, entered)
    ensures Keeps(ring[Place(|entered|) := t], entered + [t])
  {
    var n := |entered|;
    forall i | 0 <= i < n && n + 1 - LOG_CAPACITY <= i ensures Place(i) != Place(n) {
    }
  }
}

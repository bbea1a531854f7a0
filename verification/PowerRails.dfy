/** Which rails are down when a consumer is resumed: the order that unwinding and recovery share, and
    what it is worth once a rail refuses to come back. */
module PowerRails {
  import opened PowerState
  import opened PowerTrace

  /** The rails that are down for all the calls on them have reported. */
  ghost function RailsDown(before: set<nat>, calls: seq<Call>): set<nat> {
    if calls == [] then before
    else
      var last, down := calls[|calls| - 1], RailsDown(before, calls[..|calls| - 1]);
      match last
      case Call(Do(Rail, d), true) => down + {d}
      case Call(Undo(Rail, d), true) => down - {d}
      case _ => down
  }

  ghost predicate AllUndo(calls: seq<Call>) {
    forall i :: 0 <= i < |calls| ==> calls[i].op.Undo?
  }

  /** A rail stays down until it is brought back, and nothing else brings it back. */
  lemma {:induction false} DownUntilRestored(before: set<nat>, calls: seq<Call>, d: nat)
    requires AllUndo(calls)
    ensures d in RailsDown(before, calls) <==> d in before && Call(Undo(Rail, d), true) !in calls
  {
    if calls != [] {
      var front := calls[..|calls| - 1];
      assert calls == front + [calls[|calls| - 1]];
      DownUntilRestored(before, front, d);
    }
  }

  lemma {:induction false} DownOnceCut(calls: seq<Call>, d: nat)
    requires forall i :: 0 <= i < |calls| ==> !calls[i].op.Undo?
    ensures d in RailsDown({}, calls) <==> Call(Do(Rail, d), true) in calls
  {
    if calls != [] {
      var front := calls[..|calls| - 1];
      assert calls == front + [calls[|calls| - 1]];
      DownOnceCut(front, d);
    }
  }

  predicate NoConsumer(ops: seq<Op>) {
    forall i :: 0 <= i < |ops| ==> ops[i].Undo? && ops[i].step != Consumer
  }

  predicate OnlyConsumers(ops: seq<Op>) {
    forall i :: 0 <= i < |ops| ==> ops[i].Undo? && ops[i].step == Consumer
  }

  /** Where every consumer comes after everything else, a consumer finds its rail down exactly when it
      was down and no call brings it back. */
  lemma ResumedLast(before: set<nat>, calls: seq<Call>, others: seq<Op>, consumers: seq<Op>, k: nat, d: nat)
    requires Ops(calls) == others + consumers && NoConsumer(others) && OnlyConsumers(consumers)
    requires k < |calls| && calls[k].op == Undo(Consumer, d)
    ensures |others| <= k && others <= Ops(calls[..k])
    ensures d in RailsDown(before, calls[..k]) <==> d in before && Call(Undo(Rail, d), true) !in calls
  {
    assert forall i :: 0 <= i < |calls| ==> calls[i].op == (others + consumers)[i];
    assert forall i :: 0 <= i < |others| ==> calls[i].op == others[i];
    assert forall i :: |others| <= i < |calls| ==> calls[i].op == consumers[i - |others|];
    DownUntilRestored(before, calls[..k], d);
    forall i | 0 <= i < |calls| && calls[i] == Call(Undo(Rail, d), true) ensures calls[i] in calls[..k] {
      assert calls[..k][i] == calls[i];
    }
  }

  lemma {:induction false} UndoStepsAre(step: Step, mask: set<nat>, n: nat, i: nat)
    requires i < |UndoSteps(step, mask, n)|
    ensures UndoSteps(step, mask, n)[i].Undo? && UndoSteps(step, mask, n)[i].step == step
  {
    if n - 1 !in mask {
      UndoStepsAre(step, mask, n - 1, i);
    } else if i > 0 {
      UndoStepsAre(step, mask, n - 1, i - 1);
    }
  }

  /** A recovery resumes a consumer onto a rail that is down exactly when that rail was owed and its
      retry failed too: the order keeps that promise only for rails that do come back. */
  lemma RecoveryOntoDownRail(resume: set<nat>, rails: set<nat>, disarm: set<nat>, calls: seq<Call>, k: nat, d: nat)
    requires Ops(calls) == UndoRecord(resume, rails, disarm)
    requires k < |calls| && calls[k].op == Undo(Consumer, d)
    ensures d in RailsDown(rails, calls[..k]) <==> d in rails && Call(Undo(Rail, d), true) !in calls
  {
    var wake, cut, suspended := UndoSteps(Wake, disarm, SOURCE_COUNT), UndoSteps(Rail, rails, DOMAIN_COUNT),
      UndoSteps(Consumer, resume, DOMAIN_COUNT);
    forall i | 0 <= i < |wake| ensures wake[i].Undo? && wake[i].step == Wake {
      UndoStepsAre(Wake, disarm, SOURCE_COUNT, i);
    }
    forall i | 0 <= i < |cut| ensures cut[i].Undo? && cut[i].step == Rail {
      UndoStepsAre(Rail, rails, DOMAIN_COUNT, i);
    }
    forall i | 0 <= i < |suspended| ensures suspended[i].Undo? && suspended[i].step == Consumer {
      UndoStepsAre(Consumer, resume, DOMAIN_COUNT, i);
    }
    Associative(wake, cut, suspended);
    ResumedLast(rails, calls, wake + cut, suspended, k, d);
  }

  /** What a step that succeeded takes to undo is among what undoes the whole. */
  lemma {:induction false} DoneIsUndone(calls: seq<Call>, i: nat)
    requires i < |calls| && calls[i].done && calls[i].op.Do?
    ensures Undo(calls[i].op.step, calls[i].op.bit) in UndoOf(calls)
  {
    if i < |calls| - 1 {
      DoneIsUndone(calls[..|calls| - 1], i);
    }
  }

  lemma SplitCalls(calls: seq<Call>, a: seq<Op>, b: seq<Op>) returns (head: seq<Call>, tail: seq<Call>)
    requires Ops(calls) <= a + b
    ensures calls == head + tail
    ensures forall i :: 0 <= i < |head| ==> head[i].op in a
    ensures forall i :: 0 <= i < |tail| ==> tail[i].op in b
  {
    var cut := if |a| <= |calls| then |a| else |calls|;
    head, tail := calls[..cut], calls[cut..];
    forall i | 0 <= i < |calls| ensures if i < cut then calls[i].op in a else calls[i].op in b {
      assert Ops(calls)[i] == (a + b)[i];
    }
  }

  /** The consumers a forward part suspended and the rest of it, each with what undoes it. */
  lemma {:induction false} SplitAtRails(plan: Plan, forward: seq<Call>) returns (head: seq<Call>, tail: seq<Call>)
    requires Forward(plan, forward)
    ensures forward == head + tail && UndoOf(forward) == UndoOf(tail) + UndoOf(head)
    ensures OnlyConsumers(UndoOf(head)) && NoConsumer(UndoOf(tail))
    ensures forall i :: 0 <= i < |head| ==> head[i].op.Do? && head[i].op.step == Consumer
  {
    head, tail := SplitCalls(forward, Steps(Consumer, plan.suspend, DOMAIN_COUNT), ProgramFromRails(plan));
    UndoOfConcat(head, tail);
    HeadUndoes(plan, head);
    TailUndoes(plan, tail);
  }

  lemma {:induction false} HeadUndoes(plan: Plan, head: seq<Call>)
    requires forall i :: 0 <= i < |head| ==> head[i].op in Steps(Consumer, plan.suspend, DOMAIN_COUNT)
    ensures OnlyConsumers(UndoOf(head))
    ensures forall i :: 0 <= i < |head| ==> head[i].op.Do? && head[i].op.step == Consumer
  {
    forall i | 0 <= i < |head| ensures head[i].op.Do? && head[i].op.step == Consumer {
      StepsMember(Consumer, plan.suspend, DOMAIN_COUNT, head[i].op);
    }
    forall op | op in UndoOf(head) ensures op.Undo? && op.step == Consumer {
      var i := UndoneWasDone(head, op);
    }
  }

  lemma {:induction false} TailUndoes(plan: Plan, tail: seq<Call>)
    requires forall i :: 0 <= i < |tail| ==> tail[i].op in ProgramFromRails(plan)
    ensures NoConsumer(UndoOf(tail))
  {
    forall op | op in UndoOf(tail) ensures op.Undo? && op.step != Consumer {
      var i := UndoneWasDone(tail, op);
      if tail[i].op in Steps(Rail, plan.railsOff, DOMAIN_COUNT) {
        StepsMember(Rail, plan.railsOff, DOMAIN_COUNT, tail[i].op);
      } else {
        StepsMember(Wake, plan.wakeSources, SOURCE_COUNT, tail[i].op);
      }
    }
  }

  lemma ForwardUndoesNothing(plan: Plan, forward: seq<Call>)
    requires Forward(plan, forward)
    ensures forall i :: 0 <= i < |forward| ==> !forward[i].op.Undo?
  {
    forall i | 0 <= i < |forward| ensures !forward[i].op.Undo? {
      assert forward[i].op == Ops(forward)[i] == Program(plan)[i];
      if !forward[i].op.Enter? {
        ProgramMember(plan, forward[i].op);
      }
    }
  }

  /** A transaction resumes a consumer onto a rail that is down exactly when it had cut that rail and
      restoring it, which it always tries first, failed. */
  lemma ResumedOntoDownRail(plan: Plan, forward: seq<Call>, backward: seq<Call>, k: nat, d: nat)
    requires Transaction(plan, forward, backward)
    requires k < |backward| && backward[k].op == Undo(Consumer, d)
    ensures d in RailsDown(RailsDown({}, forward), backward[..k]) <==>
            Call(Do(Rail, d), true) in forward && Call(Undo(Rail, d), true) !in backward
    ensures Call(Do(Rail, d), true) in forward ==> Undo(Rail, d) in Ops(backward[..k])
  {
    var head, tail := SplitAtRails(plan, forward);
    ResumedLast(RailsDown({}, forward), backward, UndoOf(tail), UndoOf(head), k, d);
    ForwardUndoesNothing(plan, forward);
    DownOnceCut(forward, d);
    if Call(Do(Rail, d), true) in forward {
      assert Call(Do(Rail, d), true) in tail;
      var i :| 0 <= i < |tail| && tail[i] == Call(Do(Rail, d), true);
      DoneIsUndone(tail, i);
      var j :| 0 <= j < |UndoOf(tail)| && UndoOf(tail)[j] == Undo(Rail, d);
      assert Ops(backward[..k])[j] == Undo(Rail, d);
    }
  }

  // ---------------------------------------------------------------------------
  // What can be told before the calls.

  /** No transaction of the plan, whatever the hardware answers, resumes a consumer onto a dark rail. */
  ghost predicate NeverInTheDark(plan: Plan) {
    forall forward, backward, k, d :: Transaction(plan, forward, backward) && Resumes(backward, k, d) ==>
      d !in RailsDown(RailsDown({}, forward), backward[..k])
  }

  /** Nor does a recovery of what is owed. */
  ghost predicate NeverRecoversInTheDark(resume: set<nat>, rails: set<nat>, disarm: set<nat>) {
    forall calls, k, d :: Ops(calls) == UndoRecord(resume, rails, disarm) && Resumes(calls, k, d) ==>
      d !in RailsDown(rails, calls[..k])
  }

  predicate Resumes(calls: seq<Call>, k: nat, d: nat) {
    k < |calls| && calls[k].op == Undo(Consumer, d)
  }

  /** These operations, all of them done but the restoring of one rail. */
  function AllBut(ops: seq<Op>, d: nat): (calls: seq<Call>)
    ensures Ops(calls) == ops && Call(Undo(Rail, d), true) !in calls
    ensures forall i :: 0 <= i < |ops| && ops[i] != Undo(Rail, d) ==> calls[i] == Call(ops[i], true)
  {
    seq(|ops|, i requires 0 <= i < |ops| => Call(ops[i], ops[i] != Undo(Rail, d)))
  }

  lemma {:induction false} StepIsThere(step: Step, mask: set<nat>, n: nat, d: nat)
    requires d in mask && d < n
    ensures Do(step, d) in Steps(step, mask, n)
  {
    if d < n - 1 {
      StepIsThere(step, mask, n - 1, d);
    }
  }

  lemma {:induction false} UndoIsThere(step: Step, mask: set<nat>, n: nat, d: nat)
    requires d in mask && d < n
    ensures Undo(step, d) in UndoSteps(step, mask, n)
  {
    if d < n - 1 {
      UndoIsThere(step, mask, n - 1, d);
    }
  }

  lemma {:induction false} OnlyItsUndo(step: Step, mask: set<nat>, n: nat, op: Op)
    requires op in UndoSteps(step, mask, n)
    ensures op.Undo? && op.step == step && op.bit in mask && op.bit < n
  {
    if op !in UndoSteps(step, mask, n - 1) {
      assert op == Undo(step, n - 1);
    } else {
      OnlyItsUndo(step, mask, n - 1, op);
    }
  }

  lemma ProgramHas(plan: Plan, d: nat)
    requires d < DOMAIN_COUNT
    ensures d in plan.suspend ==> Do(Consumer, d) in Program(plan)
    ensures d in plan.railsOff ==> Do(Rail, d) in Program(plan)
  {
    if d in plan.suspend {
      StepIsThere(Consumer, plan.suspend, DOMAIN_COUNT, d);
    }
    if d in plan.railsOff {
      StepIsThere(Rail, plan.railsOff, DOMAIN_COUNT, d);
    }
  }

  /** A rail the program cuts is one of the plan's, and of the board's. */
  lemma CutRailIsPlanned(plan: Plan, forward: seq<Call>, d: nat)
    requires Forward(plan, forward) && Call(Do(Rail, d), true) in forward
    ensures d in plan.railsOff && d < DOMAIN_COUNT
  {
    assert Do(Rail, d) in Ops(forward) && Do(Rail, d) in Program(plan);
    if Do(Rail, d) in Steps(Consumer, plan.suspend, DOMAIN_COUNT) {
      StepsMember(Consumer, plan.suspend, DOMAIN_COUNT, Do(Rail, d));
    } else if Do(Rail, d) in Steps(Rail, plan.railsOff, DOMAIN_COUNT) {
      StepsMember(Rail, plan.railsOff, DOMAIN_COUNT, Do(Rail, d));
    } else {
      StepsMember(Wake, plan.wakeSources, SOURCE_COUNT, Do(Rail, d));
    }
  }

  /** It does happen, for every plan and each rail it cuts: all goes well, but the rail refuses to come
      back, and its consumer is resumed all the same. */
  lemma ResumedInTheDark(plan: Plan, d: nat) returns (forward: seq<Call>, backward: seq<Call>, k: nat)
    requires d in plan.railsOff && d in plan.suspend && d < DOMAIN_COUNT
    ensures Transaction(plan, forward, backward) && Resumes(backward, k, d)
    ensures d in RailsDown(RailsDown({}, forward), backward[..k])
  {
    forward := AllDoneOf(Program(plan));
    backward := AllBut(UndoOf(forward), d);
    ProgramHas(plan, d);
    var i :| 0 <= i < |Program(plan)| && Program(plan)[i] == Do(Consumer, d);
    var j :| 0 <= j < |Program(plan)| && Program(plan)[j] == Do(Rail, d);
    DoneIsUndone(forward, i);
    assert forward[j] == Call(Do(Rail, d), true);
    k :| 0 <= k < |UndoOf(forward)| && UndoOf(forward)[k] == Undo(Consumer, d);
    ResumedOntoDownRail(plan, forward, backward, k, d);
  }

  function AllDoneOf(ops: seq<Op>): (calls: seq<Call>)
    ensures Ops(calls) == ops && AllDone(calls) && forall i :: 0 <= i < |ops| ==> calls[i] == Call(ops[i], true)
  {
    seq(|ops|, i requires 0 <= i < |ops| => Call(ops[i], true))
  }

  /** So a caller can tell: a plan that suspends what it cuts never resumes in the dark exactly if it cuts
      no rail at all. */
  lemma NeverInTheDarkIffNothingCut(plan: Plan)
    requires plan.railsOff <= plan.suspend
    ensures NeverInTheDark(plan) <==> plan.railsOff * ALL_DOMAINS == {}
  {
    if d :| d in plan.railsOff * ALL_DOMAINS {
      var forward, backward, k := ResumedInTheDark(plan, d);
    }
    forall forward, backward, k, d | Transaction(plan, forward, backward) && Resumes(backward, k, d)
                                     && d in RailsDown(RailsDown({}, forward), backward[..k])
      ensures d in plan.railsOff * ALL_DOMAINS
    {
      ResumedOntoDownRail(plan, forward, backward, k, d);
      CutRailIsPlanned(plan, forward, d);
    }
  }

  lemma RecoveredInTheDark(resume: set<nat>, rails: set<nat>, disarm: set<nat>, d: nat)
    returns (calls: seq<Call>, k: nat)
    requires d in resume && d in rails && d < DOMAIN_COUNT
    ensures Ops(calls) == UndoRecord(resume, rails, disarm) && Resumes(calls, k, d) && d in RailsDown(rails, calls[..k])
  {
    var record := UndoRecord(resume, rails, disarm);
    calls := AllBut(record, d);
    UndoIsThere(Consumer, resume, DOMAIN_COUNT, d);
    assert Undo(Consumer, d) in record;
    k :| 0 <= k < |record| && record[k] == Undo(Consumer, d);
    RecoveryOntoDownRail(resume, rails, disarm, calls, k, d);
  }

  /** And what is owed never resumes in the dark exactly if no domain is owed both its rail and its
      consumer. */
  lemma NeverRecoversInTheDarkIffApart(resume: set<nat>, rails: set<nat>, disarm: set<nat>)
    ensures NeverRecoversInTheDark(resume, rails, disarm) <==> resume * rails * ALL_DOMAINS == {}
  {
    if d :| d in resume * rails * ALL_DOMAINS {
      var calls, k := RecoveredInTheDark(resume, rails, disarm, d);
    }
    forall calls, k, d | Ops(calls) == UndoRecord(resume, rails, disarm) && Resumes(calls, k, d)
      && d in RailsDown(rails, calls[..k])
      ensures d in resume * rails * ALL_DOMAINS
    {
      RecoveryOntoDownRail(resume, rails, disarm, calls, k, d);
      assert Undo(Consumer, d) in Ops(calls);
      OnlyConsumerOf(resume, rails, disarm, d);
    }
  }

  lemma OnlyConsumerOf(resume: set<nat>, rails: set<nat>, disarm: set<nat>, d: nat)
    requires Undo(Consumer, d) in UndoRecord(resume, rails, disarm)
    ensures d in resume && d < DOMAIN_COUNT
  {
    if Undo(Consumer, d) in UndoSteps(Wake, disarm, SOURCE_COUNT) {
      OnlyItsUndo(Wake, disarm, SOURCE_COUNT, Undo(Consumer, d));
    } else if Undo(Consumer, d) in UndoSteps(Rail, rails, DOMAIN_COUNT) {
      OnlyItsUndo(Rail, rails, DOMAIN_COUNT, Undo(Consumer, d));
    } else {
      OnlyItsUndo(Consumer, resume, DOMAIN_COUNT, Undo(Consumer, d));
    }
  }
}

/** What a sleep transaction may ask of the hardware, said without reference to how
    `PowerOwner::sleep` is written: a program derived from the plan, run forward up to its first
    failure, and then the recorded successes undone once each, last first. */
module PowerTrace {
  import opened PowerState

  datatype Step = Consumer | Rail | Wake

  datatype Op = Do(step: Step, bit: nat) | Undo(step: Step, bit: nat) | Enter(state: State)

  /** One call on the hardware and whether its postcondition was reported to hold. */
  datatype Call = Call(op: Op, done: bool)

  datatype Plan = Plan(state: State, wakeSources: Mask, suspend: Mask, railsOff: Mask)

  function Ops(calls: seq<Call>): (ops: seq<Op>)
    ensures |ops| == |calls|
    ensures forall i :: 0 <= i < |calls| ==> ops[i] == calls[i].op
  {
    seq(|calls|, i requires 0 <= i < |calls| => calls[i].op)
  }

  ghost predicate AllDone(calls: seq<Call>) {
    forall i :: 0 <= i < |calls| ==> calls[i].done
  }

  lemma AllDoneAppend(calls: seq<Call>, c: Call)
    ensures AllDone(calls + [c]) <==> AllDone(calls) && c.done
    ensures Ops(calls + [c]) == Ops(calls) + [c.op]
  {
    if AllDone(calls + [c]) {
      forall i | 0 <= i < |calls| ensures calls[i].done {
        assert (calls + [c])[i] == calls[i];
      }
      assert (calls + [c])[|calls|] == c;
    }
  }

  lemma AllDoneConcat(a: seq<Call>, b: seq<Call>)
    ensures AllDone(a + b) <==> AllDone(a) && AllDone(b)
  {
    if AllDone(a + b) {
      forall i | 0 <= i < |a| ensures a[i].done {
        assert (a + b)[i] == a[i];
      }
      forall i | 0 <= i < |b| ensures b[i].done {
        assert (a + b)[|a| + i] == b[i];
      }
    }
  }

  /** The steps for the bits of `mask` below `n`, lowest first. */
  function Steps(step: Step, mask: set<nat>, n: nat): seq<Op>
    decreases n, mask
  {
    if n == 0 then []
    else if n - 1 in mask then Steps(step, mask, n - 1) + [Do(step, n - 1)]
    else Steps(step, mask, n - 1)
  }

  /** The undo steps for the bits of `mask` below `n`, highest first. */
  function UndoSteps(step: Step, mask: set<nat>, n: nat): seq<Op>
    decreases n, mask
  {
    if n == 0 then []
    else if n - 1 in mask then [Undo(step, n - 1)] + UndoSteps(step, mask, n - 1)
    else UndoSteps(step, mask, n - 1)
  }

  function Program(plan: Plan): seq<Op> {
    Steps(Consumer, plan.suspend, DOMAIN_COUNT)
    + (Steps(Rail, plan.railsOff, DOMAIN_COUNT) + (Steps(Wake, plan.wakeSources, SOURCE_COUNT) + [Enter(plan.state)]))
  }

  /** The recorded successes undone once each, last first.  A failed step and the sleep itself
      leave nothing to undo. */
  function UndoOf(calls: seq<Call>): seq<Op> {
    if calls == [] then []
    else
      var last, rest := calls[|calls| - 1], UndoOf(calls[..|calls| - 1]);
      if last.done && last.op.Do? then [Undo(last.op.step, last.op.bit)] + rest else rest
  }

  /** A prefix of the program in which every step but possibly the last succeeded, and which
      stops early only at a failure. */
  ghost predicate Forward(plan: Plan, calls: seq<Call>) {
    && calls != [] && Ops(calls) <= Program(plan)
    && AllDone(calls[..|calls| - 1])
    && (|calls| < |Program(plan)| ==> !calls[|calls| - 1].done)
  }

  ghost predicate Transaction(plan: Plan, forward: seq<Call>, backward: seq<Call>) {
    Forward(plan, forward) && Ops(backward) == UndoOf(forward)
  }

  lemma {:induction false} UndoOfConcat(a: seq<Call>, b: seq<Call>)
    ensures UndoOf(a + b) == UndoOf(b) + UndoOf(a)
  {
    if b == [] {
      assert a + b == a;
    } else {
      var c := b[..|b| - 1];
      assert (a + b)[..|a + b| - 1] == a + c;
      UndoOfConcat(a, c);
    }
  }

  lemma OpsConcat(a: seq<Call>, b: seq<Call>)
    ensures Ops(a + b) == Ops(a) + Ops(b)
  {
  }

  lemma SameEnds<T>(a: seq<T>, x: T, b: seq<T>, y: T)
    requires a + [x] == b + [y]
    ensures a == b && x == y
  {
    assert a == (a + [x])[..|a|] && b == (b + [y])[..|b|];
    assert x == (a + [x])[|a|] && y == (b + [y])[|b|];
  }

  /** Undoing a phase that ran every step of `mask` below `n` is undoing `mask` from the top. */
  lemma {:induction false} UndoOfSteps(step: Step, mask: set<nat>, n: nat, calls: seq<Call>)
    requires AllDone(calls) && Ops(calls) == Steps(step, mask, n)
    ensures UndoOf(calls) == UndoSteps(step, mask, n)
  {
    if n == 0 {
    } else if n - 1 in mask {
      var c := LastStep(step, mask, n, calls);
      UndoOfSteps(step, mask, n - 1, c);
      UndoOfConcat(c, [Call(Do(step, n - 1), true)]);
      assert UndoOf([Call(Do(step, n - 1), true)]) == [Undo(step, n - 1)] + UndoOf([]);
    } else {
      UndoOfSteps(step, mask, n - 1, calls);
    }
  }

  lemma LastStep(step: Step, mask: set<nat>, n: nat, calls: seq<Call>) returns (c: seq<Call>)
    requires n != 0 && n - 1 in mask && AllDone(calls) && Ops(calls) == Steps(step, mask, n)
    ensures calls == c + [Call(Do(step, n - 1), true)] && AllDone(c) && Ops(c) == Steps(step, mask, n - 1)
  {
    var last := calls[|calls| - 1];
    c := calls[..|calls| - 1];
    assert calls == c + [last];
    AllDoneAppend(c, last);
    SameEnds(Ops(c), last.op, Steps(step, mask, n - 1), Do(step, n - 1));
  }

  /** A record that holds the bits of `mask` below `n` undoes the same steps, however far the
      unwind looks. */
  lemma {:induction false} UndoStepsOfRecord(step: Step, mask: set<nat>, n: nat, record: set<nat>, m: nat)
    requires n <= m
    requires forall b :: b in record <==> b in mask && b < n
    ensures UndoSteps(step, record, m) == UndoSteps(step, mask, n)
    decreases m
  {
    if n < m {
      UndoStepsOfRecord(step, mask, n, record, m - 1);
    } else if m != 0 {
      var lower := record - {m - 1};
      UndoStepsOfRecord(step, mask, n - 1, lower, m - 1);
      UndoStepsAgree(step, lower, record, m - 1);
    }
  }

  lemma {:induction false} UndoStepsAgree(step: Step, a: set<nat>, b: set<nat>, n: nat)
    requires forall i: nat :: i < n ==> (i in a <==> i in b)
    ensures UndoSteps(step, a, n) == UndoSteps(step, b, n)
  {
    if n != 0 {
      UndoStepsAgree(step, a, b, n - 1);
    }
  }

  lemma {:induction false} StepsMember(step: Step, mask: set<nat>, n: nat, op: Op)
    requires op in Steps(step, mask, n)
    ensures op.Do? && op.step == step && op.bit in mask && op.bit < n
  {
    if op !in Steps(step, mask, n - 1) {
      assert op == Do(step, n - 1);
    } else {
      StepsMember(step, mask, n - 1, op);
    }
  }

  lemma {:induction false} StepsPrefix(step: Step, mask: set<nat>, i: nat, n: nat)
    requires i <= n
    ensures Steps(step, mask, i) <= Steps(step, mask, n)
    ensures i < n && i in mask ==> Steps(step, mask, i) + [Do(step, i)] <= Steps(step, mask, n)
    decreases n
  {
    if i < n {
      StepsPrefix(step, mask, i, n - 1);
    }
  }

  /** What one forward phase did: all its steps, or a prefix that ends at the step that failed.
      `record` is what the phase wrote down as done. */
  ghost predicate Ran(step: Step, mask: set<nat>, n: nat, calls: seq<Call>, record: set<nat>, failed: bool) {
    if failed then exists j: nat :: j < n && FailedAt(step, mask, j, calls, record)
    else
      && AllDone(calls) && Ops(calls) == Steps(step, mask, n)
      && forall b :: b in record <==> b in mask && b < n
  }

  ghost predicate FailedAt(step: Step, mask: set<nat>, j: nat, calls: seq<Call>, record: set<nat>) {
    && j in mask && calls != [] && calls[|calls| - 1] == Call(Do(step, j), false)
    && AllDone(calls[..|calls| - 1]) && Ops(calls[..|calls| - 1]) == Steps(step, mask, j)
    && forall b :: b in record <==> b in mask && b < j
  }

  lemma RanUndo(step: Step, mask: set<nat>, n: nat, calls: seq<Call>, record: set<nat>, failed: bool)
    requires Ran(step, mask, n, calls, record, failed)
    ensures UndoOf(calls) == UndoSteps(step, record, n)
  {
    if failed {
      var j: nat :| j < n && FailedAt(step, mask, j, calls, record);
      UndoOfSteps(step, mask, j, calls[..|calls| - 1]);
      UndoStepsOfRecord(step, mask, j, record, n);
    } else {
      UndoOfSteps(step, mask, n, calls);
      UndoStepsOfRecord(step, mask, n, record, n);
    }
  }

  lemma RanPrefix(step: Step, mask: set<nat>, n: nat, calls: seq<Call>, record: set<nat>)
    requires Ran(step, mask, n, calls, record, true)
    ensures calls != [] && Ops(calls) <= Steps(step, mask, n)
    ensures AllDone(calls[..|calls| - 1]) && !calls[|calls| - 1].done && calls[|calls| - 1].op.Do?
    ensures calls[|calls| - 1].op.step == step && calls[|calls| - 1].op.bit in mask
  {
    var j: nat :| j < n && FailedAt(step, mask, j, calls, record);
    StepsPrefix(step, mask, j, n);
    assert Ops(calls) == Steps(step, mask, j) + [Do(step, j)];
  }

  /** A run that completed `head`, which is all of the program before `tail`, and then stopped
      at a failure inside `tail`. */
  lemma ForwardFromPhases(plan: Plan, head: seq<Call>, part: seq<Call>, before: seq<Op>, tail: seq<Op>)
    requires Program(plan) == before + tail && Ops(head) == before && AllDone(head)
    requires part != [] && Ops(part) <= tail && AllDone(part[..|part| - 1])
    requires |part| < |tail| ==> !part[|part| - 1].done
    ensures Forward(plan, head + part)
  {
    OpsConcat(head, part);
    assert (head + part)[..|head + part| - 1] == head + part[..|part| - 1];
  }

  /** A transaction takes down and brings back only what its plan names: no other consumer or
      rail is touched in either direction. */
  lemma TouchesOnlyThePlan(plan: Plan, forward: seq<Call>, backward: seq<Call>, c: Call)
    requires Transaction(plan, forward, backward)
    requires c in forward + backward && (c.op.Do? || c.op.Undo?) && c.op.step != Wake
    ensures c.op.bit in plan.suspend + plan.railsOff
  {
    assert Ops(forward) == Program(plan)[..|forward|];
    if c in forward {
      assert c.op in Ops(forward);
      ProgramMember(plan, c.op);
    } else {
      assert c.op in Ops(backward);
      var i := UndoneWasDone(forward, c.op);
      assert forward[i].op in Ops(forward);
      ProgramMember(plan, forward[i].op);
    }
  }

  lemma ProgramMember(plan: Plan, op: Op)
    requires op in Program(plan) && !op.Enter?
    ensures op.Do? && (op.step != Wake ==> op.bit in plan.suspend + plan.railsOff)
  {
    if op in Steps(Consumer, plan.suspend, DOMAIN_COUNT) {
      StepsMember(Consumer, plan.suspend, DOMAIN_COUNT, op);
    } else if op in Steps(Rail, plan.railsOff, DOMAIN_COUNT) {
      StepsMember(Rail, plan.railsOff, DOMAIN_COUNT, op);
    } else if op in Steps(Wake, plan.wakeSources, SOURCE_COUNT) {
      StepsMember(Wake, plan.wakeSources, SOURCE_COUNT, op);
    }
  }

  lemma {:induction false} UndoneWasDone(calls: seq<Call>, op: Op) returns (i: nat)
    requires op in UndoOf(calls)
    ensures i < |calls| && calls[i].done && op.Undo? && calls[i].op == Do(op.step, op.bit)
  {
    var last := |calls| - 1;
    if op in UndoOf(calls[..last]) {
      i := UndoneWasDone(calls[..last], op);
    } else {
      i := last;
    }
  }

  // ---------------------------------------------------------------------------
  // The four ways the forward part can end.

  function UndoRecord(suspended: set<nat>, cut: set<nat>, armed: set<nat>): seq<Op> {
    UndoSteps(Wake, armed, SOURCE_COUNT)
    + (UndoSteps(Rail, cut, DOMAIN_COUNT) + UndoSteps(Consumer, suspended, DOMAIN_COUNT))
  }

  lemma Associative<T>(a: seq<T>, b: seq<T>, c: seq<T>)
    ensures (a + b) + c == a + (b + c)
  {
  }

  lemma {:induction false} NothingRecorded(step: Step, n: nat)
    ensures UndoSteps(step, {}, n) == []
  {
    if n != 0 {
      NothingRecorded(step, n - 1);
    }
  }

  /** A phase that failed after `head` had run all of the program before it. */
  lemma StoppedIn(plan: Plan, head: seq<Call>, tail: seq<Op>, step: Step, mask: set<nat>, n: nat, part: seq<Call>,
                  record: set<nat>)
    requires AllDone(head) && Program(plan) == Ops(head) + tail && Steps(step, mask, n) <= tail
    requires Ran(step, mask, n, part, record, true)
    ensures Forward(plan, head + part)
    ensures UndoOf(head + part) == UndoSteps(step, record, n) + UndoOf(head)
  {
    RanPrefix(step, mask, n, part, record);
    RanUndo(step, mask, n, part, record, true);
    UndoOfConcat(head, part);
    ForwardFromPhases(plan, head, part, Ops(head), tail);
  }

  lemma StoppedInSuspend(plan: Plan, s: seq<Call>, suspended: set<nat>)
    requires Ran(Consumer, plan.suspend, DOMAIN_COUNT, s, suspended, true)
    ensures Forward(plan, s) && UndoOf(s) == UndoRecord(suspended, {}, {})
  {
    NothingRecorded(Rail, DOMAIN_COUNT);
    NothingRecorded(Wake, SOURCE_COUNT);
    assert Program(plan) == [] + Program(plan) && [] + s == s;
    StoppedIn(plan, [], Program(plan), Consumer, plan.suspend, DOMAIN_COUNT, s, suspended);
    assert UndoOf([]) == [];
  }

  lemma StoppedInRails(plan: Plan, s: seq<Call>, suspended: set<nat>, r: seq<Call>, cut: set<nat>)
    requires Ran(Consumer, plan.suspend, DOMAIN_COUNT, s, suspended, false)
    requires Ran(Rail, plan.railsOff, DOMAIN_COUNT, r, cut, true)
    ensures Forward(plan, s + r) && UndoOf(s + r) == UndoRecord(suspended, cut, {})
  {
    RanUndo(Consumer, plan.suspend, DOMAIN_COUNT, s, suspended, false);
    StoppedIn(plan, s, ProgramFromRails(plan), Rail, plan.railsOff, DOMAIN_COUNT, r, cut);
    NothingRecorded(Wake, SOURCE_COUNT);
  }

  lemma StoppedInWake(plan: Plan, s: seq<Call>, suspended: set<nat>, r: seq<Call>, cut: set<nat>, w: seq<Call>,
                      armed: set<nat>)
    requires Ran(Consumer, plan.suspend, DOMAIN_COUNT, s, suspended, false)
    requires Ran(Rail, plan.railsOff, DOMAIN_COUNT, r, cut, false)
    requires Ran(Wake, plan.wakeSources, SOURCE_COUNT, w, armed, true)
    ensures Forward(plan, s + r + w) && UndoOf(s + r + w) == UndoRecord(suspended, cut, armed)
  {
    CompletedHead(plan, s, suspended, r, cut);
    StoppedIn(plan, s + r, ProgramFromWake(plan), Wake, plan.wakeSources, SOURCE_COUNT, w, armed);
  }

  lemma Slept(plan: Plan, s: seq<Call>, suspended: set<nat>, r: seq<Call>, cut: set<nat>, w: seq<Call>, armed: set<nat>,
              ok: bool)
    requires Ran(Consumer, plan.suspend, DOMAIN_COUNT, s, suspended, false)
    requires Ran(Rail, plan.railsOff, DOMAIN_COUNT, r, cut, false)
    requires Ran(Wake, plan.wakeSources, SOURCE_COUNT, w, armed, false)
    ensures Forward(plan, s + r + w + [Call(Enter(plan.state), ok)])
    ensures UndoOf(s + r + w + [Call(Enter(plan.state), ok)]) == UndoRecord(suspended, cut, armed)
  {
    CompletedHead(plan, s, suspended, r, cut);
    CompletedWake(plan, s + r, w, armed);
    EnterAtTheEnd(plan, s + r + w, ok);
  }

  lemma CompletedWake(plan: Plan, head: seq<Call>, w: seq<Call>, armed: set<nat>)
    requires AllDone(head) && Program(plan) == Ops(head) + ProgramFromWake(plan)
    requires Ran(Wake, plan.wakeSources, SOURCE_COUNT, w, armed, false)
    ensures AllDone(head + w) && Program(plan) == Ops(head + w) + [Enter(plan.state)]
    ensures UndoOf(head + w) == UndoSteps(Wake, armed, SOURCE_COUNT) + UndoOf(head)
  {
    RanUndo(Wake, plan.wakeSources, SOURCE_COUNT, w, armed, false);
    UndoOfConcat(head, w);
    OpsConcat(head, w);
    Associative(Ops(head), Ops(w), [Enter(plan.state)]);
  }

  lemma EnterAtTheEnd(plan: Plan, head: seq<Call>, ok: bool)
    requires AllDone(head) && Program(plan) == Ops(head) + [Enter(plan.state)]
    ensures Forward(plan, head + [Call(Enter(plan.state), ok)])
    ensures UndoOf(head + [Call(Enter(plan.state), ok)]) == UndoOf(head)
  {
    var forward := head + [Call(Enter(plan.state), ok)];
    assert forward[..|forward| - 1] == head;
    AllDoneAppend(head, Call(Enter(plan.state), ok));
  }

  function ProgramFromWake(plan: Plan): seq<Op> {
    Steps(Wake, plan.wakeSources, SOURCE_COUNT) + [Enter(plan.state)]
  }

  function ProgramFromRails(plan: Plan): seq<Op> {
    Steps(Rail, plan.railsOff, DOMAIN_COUNT) + ProgramFromWake(plan)
  }

  lemma CompletedHead(plan: Plan, s: seq<Call>, suspended: set<nat>, r: seq<Call>, cut: set<nat>)
    requires Ran(Consumer, plan.suspend, DOMAIN_COUNT, s, suspended, false)
    requires Ran(Rail, plan.railsOff, DOMAIN_COUNT, r, cut, false)
    ensures AllDone(s + r) && Program(plan) == Ops(s + r) + ProgramFromWake(plan)
    ensures UndoOf(s + r) == UndoSteps(Rail, cut, DOMAIN_COUNT) + UndoSteps(Consumer, suspended, DOMAIN_COUNT)
  {
    RanUndo(Rail, plan.railsOff, DOMAIN_COUNT, r, cut, false);
    RanUndo(Consumer, plan.suspend, DOMAIN_COUNT, s, suspended, false);
    UndoOfConcat(s, r);
    OpsConcat(s, r);
    Associative(Ops(s), Ops(r), ProgramFromWake(plan));
  }
}

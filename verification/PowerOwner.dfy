/** The one owner of sleep, rails and wake sources: `PowerOwner` of core/src/power_owner.cpp,
    run against hardware that may fail any step. */
module PowerOwner {
  import opened PowerState
  import opened PowerTrace
  import opened PowerJournal
  import L = PowerLeases

  datatype WakeCauses = WakeCauses(fromSoc: Mask, derived: Mask, unmapped: nat)

  /** The adversary behind `PowerHardware`.  A step that reports success happened; `Unchanged`,
      and a rail cut that failed, changed nothing; `Unknown`, and an undo that failed, leave the
      one thing they were about in either state. */
  class PowerHardware {
    ghost var board: Sets
    ghost var calls: seq<Call>
    ghost var lastCauses: WakeCauses

    constructor ()
      ensures board == NONE && calls == []
    {
      board, calls, lastCauses := NONE, [], WakeCauses({}, {}, 0);
    }

    method Do(step: Step, b: nat, mayForget: bool) returns (r: StepResult)
      modifies `board, `calls
      ensures calls == old(calls) + [Call(Op.Do(step, b), r == Done)]
      ensures DoEffect(step, b, r, old(board), board) && (r == Unknown ==> mayForget)
    {
      r := *;
      if r == Unknown && !mayForget {
        r := Unchanged;
      }
      ghost var left: bool := *;
      if r == Done || (r == Unknown && left) {
        board := board.Put(step, board.Get(step) + {b});
      } else if r == Unknown {
        board := board.Put(step, board.Get(step) - {b});
      }
      calls := calls + [Call(Op.Do(step, b), r == Done)];
    }

    method Undo(step: Step, b: nat) returns (ok: bool)
      modifies `board, `calls
      ensures calls == old(calls) + [Call(Op.Undo(step, b), ok)]
      ensures UndoEffect(step, b, ok, old(board), board)
    {
      ok := *;
      ghost var left: bool := *;
      board := board.Put(step, if left && !ok then board.Get(step) + {b} else board.Get(step) - {b});
      calls := calls + [Call(Op.Undo(step, b), ok)];
    }

    method Suspend(d: Domain) returns (r: StepResult)
      modifies `board, `calls
      ensures calls == old(calls) + [Call(Op.Do(Consumer, d), r == Done)]
      ensures DoEffect(Consumer, d, r, old(board), board)
    {
      r := Do(Consumer, d, true);
    }

    method Resume(d: Domain) returns (ok: bool)
      modifies `board, `calls
      ensures calls == old(calls) + [Call(Op.Undo(Consumer, d), ok)]
      ensures UndoEffect(Consumer, d, ok, old(board), board)
    {
      ok := Undo(Consumer, d);
    }

    method SetRail(d: Domain, on: bool) returns (ok: bool)
      modifies `board, `calls
      ensures calls == old(calls) + [Call(if on then Op.Undo(Rail, d) else Op.Do(Rail, d), ok)]
      ensures on ==> UndoEffect(Rail, d, ok, old(board), board)
      ensures !on ==> DoEffect(Rail, d, if ok then Done else Unchanged, old(board), board)
    {
      if on {
        ok := Undo(Rail, d);
      } else {
        var r := Do(Rail, d, false);
        ok := r == Done;
      }
    }

    method ArmWake(w: Source) returns (r: StepResult)
      modifies `board, `calls
      ensures calls == old(calls) + [Call(Op.Do(Wake, w), r == Done)]
      ensures DoEffect(Wake, w, r, old(board), board)
    {
      r := Do(Wake, w, true);
    }

    method DisarmWake(w: Source) returns (ok: bool)
      modifies `board, `calls
      ensures calls == old(calls) + [Call(Op.Undo(Wake, w), ok)]
      ensures UndoEffect(Wake, w, ok, old(board), board)
    {
      ok := Undo(Wake, w);
    }

    method Sleep(state: State) returns (ok: bool, causes: WakeCauses)
      modifies this
      ensures calls == old(calls) + [Call(Enter(state), ok)] && board == old(board)
      ensures causes == lastCauses
    {
      ok := *;
      causes := *;
      lastCauses := causes;
      calls := calls + [Call(Enter(state), ok)];
    }
  }

  datatype SleepOutcome =
    | Woken | RefusedTransition | RefusedWakePlan | RefusedRailBeforeSuspend | RefusedLeaseHeld
    | RefusedHardwareFailed | FailedSuspend | FailedRail | FailedArm | FailedSleep

  datatype SleepReport = SleepReport(
    outcome: SleepOutcome, wakeCauses: Mask, overdueLeases: Mask, blockedBy: Mask, blockedSources: Mask,
    unexpectedCauses: Mask, unmappedCauses: nat, hardwareKnown: bool)
  {
    function Verdict(): PowerJournal.Verdict {
      PowerJournal.Verdict(hardwareKnown, blockedBy, blockedSources)
    }

    /** The same report with another verdict. */
    ghost predicate Amends(other: SleepReport) {
      this == other.(blockedBy := blockedBy, blockedSources := blockedSources, hardwareKnown := hardwareKnown)
    }
  }

  /** What the last forward call says about how a transaction went. */
  function OutcomeOf(last: Call): SleepOutcome {
    match last.op
    case Do(Consumer, _) => FailedSuspend
    case Do(Rail, _) => FailedRail
    case Do(Wake, _) => FailedArm
    case Enter(_) => if last.done then Woken else FailedSleep
    case Undo(_, _) => RefusedTransition
  }

  /** From `start` to `end` the hardware was asked for exactly a transaction of `plan`, and the
      report tells how it went and names whatever could not be put back. */
  ghost predicate Transacted(plan: Plan, start: World, end: World, forward: seq<Call>, backward: seq<Call>,
                             report: SleepReport) {
    && Transaction(plan, forward, backward) && end.calls == start.calls + forward + backward
    && Covered(end) && Honest(end.journal, report.Verdict())
    && var last := forward[|forward| - 1];
       && report.outcome == OutcomeOf(last)
       && (last.op.Do? ==> last.op.bit in if last.op.step == Wake then report.blockedSources else report.blockedBy)
  }

  /** The report after the unwind still names what stopped the forward part, and tells how it went. */
  lemma Reports(plan: Plan, start: World, middle: World, end: World, forward: seq<Call>, backward: seq<Call>,
                record: Sets, stopped: SleepReport, after: SleepReport)
    requires Ended(plan, start, middle, stopped.Verdict(), record, forward) && end.calls == middle.calls + backward
    requires Ops(backward) == UndoRecord(record.consumers, record.rails, record.sources)
             && Settled(end, after.Verdict())
    requires after.outcome == OutcomeOf(forward[|forward| - 1])
    requires stopped.blockedBy <= after.blockedBy && stopped.blockedSources <= after.blockedSources
    requires var last := forward[|forward| - 1];
             last.op.Do? ==> stopped.Verdict() == FailedVerdict(last.op.step, last.op.bit, !stopped.hardwareKnown)
    ensures Transacted(plan, start, end, forward, backward, after)
  {
    Concludes(plan, start, middle, end, forward, backward, record, stopped.Verdict(), after.Verdict());
  }

  /** What a sleep that was entered adds to its report. */
  function Wakes(report: SleepReport, causes: WakeCauses, armed: Mask, slept: bool): SleepReport {
    report.(wakeCauses := causes.fromSoc + causes.derived, unexpectedCauses := causes.fromSoc - armed,
            unmappedCauses := causes.unmapped, outcome := if slept then Woken else FailedSleep)
  }

  lemma ArmedAsPlanned(mask: Mask, ran: seq<Call>, armed: Mask)
    requires Ran(Wake, mask, SOURCE_COUNT, ran, armed, false)
    ensures armed == mask * ALL_SOURCES
  {
    forall b ensures b in armed <==> b in mask * ALL_SOURCES {
    }
  }

  const BLANK := SleepReport(RefusedTransition, {}, {}, {}, {}, {}, 0, true)

  class PowerOwner {
    const hw: PowerHardware
    const leases: L.LeaseTable
    var state: State
    var cycles: nat
    var hardwareKnown: bool
    var failedResume: Mask
    var failedRail: Mask
    var failedDisarm: Mask

    ghost function Now(): World
      reads hw, `failedResume, `failedRail, `failedDisarm
    {
      World(hw.board, hw.calls, Sets(failedResume, failedRail, failedDisarm))
    }

    constructor (hardware: PowerHardware, budget: nat)
      requires hardware.board == NONE
      ensures hw == hardware && hardwareKnown && state == Active && Now() == World(NONE, hardware.calls, NONE)
      ensures leases.Valid() && leases.live == map[] && fresh(leases)
    {
      hw := hardware;
      leases := new L.LeaseTable(budget);
      state, cycles, hardwareKnown := Active, 0, true;
      failedResume, failedRail, failedDisarm := {}, {}, {};
    }

    method UnwindSuspend(suspended: Mask, report: SleepReport) returns (after: SleepReport, ghost ran: seq<Call>)
      requires Honest(Now().journal, report.Verdict()) && JournalWithin(Now().journal)
               && Within(suspended, DOMAIN_COUNT)
      requires hw.board.consumers <= failedResume + suspended
      modifies `failedResume, hw`board, hw`calls
      ensures Unwound(Consumer, suspended, old(Now()), report.Verdict(), Now(), after.Verdict(), ran)
      ensures after.Amends(report)
    {
      after, ran := report, [];
      ghost var start := Now();
      UnwindStart(Consumer, suspended, start, report.Verdict());
      for i := DOMAIN_COUNT downto 0
        invariant Unwinding(Consumer, suspended, i, start, report.Verdict(), Now(), after.Verdict(), ran)
        invariant after.Amends(report)
      {
        if i !in suspended {
          UnwindSkip(Consumer, suspended, i, start, report.Verdict(), Now(), after.Verdict(), ran);
          continue;
        }
        ghost var w := Now();
        var ok := hw.Resume(i);
        UnwindOne(Consumer, suspended, i, start, report.Verdict(), w, after.Verdict(), ran, ok, hw.board);
        ran := ran + [Call(Undo(Consumer, i), ok)];
        if !ok {
          after := after.(hardwareKnown := false, blockedBy := after.blockedBy + {i});
          failedResume := failedResume + {i};
        }
      }
      UnwindEnd(Consumer, suspended, start, report.Verdict(), Now(), after.Verdict(), ran);
    }

    method UnwindRails(cut: Mask, report: SleepReport) returns (after: SleepReport, ghost ran: seq<Call>)
      requires Honest(Now().journal, report.Verdict()) && JournalWithin(Now().journal) && Within(cut, DOMAIN_COUNT)
      requires hw.board.rails <= failedRail + cut
      modifies `failedRail, hw`board, hw`calls
      ensures Unwound(Rail, cut, old(Now()), report.Verdict(), Now(), after.Verdict(), ran)
      ensures after.Amends(report)
    {
      after, ran := report, [];
      ghost var start := Now();
      UnwindStart(Rail, cut, start, report.Verdict());
      for i := DOMAIN_COUNT downto 0
        invariant Unwinding(Rail, cut, i, start, report.Verdict(), Now(), after.Verdict(), ran)
        invariant after.Amends(report)
      {
        if i !in cut {
          UnwindSkip(Rail, cut, i, start, report.Verdict(), Now(), after.Verdict(), ran);
          continue;
        }
        ghost var w := Now();
        var ok := hw.SetRail(i, true);
        UnwindOne(Rail, cut, i, start, report.Verdict(), w, after.Verdict(), ran, ok, hw.board);
        ran := ran + [Call(Undo(Rail, i), ok)];
        if !ok {
          after := after.(hardwareKnown := false, blockedBy := after.blockedBy + {i});
          failedRail := failedRail + {i};
        }
      }
      UnwindEnd(Rail, cut, start, report.Verdict(), Now(), after.Verdict(), ran);
    }

    method UnwindWake(armed: Mask, report: SleepReport) returns (after: SleepReport, ghost ran: seq<Call>)
      requires Honest(Now().journal, report.Verdict()) && JournalWithin(Now().journal) && Within(armed, SOURCE_COUNT)
      requires hw.board.sources <= failedDisarm + armed
      modifies `failedDisarm, hw`board, hw`calls
      ensures Unwound(Wake, armed, old(Now()), report.Verdict(), Now(), after.Verdict(), ran)
      ensures after.Amends(report)
    {
      after, ran := report, [];
      ghost var start := Now();
      UnwindStart(Wake, armed, start, report.Verdict());
      for i := SOURCE_COUNT downto 0
        invariant Unwinding(Wake, armed, i, start, report.Verdict(), Now(), after.Verdict(), ran)
        invariant after.Amends(report)
      {
        if i !in armed {
          UnwindSkip(Wake, armed, i, start, report.Verdict(), Now(), after.Verdict(), ran);
          continue;
        }
        ghost var w := Now();
        var ok := hw.DisarmWake(i);
        UnwindOne(Wake, armed, i, start, report.Verdict(), w, after.Verdict(), ran, ok, hw.board);
        ran := ran + [Call(Undo(Wake, i), ok)];
        if !ok {
          after := after.(hardwareKnown := false, blockedSources := after.blockedSources + {i});
          failedDisarm := failedDisarm + {i};
        }
      }
      UnwindEnd(Wake, armed, start, report.Verdict(), Now(), after.Verdict(), ran);
    }

    // --- retrying what an earlier transaction could not undo ---

    method RetryDisarms() returns (ghost ran: seq<Call>)
      requires hw.board.sources <= failedDisarm && Within(failedDisarm, SOURCE_COUNT)
      modifies `failedDisarm, hw`board, hw`calls
      ensures Retried(Wake, old(Now()), Now(), ran)
    {
      ran := [];
      ghost var start := Now();
      RetryStart(Wake, start);
      for i := SOURCE_COUNT downto 0
        invariant Retrying(Wake, i, start, Now(), ran)
      {
        if i !in failedDisarm {
          RetrySkip(Wake, i, start, Now(), ran);
          continue;
        }
        ghost var w := Now();
        var ok := hw.DisarmWake(i);
        RetryOne(Wake, i, start, w, ran, ok, hw.board);
        ran := ran + [Call(Undo(Wake, i), ok)];
        if ok {
          failedDisarm := failedDisarm - {i};
        }
      }
      RetryEnd(Wake, start, Now(), ran);
    }

    method RetryRails() returns (ghost ran: seq<Call>)
      requires hw.board.rails <= failedRail && Within(failedRail, DOMAIN_COUNT)
      modifies `failedRail, hw`board, hw`calls
      ensures Retried(Rail, old(Now()), Now(), ran)
    {
      ran := [];
      ghost var start := Now();
      RetryStart(Rail, start);
      for i := DOMAIN_COUNT downto 0
        invariant Retrying(Rail, i, start, Now(), ran)
      {
        if i !in failedRail {
          RetrySkip(Rail, i, start, Now(), ran);
          continue;
        }
        ghost var w := Now();
        var ok := hw.SetRail(i, true);
        RetryOne(Rail, i, start, w, ran, ok, hw.board);
        ran := ran + [Call(Undo(Rail, i), ok)];
        if ok {
          failedRail := failedRail - {i};
        }
      }
      RetryEnd(Rail, start, Now(), ran);
    }

    method RetryResumes() returns (ghost ran: seq<Call>)
      requires hw.board.consumers <= failedResume && Within(failedResume, DOMAIN_COUNT)
      modifies `failedResume, hw`board, hw`calls
      ensures Retried(Consumer, old(Now()), Now(), ran)
    {
      ran := [];
      ghost var start := Now();
      RetryStart(Consumer, start);
      for i := DOMAIN_COUNT downto 0
        invariant Retrying(Consumer, i, start, Now(), ran)
      {
        if i !in failedResume {
          RetrySkip(Consumer, i, start, Now(), ran);
          continue;
        }
        ghost var w := Now();
        var ok := hw.Resume(i);
        RetryOne(Consumer, i, start, w, ran, ok, hw.board);
        ran := ran + [Call(Undo(Consumer, i), ok)];
        if ok {
          failedResume := failedResume - {i};
        }
      }
      RetryEnd(Consumer, start, Now(), ran);
    }

    // --- the forward phases ---

    method SuspendConsumers(mask: Mask, report: SleepReport)
      returns (suspended: Mask, failed: bool, after: SleepReport, ghost ran: seq<Call>, ghost unknown: bool)
      requires report.hardwareKnown
      modifies `failedResume, hw`board, hw`calls
      ensures Phase(Consumer, mask, old(Now()), Now(), suspended, ran, failed, unknown)
      ensures !failed ==> after == report && !unknown
      ensures failed ==> ran != [] && ran[|ran| - 1].op.bit < DOMAIN_COUNT
      ensures failed ==>
                after == report.(outcome := FailedSuspend, blockedBy := {ran[|ran| - 1].op.bit},
                                 hardwareKnown := !unknown)
    {
      suspended, after, ran, unknown := {}, report, [], false;
      ghost var start := Now();
      ForwardStart(Consumer, mask, start);
      for i := 0 to DOMAIN_COUNT
        invariant Forwarding(Consumer, mask, i, start, Now(), suspended, ran)
        invariant after == report
      {
        if i !in mask {
          ForwardSkip(Consumer, mask, i, start, Now(), suspended, ran);
          continue;
        }
        ghost var w := Now();
        var r := hw.Suspend(i);
        if r != Done {
          ForwardFail(Consumer, mask, i, start, w, suspended, ran, r, hw.board);
          if r == Unknown {
            failedResume := failedResume + {i};
          }
          return suspended, true, report.(outcome := FailedSuspend, blockedBy := {i}, hardwareKnown := r != Unknown),
            ran + [Call(Do(Consumer, i), false)], r == Unknown;
        }
        ForwardDone(Consumer, mask, i, start, w, suspended, ran, hw.board);
        suspended, ran := suspended + {i}, ran + [Call(Do(Consumer, i), true)];
      }
      ForwardEnd(Consumer, mask, start, Now(), suspended, ran);
      failed := false;
    }

    method CutRails(mask: Mask, report: SleepReport)
      returns (cut: Mask, failed: bool, after: SleepReport, ghost ran: seq<Call>)
      modifies hw`board, hw`calls
      ensures Phase(Rail, mask, old(Now()), Now(), cut, ran, failed, false)
      ensures !failed ==> after == report
      ensures failed ==> ran != [] && ran[|ran| - 1].op.bit < DOMAIN_COUNT
      ensures failed ==> after == report.(outcome := FailedRail, blockedBy := {ran[|ran| - 1].op.bit})
    {
      cut, after, ran := {}, report, [];
      ghost var start := Now();
      ForwardStart(Rail, mask, start);
      for i := 0 to DOMAIN_COUNT
        invariant Forwarding(Rail, mask, i, start, Now(), cut, ran)
        invariant after == report
      {
        if i !in mask {
          ForwardSkip(Rail, mask, i, start, Now(), cut, ran);
          continue;
        }
        ghost var w := Now();
        var ok := hw.SetRail(i, false);
        if !ok {
          ForwardFail(Rail, mask, i, start, w, cut, ran, Unchanged, hw.board);
          ran := ran + [Call(Do(Rail, i), false)];
          after := report.(outcome := FailedRail, blockedBy := {i});
          return cut, true, after, ran;
        }
        ForwardDone(Rail, mask, i, start, w, cut, ran, hw.board);
        cut, ran := cut + {i}, ran + [Call(Do(Rail, i), true)];
      }
      ForwardEnd(Rail, mask, start, Now(), cut, ran);
      failed := false;
    }

    method ArmSources(mask: Mask, report: SleepReport)
      returns (armed: Mask, failed: bool, after: SleepReport, ghost ran: seq<Call>, ghost unknown: bool)
      requires report.hardwareKnown
      modifies `failedDisarm, hw`board, hw`calls
      ensures Phase(Wake, mask, old(Now()), Now(), armed, ran, failed, unknown)
      ensures !failed ==> after == report && !unknown
      ensures failed ==> ran != [] && ran[|ran| - 1].op.bit < SOURCE_COUNT
      ensures failed ==>
                after == report.(outcome := FailedArm, blockedSources := {ran[|ran| - 1].op.bit},
                                 hardwareKnown := !unknown)
    {
      armed, after, ran, unknown := {}, report, [], false;
      ghost var start := Now();
      ForwardStart(Wake, mask, start);
      for i := 0 to SOURCE_COUNT
        invariant Forwarding(Wake, mask, i, start, Now(), armed, ran)
        invariant after == report
      {
        if i !in mask {
          ForwardSkip(Wake, mask, i, start, Now(), armed, ran);
          continue;
        }
        ghost var w := Now();
        var r := hw.ArmWake(i);
        if r != Done {
          ForwardFail(Wake, mask, i, start, w, armed, ran, r, hw.board);
          if r == Unknown {
            failedDisarm := failedDisarm + {i};
          }
          return armed, true, report.(outcome := FailedArm, blockedSources := {i}, hardwareKnown := r != Unknown),
            ran + [Call(Do(Wake, i), false)], r == Unknown;
        }
        ForwardDone(Wake, mask, i, start, w, armed, ran, hw.board);
        armed, ran := armed + {i}, ran + [Call(Do(Wake, i), true)];
      }
      ForwardEnd(Wake, mask, start, Now(), armed, ran);
      failed := false;
    }

    // --- the transaction ---

    ghost predicate Valid()
      reads this, hw, leases
    {
      && leases.Valid() && Covered(Now())
      && (hardwareKnown <==> Now().journal == NONE)
      && (hardwareKnown ==> state == Active)
    }

    method Recover(report: SleepReport) returns (ok: bool, after: SleepReport, ghost ran: seq<Call>)
      requires Covered(Now())
      modifies `failedResume, `failedRail, `failedDisarm, `hardwareKnown, `state, hw`board, hw`calls
      ensures hw.calls == old(hw.calls) + ran && Covered(Now())
      ensures Ops(ran) == UndoRecord(old(failedResume), old(failedRail), old(failedDisarm))
      ensures ok == AllDone(ran) == (Now().journal == NONE)
      ensures ok ==> Clean(Now()) && hardwareKnown && state == Active && after == report
      ensures !ok ==> hardwareKnown == old(hardwareKnown) && state == old(state)
      ensures !ok ==> after == report.(blockedBy := failedRail + failedResume, blockedSources := failedDisarm)
    {
      ghost var w0 := Now();
      ghost var d := RetryDisarms();
      ghost var w1 := Now();
      ghost var r := RetryRails();
      ghost var w2 := Now();
      ghost var c := RetryResumes();
      RetryAll(w0, w1, w2, Now(), d, r, c);
      ran := d + (r + c);
      if failedDisarm + failedRail + failedResume != {} {
        return false, report.(blockedBy := failedRail + failedResume, blockedSources := failedDisarm), ran;
      }
      hardwareKnown := true;
      state := Active;
      return true, report, ran;
    }

    method UnwindRailsThenSuspend(suspended: Mask, cut: Mask, report: SleepReport)
      returns (after: SleepReport, ghost ran: seq<Call>)
      requires Owing(Now(), report.Verdict(), Sets(suspended, cut, {}))
      modifies `failedResume, `failedRail, hw`board, hw`calls
      ensures Settled(Now(), after.Verdict()) && after.Amends(report)
      ensures report.blockedBy <= after.blockedBy && report.blockedSources <= after.blockedSources
      ensures hw.calls == old(hw.calls) + ran
      ensures Ops(ran) == UndoSteps(Rail, cut, DOMAIN_COUNT) + UndoSteps(Consumer, suspended, DOMAIN_COUNT)
      ensures Ops(ran) == UndoRecord(suspended, cut, {})
    {
      NothingRecorded(Wake, SOURCE_COUNT);
      ghost var w0, r, c := Now(), [], [];
      after, r := UnwindRails(cut, report);
      UnwoundSettles(Rail, w0, report.Verdict(), Now(), after.Verdict(), r, Sets(suspended, cut, {}));
      ghost var w1, v1 := Now(), after.Verdict();
      after, c := UnwindSuspend(suspended, after);
      UnwoundSettles(Consumer, w1, v1, Now(), after.Verdict(), c, Sets(suspended, {}, {}));
      ran := r + c;
      OpsConcat(r, c);
      Associative(w0.calls, r, c);
    }

    method UnwindAll(suspended: Mask, cut: Mask, armed: Mask, report: SleepReport)
      returns (after: SleepReport, ghost ran: seq<Call>)
      requires Owing(Now(), report.Verdict(), Sets(suspended, cut, armed))
      modifies `failedResume, `failedRail, `failedDisarm, hw`board, hw`calls
      ensures Settled(Now(), after.Verdict()) && after.Amends(report)
      ensures report.blockedBy <= after.blockedBy && report.blockedSources <= after.blockedSources
      ensures hw.calls == old(hw.calls) + ran && Ops(ran) == UndoRecord(suspended, cut, armed)
    {
      ghost var w0, a, rest := Now(), [], [];
      after, a := UnwindWake(armed, report);
      UnwoundSettles(Wake, w0, report.Verdict(), Now(), after.Verdict(), a, Sets(suspended, cut, armed));
      after, rest := UnwindRailsThenSuspend(suspended, cut, after);
      ran := a + rest;
      OpsConcat(a, rest);
      Associative(w0.calls, a, rest);
    }

    /** Every cause of a wake is reported on both paths, and one the plan did not arm is unexpected. */
    ghost predicate CausesReported(plan: Plan, before: SleepReport, after: SleepReport)
      reads hw
    {
      && after.overdueLeases == before.overdueLeases
      && (after.outcome in {Woken, FailedSleep} ==>
            && after.wakeCauses == hw.lastCauses.fromSoc + hw.lastCauses.derived
            && after.unexpectedCauses == hw.lastCauses.fromSoc - (plan.wakeSources * ALL_SOURCES)
            && after.unmappedCauses == hw.lastCauses.unmapped)
    }

    /** The part of `sleep` that touches the hardware, from a board that is known. */
    method Transact(plan: Plan, report: SleepReport)
      returns (after: SleepReport, ghost forward: seq<Call>, ghost backward: seq<Call>)
      requires Clean(Now()) && report.Verdict() == KNOWN && hardwareKnown && state == Active
      modifies `state, `cycles, `hardwareKnown, `failedResume, `failedRail, `failedDisarm, hw
      ensures Transacted(plan, old(Now()), Now(), forward, backward, after)
      ensures hardwareKnown == after.hardwareKnown && (hardwareKnown ==> state == Active)
      ensures CausesReported(plan, report, after)
    {
      ghost var start, s, unknown := Now(), [], false;
      var suspended, failed;
      suspended, failed, after, s, unknown := SuspendConsumers(plan.suspend, report);
      ghost var w1 := Now();
      if failed {
        EndedInSuspend(plan, start, w1, suspended, s, unknown);
        ghost var stopped := after;
        forward := s;
        after, backward := UnwindSuspendOnly(suspended, after);
        Reports(plan, start, w1, Now(), forward, backward, Sets(suspended, {}, {}), stopped, after);
        hardwareKnown := after.hardwareKnown;
        return;
      }
      state := Idle;
      NowSuspended(plan, start, w1, suspended, s);
      after, forward, backward := TransactRails(plan, report, start, suspended, s);
    }

    method UnwindSuspendOnly(suspended: Mask, report: SleepReport) returns (after: SleepReport, ghost ran: seq<Call>)
      requires Owing(Now(), report.Verdict(), Sets(suspended, {}, {}))
      modifies `failedResume, hw`board, hw`calls
      ensures Settled(Now(), after.Verdict()) && after.Amends(report)
      ensures report.blockedBy <= after.blockedBy && report.blockedSources <= after.blockedSources
      ensures hw.calls == old(hw.calls) + ran && Ops(ran) == UndoRecord(suspended, {}, {})
    {
      ghost var w0 := Now();
      after, ran := UnwindSuspend(suspended, report);
      UnwoundSettles(Consumer, w0, report.Verdict(), Now(), after.Verdict(), ran, Sets(suspended, {}, {}));
      NothingRecorded(Rail, DOMAIN_COUNT);
      NothingRecorded(Wake, SOURCE_COUNT);
    }

    method TransactRails(plan: Plan, report: SleepReport, ghost start: World, suspended: Mask, ghost s: seq<Call>)
      returns (after: SleepReport, ghost forward: seq<Call>, ghost backward: seq<Call>)
      requires Suspended(plan, start, Now(), suspended, s) && report.Verdict() == KNOWN
      modifies `state, `cycles, `hardwareKnown, `failedResume, `failedRail, `failedDisarm, hw
      ensures Transacted(plan, start, Now(), forward, backward, after)
      ensures hardwareKnown == after.hardwareKnown && (hardwareKnown ==> state == Active)
      ensures CausesReported(plan, report, after)
    {
      ghost var w1, r := Now(), [];
      var cut, failed;
      cut, failed, after, r := CutRails(plan.railsOff, report);
      ghost var w2 := Now();
      if failed {
        EndedInRails(plan, start, w1, w2, suspended, s, cut, r);
        ghost var stopped := after;
        forward := s + r;
        after, backward := UnwindRailsThenSuspend(suspended, cut, after);
        Reports(plan, start, w2, Now(), forward, backward, Sets(suspended, cut, {}), stopped, after);
        state := if after.hardwareKnown then Active else state;
        hardwareKnown := after.hardwareKnown;
        return;
      }
      NowCut(plan, start, w1, w2, suspended, s, cut, r);
      after, forward, backward := TransactWake(plan, report, start, suspended, s, cut, r);
    }

    method TransactWake(plan: Plan, report: SleepReport, ghost start: World, suspended: Mask, ghost s: seq<Call>,
                        cut: Mask, ghost r: seq<Call>)
      returns (after: SleepReport, ghost forward: seq<Call>, ghost backward: seq<Call>)
      requires Cut(plan, start, Now(), suspended, s, cut, r) && report.Verdict() == KNOWN
      modifies `state, `cycles, `hardwareKnown, `failedResume, `failedRail, `failedDisarm, hw
      ensures Transacted(plan, start, Now(), forward, backward, after)
      ensures hardwareKnown == after.hardwareKnown && (hardwareKnown ==> state == Active)
      ensures CausesReported(plan, report, after)
    {
      ghost var w2, a, unknown := Now(), [], false;
      var armed, failed;
      armed, failed, after, a, unknown := ArmSources(plan.wakeSources, report);
      ghost var w3 := Now();
      if failed {
        EndedInWake(plan, start, w2, w3, suspended, s, cut, r, armed, a, unknown);
        ghost var stopped := after;
        forward := s + r + a;
        after, backward := UnwindAll(suspended, cut, armed, after);
        Reports(plan, start, w3, Now(), forward, backward, Sets(suspended, cut, armed), stopped, after);
        state := if after.hardwareKnown then Active else state;
        hardwareKnown := after.hardwareKnown;
        return;
      }
      ArmedAsPlanned(plan.wakeSources, a, armed);
      after, forward, backward := SleepAndUnwind(plan, report, start, w2, suspended, s, cut, r, armed, a);
    }

    method SleepAndUnwind(plan: Plan, report: SleepReport, ghost start: World, ghost w2: World,
                          suspended: Mask, ghost s: seq<Call>, cut: Mask, ghost r: seq<Call>, armed: Mask,
                          ghost a: seq<Call>)
      returns (after: SleepReport, ghost forward: seq<Call>, ghost backward: seq<Call>)
      requires Cut(plan, start, w2, suspended, s, cut, r) && report.Verdict() == KNOWN
      requires Phase(Wake, plan.wakeSources, w2, Now(), armed, a, false, false)
               && armed == plan.wakeSources * ALL_SOURCES
      modifies `state, `cycles, `hardwareKnown, `failedResume, `failedRail, `failedDisarm, hw
      ensures Transacted(plan, start, Now(), forward, backward, after)
      ensures hardwareKnown == after.hardwareKnown && (hardwareKnown ==> state == Active)
      ensures CausesReported(plan, report, after)
    {
      ghost var w3 := Now();
      state := plan.state;
      var slept, causes := hw.Sleep(plan.state);
      state := Idle;
      EndedInSleep(plan, start, w2, w3, Now(), suspended, s, cut, r, armed, a, slept);
      forward := s + r + a + [Call(Enter(plan.state), slept)];
      after, backward := UnwindAfterSleep(plan, report, start, suspended, cut, armed, slept, causes, forward);
      if slept {
        cycles := (cycles + 1) % 0x1_0000_0000;
      }
    }

    /** The unwind is the same whether or not the sleep was entered. */
    method UnwindAfterSleep(plan: Plan, report: SleepReport, ghost start: World, suspended: Mask, cut: Mask,
                            armed: Mask, slept: bool, causes: WakeCauses, ghost forward: seq<Call>)
      returns (after: SleepReport, ghost backward: seq<Call>)
      requires Ended(plan, start, Now(), KNOWN, Sets(suspended, cut, armed), forward) && report.Verdict() == KNOWN
      requires forward[|forward| - 1] == Call(Enter(plan.state), slept)
      modifies `state, `hardwareKnown, `failedResume, `failedRail, `failedDisarm, hw`board, hw`calls
      ensures Transacted(plan, start, Now(), forward, backward, after)
      ensures hardwareKnown == after.hardwareKnown && (hardwareKnown ==> state == Active)
      ensures after.Amends(Wakes(report, causes, armed, slept))
    {
      ghost var middle := Now();
      after, backward := UnwindAll(suspended, cut, armed, report);
      hardwareKnown := after.hardwareKnown;
      if after.hardwareKnown {
        state := Active;
      }
      after := Wakes(after, causes, armed, slept);
      Reports(plan, start, middle, Now(), forward, backward, Sets(suspended, cut, armed), report, after);
    }

    /** The four checks between a known board and the first step, in order. */
    method Validate(plan: Plan, held: Mask, report: SleepReport) returns (ok: bool, after: SleepReport)
      requires state == Active
      ensures ok == Runnable(plan, held)
      ensures after == if ok then report else Refused(plan, held, report)
    {
      var restable := plan.state == LightSleep || plan.state == MeshListenSleep;
      if !restable || !TransitionIsLegal(state, Idle) || !TransitionIsLegal(Idle, plan.state) {
        return false, report.(outcome := RefusedTransition);
      }
      MasksAreExact(plan.state, plan.wakeSources);
      if !WakePlanIsLegal(plan.state, plan.wakeSources) {
        return false, report.(outcome := RefusedWakePlan,
                              blockedSources := plan.wakeSources - LegalWakeSources(plan.state));
      }
      if plan.railsOff - plan.suspend != {} {
        return false, report.(outcome := RefusedRailBeforeSuspend, blockedBy := plan.railsOff - plan.suspend);
      }
      EmptyDifference(plan.railsOff, plan.suspend);
      var blocked := held * (plan.suspend + plan.railsOff);
      if blocked != {} {
        return false, report.(outcome := RefusedLeaseHeld, blockedBy := blocked);
      }
      return true, report;
    }

    /** One sleep.  A board that is not known is retried first; a plan that may not run touches
        nothing; and otherwise the calls are exactly one transaction.  `Valid` is what every run
        of sleeps keeps, whatever the hardware answers. */
    method Sleep(plan: Plan, now: nat)
      returns (report: SleepReport, ghost recovery: seq<Call>, ghost forward: seq<Call>, ghost backward: seq<Call>)
      requires Valid()
      modifies `state, `cycles, `hardwareKnown, `failedResume, `failedRail, `failedDisarm, hw
      ensures Valid() && report.hardwareKnown == hardwareKnown
      ensures failedResume + failedRail <= report.blockedBy && failedDisarm <= report.blockedSources
      ensures hw.calls == old(hw.calls) + recovery + forward + backward
      ensures Ops(recovery) == if old(hardwareKnown) then []
                               else UndoRecord(old(failedResume), old(failedRail), old(failedDisarm))
      ensures !AllDone(recovery) ==> report.outcome == RefusedHardwareFailed
      ensures !AllDone(recovery) || !Runnable(plan, L.HeldSet(leases.live)) ==> forward == [] && backward == []
      ensures AllDone(recovery) && !Runnable(plan, L.HeldSet(leases.live)) ==>
                report == Refused(plan, L.HeldSet(leases.live), BLANK.(overdueLeases := report.overdueLeases))
      ensures AllDone(recovery) && Runnable(plan, L.HeldSet(leases.live)) ==>
                Transaction(plan, forward, backward) && report.outcome == OutcomeOf(forward[|forward| - 1])
      ensures AllDone(recovery) && RestsLightly(plan, leases.live) ==> Transaction(plan, forward, backward)
      ensures CausesReported(plan, BLANK.(overdueLeases := report.overdueLeases), report)
      ensures forall d :: d in report.overdueLeases <==>
                exists k :: L.Overdue(leases.live, now, k) && d in leases.live[k].domains
    {
      recovery, forward, backward := [], [], [];
      var overdue := leases.OverdueDomains(now);
      report := BLANK.(overdueLeases := overdue);
      var known;
      known, report, recovery := RecoverFirst(report);
      if !known {
        return;
      }
      report, forward, backward := SleepFromKnown(plan, report);
      LightSleepRuns(plan, leases.live);
    }

    /** A sleep retries the journal before anything else, and gives up where some of it is still owed. */
    method RecoverFirst(before: SleepReport) returns (known: bool, report: SleepReport, ghost recovery: seq<Call>)
      requires Valid()
      modifies `hardwareKnown, `state, `failedResume, `failedRail, `failedDisarm, hw`board, hw`calls
      ensures Valid() && hw.calls == old(hw.calls) + recovery && known == AllDone(recovery) == hardwareKnown
      ensures Ops(recovery) == if old(hardwareKnown) then []
                               else UndoRecord(old(failedResume), old(failedRail), old(failedDisarm))
      ensures known ==> report == before
      ensures !known ==> report == before.(blockedBy := failedRail + failedResume, blockedSources := failedDisarm,
                                           hardwareKnown := false, outcome := RefusedHardwareFailed)
    {
      if hardwareKnown {
        return true, before, [];
      }
      known, report, recovery := Recover(before);
      if !known {
        report := report.(hardwareKnown := false, outcome := RefusedHardwareFailed);
      }
    }

    method SleepFromKnown(plan: Plan, before: SleepReport)
      returns (report: SleepReport, ghost forward: seq<Call>, ghost backward: seq<Call>)
      requires leases.Valid() && Clean(Now()) && hardwareKnown && state == Active
      requires before == BLANK.(overdueLeases := before.overdueLeases)
      modifies `state, `cycles, `hardwareKnown, `failedResume, `failedRail, `failedDisarm, hw
      ensures Valid() && Honest(Now().journal, Verdict(hardwareKnown, report.blockedBy, report.blockedSources))
      ensures report.hardwareKnown == hardwareKnown && report.overdueLeases == before.overdueLeases
      ensures hw.calls == old(hw.calls) + forward + backward
      ensures !Runnable(plan, L.HeldSet(leases.live)) ==> forward == [] && backward == []
      ensures !Runnable(plan, L.HeldSet(leases.live)) ==> report == Refused(plan, L.HeldSet(leases.live), before)
      ensures Runnable(plan, L.HeldSet(leases.live)) ==>
                Transaction(plan, forward, backward) && report.outcome == OutcomeOf(forward[|forward| - 1])
      ensures CausesReported(plan, before, report)
    {
      var held := leases.Held();
      var ok;
      ok, report := Validate(plan, held, before);
      forward, backward := [], [];
      if ok {
        report, forward, backward := Transact(plan, report);
      }
    }

    method Acquire(domains: Mask, deadline: nat) returns (id: L.LeaseId, why: L.LeaseError)
      requires Valid()
      modifies leases
      ensures Valid()
      ensures !hardwareKnown ==> id == L.NO_LEASE && why == L.HardwareFailed && leases.live == old(leases.live)
      ensures hardwareKnown && domains * ALL_DOMAINS == {} ==> why == L.NoDomains
      ensures hardwareKnown && domains * ALL_DOMAINS != {} ==>
                why == if L.CanGrant(old(leases.live), old(leases.granted), leases.grantsPerSlot) then L.None
                       else if L.AllGranted(old(leases.granted), leases.grantsPerSlot) then L.Retired else L.Exhausted
      ensures why == L.None ==>
                leases.live == old(leases.live)[L.KeyOf(id) := L.Lease(domains * ALL_DOMAINS, deadline)]
      ensures why != L.None ==> leases.live == old(leases.live)
    {
      if !hardwareKnown {
        return L.NO_LEASE, L.HardwareFailed;
      }
      id, why := leases.Acquire(domains, deadline);
    }

    /** A release is accepted whether or not the hardware is known. */
    method Release(id: L.LeaseId) returns (ok: bool, why: L.LeaseError)
      requires Valid()
      modifies leases
      ensures Valid()
      ensures ok == (L.KeyOf(id) in old(leases.live)) && leases.live == old(leases.live) - {L.KeyOf(id)}
    {
      ok, why := leases.Release(id);
    }

    /** The blunt way out, for a caller that has re-established the hardware and read it back. */
    method Reinitialised()
      requires Valid() && hw.board == NONE
      modifies `state, `hardwareKnown, `failedResume, `failedRail, `failedDisarm
      ensures Valid() && hardwareKnown
    {
      hardwareKnown := true;
      state := Active;
      failedResume, failedRail, failedDisarm := {}, {}, {};
    }
  }

  /** Whether a known, Active board may run a plan, given the domains somebody holds.  Nothing
      else refuses it, so a legal plan is never wedged out by an earlier one. */
  predicate Runnable(plan: Plan, held: set<nat>) {
    && plan.state in {LightSleep, MeshListenSleep} && (forall w :: w in plan.wakeSources ==> MayWake(plan.state, w))
    && plan.railsOff <= plan.suspend && held !! plan.suspend
  }

  /** A light sleep that arms sources there are, cuts only what it suspends and suspends nothing anybody
      has leased. */
  ghost predicate RestsLightly(plan: Plan, live: map<L.Key, L.Lease>) {
    && plan.state == LightSleep && plan.wakeSources <= ALL_SOURCES && plan.railsOff <= plan.suspend
    && forall k :: k in live ==> live[k].domains !! plan.suspend
  }

  lemma LightSleepRuns(plan: Plan, live: map<L.Key, L.Lease>)
    ensures RestsLightly(plan, live) ==> Runnable(plan, L.HeldSet(live))
  {
  }

  lemma EmptyDifference(a: set<nat>, b: set<nat>)
    requires a - b == {}
    ensures a <= b && b + a == b
  {
    forall x | x in a ensures x in b {
      assert x in a - b || x in b;
    }
  }

  /** The first thing wrong with a plan that may not run, and what names it. */
  function Refused(plan: Plan, held: set<nat>, report: SleepReport): SleepReport
    requires !Runnable(plan, held)
  {
    if plan.state !in {LightSleep, MeshListenSleep} then report.(outcome := RefusedTransition)
    else if !(forall w :: w in plan.wakeSources ==> MayWake(plan.state, w)) then
      report.(outcome := RefusedWakePlan, blockedSources := set w | w in plan.wakeSources && !MayWake(plan.state, w))
    else if !(plan.railsOff <= plan.suspend) then
      report.(outcome := RefusedRailBeforeSuspend, blockedBy := plan.railsOff - plan.suspend)
    else report.(outcome := RefusedLeaseHeld, blockedBy := held * plan.suspend)
  }

  /** No domain with a live lease is suspended, cut, resumed or powered by a transaction. */
  lemma LeasedDomainsUntouched(plan: Plan, held: set<nat>, forward: seq<Call>, backward: seq<Call>, c: Call)
    requires Runnable(plan, held) && Transaction(plan, forward, backward)
    requires c in forward + backward && !c.op.Enter? && c.op.step != Wake
    ensures c.op.bit !in held
  {
    TouchesOnlyThePlan(plan, forward, backward, c);
  }
}

/** The journal a sleep transaction keeps of what may still be wrong, as a value: what each step
    of the transaction does to the board, to the journal and to the report, and what every phase
    built from such steps keeps true. */
module PowerJournal {
  import opened PowerState
  import opened PowerTrace

  datatype StepResult = Done | Unchanged | Unknown

  /** One set per kind of step: consumers down, rails cut, sources armed; or the record of which
      of them may be. */
  datatype Sets = Sets(consumers: set<nat>, rails: set<nat>, sources: set<nat>) {
    function Get(step: Step): set<nat> {
      match step
      case Consumer => consumers
      case Rail => rails
      case Wake => sources
    }

    function Put(step: Step, s: set<nat>): Sets {
      match step
      case Consumer => this.(consumers := s)
      case Rail => this.(rails := s)
      case Wake => this.(sources := s)
    }
  }

  const NONE := Sets({}, {}, {})

  function Count(step: Step): nat {
    if step == Wake then SOURCE_COUNT else DOMAIN_COUNT
  }

  ghost predicate Within(s: set<nat>, n: nat) {
    forall b :: b in s ==> b < n
  }

  /** What a forward step may leave on the board.  `Unknown` leaves its one bit either way. */
  ghost predicate DoEffect(step: Step, b: nat, result: StepResult, before: Sets, after: Sets) {
    match result
    case Done => after == before.Put(step, before.Get(step) + {b})
    case Unchanged => after == before
    case Unknown =>
      || after == before.Put(step, before.Get(step) + {b})
      || after == before.Put(step, before.Get(step) - {b})
  }

  /** What an undo may leave on the board.  A failed one leaves its one bit either way. */
  ghost predicate UndoEffect(step: Step, b: nat, ok: bool, before: Sets, after: Sets) {
    || after == before.Put(step, before.Get(step) - {b})
    || (!ok && after == before.Put(step, before.Get(step) + {b}))
  }

  /** The verdict half of a report: whether the board is known, and what is named as blocking. */
  datatype Verdict = Verdict(known: bool, blockedBy: set<nat>, blockedSources: set<nat>)

  /** Says the board is known exactly when nothing is journalled, and names everything that is. */
  ghost predicate Honest(journal: Sets, v: Verdict) {
    && (v.known <==> journal == NONE)
    && journal.consumers + journal.rails <= v.blockedBy && journal.sources <= v.blockedSources
  }

  ghost predicate JournalWithin(journal: Sets) {
    && Within(journal.consumers, DOMAIN_COUNT) && Within(journal.rails, DOMAIN_COUNT)
    && Within(journal.sources, SOURCE_COUNT)
  }

  function Blame(step: Step, b: nat, v: Verdict): Verdict {
    if step == Wake then v.(known := false, blockedSources := v.blockedSources + {b})
    else v.(known := false, blockedBy := v.blockedBy + {b})
  }

  /** The board, everything asked of it so far, and the journal. */
  datatype World = World(board: Sets, calls: seq<Call>, journal: Sets)

  /** `w` differs from `start` only in the given kind of step and in having made the calls `ran`. */
  ghost predicate OnlyMoved(step: Step, start: World, w: World, ran: seq<Call>) {
    && w.calls == start.calls + ran
    && w.board == start.board.Put(step, w.board.Get(step))
    && w.journal == start.journal.Put(step, w.journal.Get(step))
  }

  // ---------------------------------------------------------------------------
  // A forward phase, after the bits of `mask` below `i`.

  ghost predicate Forwarding(step: Step, mask: set<nat>, i: nat, start: World, w: World, record: set<nat>,
                             ran: seq<Call>) {
    && OnlyMoved(step, start, w, ran) && w.journal == start.journal
    && Ran(step, mask, i, ran, record, false)
    && forall b :: b in w.board.Get(step) ==> b in start.board.Get(step) || b in record
  }

  lemma ForwardStart(step: Step, mask: set<nat>, w: World)
    ensures Forwarding(step, mask, 0, w, w, {}, [])
  {
  }

  lemma ForwardSkip(step: Step, mask: set<nat>, i: nat, start: World, w: World, record: set<nat>, ran: seq<Call>)
    requires Forwarding(step, mask, i, start, w, record, ran) && i !in mask
    ensures Forwarding(step, mask, i + 1, start, w, record, ran)
  {
  }

  lemma ForwardDone(step: Step, mask: set<nat>, i: nat, start: World, w: World, record: set<nat>, ran: seq<Call>,
                    board: Sets)
    requires Forwarding(step, mask, i, start, w, record, ran) && i in mask
    requires DoEffect(step, i, Done, w.board, board)
    ensures Forwarding(step, mask, i + 1, start, World(board, w.calls + [Call(Do(step, i), true)], w.journal),
                       record + {i}, ran + [Call(Do(step, i), true)])
  {
    AllDoneAppend(ran, Call(Do(step, i), true));
  }

  /** A forward phase that ended: completed with a record, or failed at its last call, in which
      case an `Unknown` answer is journalled. */
  ghost predicate Phase(step: Step, mask: set<nat>, start: World, w: World, record: set<nat>, ran: seq<Call>,
                        failed: bool, unknown: bool)
  {
    && OnlyMoved(step, start, w, ran) && Ran(step, mask, Count(step), ran, record, failed)
    && (forall b :: b in w.board.Get(step) ==>
          b in start.board.Get(step) || b in record || b in w.journal.Get(step))
    && (if failed && unknown
        then w.journal == start.journal.Put(step, start.journal.Get(step) + {ran[|ran| - 1].op.bit})
        else w.journal == start.journal)
  }

  lemma ForwardEnd(step: Step, mask: set<nat>, start: World, w: World, record: set<nat>, ran: seq<Call>)
    requires Forwarding(step, mask, Count(step), start, w, record, ran)
    ensures Phase(step, mask, start, w, record, ran, false, false)
  {
  }

  function Journalled(step: Step, b: nat, result: StepResult, journal: Sets): Sets {
    if result == Unknown then journal.Put(step, journal.Get(step) + {b}) else journal
  }

  lemma ForwardFail(step: Step, mask: set<nat>, i: nat, start: World, w: World, record: set<nat>, ran: seq<Call>,
                    result: StepResult, board: Sets)
    requires Forwarding(step, mask, i, start, w, record, ran) && i in mask && i < Count(step)
    requires result != Done && DoEffect(step, i, result, w.board, board)
    ensures Phase(step, mask, start,
                  World(board, w.calls + [Call(Do(step, i), false)], Journalled(step, i, result, w.journal)),
                  record, ran + [Call(Do(step, i), false)], true, result == Unknown)
  {
    var all := ran + [Call(Do(step, i), false)];
    assert all[..|all| - 1] == ran;
    assert FailedAt(step, mask, i, all, record);
  }

  // ---------------------------------------------------------------------------
  // An unwind of `record`, which has dealt with the bits at and above `i`.

  ghost predicate Unwinding(step: Step, record: set<nat>, i: nat, start: World, v0: Verdict, w: World, v: Verdict,
                            ran: seq<Call>) {
    && OnlyMoved(step, start, w, ran)
    && Ops(ran) + UndoSteps(step, record, i) == UndoSteps(step, record, Count(step))
    && (forall b :: b in w.board.Get(step) ==> b in w.journal.Get(step) || (b in record && b < i))
    && Honest(w.journal, v) && JournalWithin(w.journal)
    && (v.known <==> v0.known && AllDone(ran))
    && v0.blockedBy <= v.blockedBy && v0.blockedSources <= v.blockedSources
  }

  lemma UnwindStart(step: Step, record: set<nat>, w: World, v: Verdict)
    requires Honest(w.journal, v) && JournalWithin(w.journal) && Within(record, Count(step))
    requires w.board.Get(step) <= w.journal.Get(step) + record
    ensures Unwinding(step, record, Count(step), w, v, w, v, [])
  {
  }

  lemma UnwindSkip(step: Step, record: set<nat>, i: nat, start: World, v0: Verdict, w: World, v: Verdict,
                   ran: seq<Call>)
    requires Unwinding(step, record, i + 1, start, v0, w, v, ran) && i !in record
    ensures Unwinding(step, record, i, start, v0, w, v, ran)
  {
  }

  lemma UnwindOne(step: Step, record: set<nat>, i: nat, start: World, v0: Verdict, w: World, v: Verdict, ran: seq<Call>,
                  ok: bool, board: Sets)
    requires Unwinding(step, record, i + 1, start, v0, w, v, ran) && i in record && i < Count(step)
    requires UndoEffect(step, i, ok, w.board, board)
    ensures var journal := if ok then w.journal else w.journal.Put(step, w.journal.Get(step) + {i});
            Unwinding(step, record, i, start, v0, World(board, w.calls + [Call(Undo(step, i), ok)], journal),
                      if ok then v else Blame(step, i, v), ran + [Call(Undo(step, i), ok)])
  {
    AllDoneAppend(ran, Call(Undo(step, i), ok));
    assert Ops(ran) + [Undo(step, i)] + UndoSteps(step, record, i) == Ops(ran) + UndoSteps(step, record, i + 1);
  }

  /** What an unwind leaves: everything of its kind still held is journalled, the report says so,
      and the calls were the record's undo steps, each once, whatever failed among them. */
  ghost predicate Unwound(step: Step, record: set<nat>, start: World, v0: Verdict, w: World, v: Verdict,
                          ran: seq<Call>) {
    && OnlyMoved(step, start, w, ran)
    && Ops(ran) == UndoSteps(step, record, Count(step))
    && w.board.Get(step) <= w.journal.Get(step)
    && Honest(w.journal, v) && JournalWithin(w.journal)
    && (v.known <==> v0.known && AllDone(ran))
    && v0.blockedBy <= v.blockedBy && v0.blockedSources <= v.blockedSources
  }

  lemma UnwindEnd(step: Step, record: set<nat>, start: World, v0: Verdict, w: World, v: Verdict, ran: seq<Call>)
    requires Unwinding(step, record, 0, start, v0, w, v, ran)
    ensures Unwound(step, record, start, v0, w, v, ran)
  {
  }

  // ---------------------------------------------------------------------------
  // A retry of what is journalled, which has dealt with the bits at and above `i`.

  ghost predicate Retrying(step: Step, i: nat, start: World, w: World, ran: seq<Call>) {
    && OnlyMoved(step, start, w, ran)
    && Ops(ran) + UndoSteps(step, start.journal.Get(step), i) == UndoSteps(step, start.journal.Get(step), Count(step))
    && w.board.Get(step) <= w.journal.Get(step) <= start.journal.Get(step)
    && (forall b :: b in start.journal.Get(step) && b < i ==> b in w.journal.Get(step))
    && (AllDone(ran) <==> Within(w.journal.Get(step), i))
  }

  lemma RetryStart(step: Step, w: World)
    requires w.board.Get(step) <= w.journal.Get(step) && Within(w.journal.Get(step), Count(step))
    ensures Retrying(step, Count(step), w, w, [])
  {
  }

  lemma RetrySkip(step: Step, i: nat, start: World, w: World, ran: seq<Call>)
    requires Retrying(step, i + 1, start, w, ran) && i !in w.journal.Get(step)
    ensures Retrying(step, i, start, w, ran)
  {
  }

  lemma WithinBelow(s: set<nat>, i: nat)
    requires i in s
    ensures Within(s - {i}, i) <==> Within(s, i + 1)
    ensures !Within(s, i)
  {
    if Within(s - {i}, i) {
      forall b | b in s ensures b < i + 1 {
        assert b == i || b in s - {i};
      }
    }
  }

  lemma RetryOne(step: Step, i: nat, start: World, w: World, ran: seq<Call>, ok: bool, board: Sets)
    requires Retrying(step, i + 1, start, w, ran) && i in w.journal.Get(step)
    requires UndoEffect(step, i, ok, w.board, board)
    ensures var journal := if ok then w.journal.Put(step, w.journal.Get(step) - {i}) else w.journal;
            Retrying(step, i, start, World(board, w.calls + [Call(Undo(step, i), ok)], journal),
                     ran + [Call(Undo(step, i), ok)])
  {
    AllDoneAppend(ran, Call(Undo(step, i), ok));
    WithinBelow(w.journal.Get(step), i);
    var owed := start.journal.Get(step);
    assert Ops(ran) + [Undo(step, i)] + UndoSteps(step, owed, i) == Ops(ran) + UndoSteps(step, owed, i + 1);
  }

  /** A finished retry asked for exactly what was owed and still owes exactly what failed. */
  ghost predicate Retried(step: Step, start: World, w: World, ran: seq<Call>) {
    && OnlyMoved(step, start, w, ran)
    && Ops(ran) == UndoSteps(step, start.journal.Get(step), Count(step))
    && w.board.Get(step) <= w.journal.Get(step) <= start.journal.Get(step)
    && (AllDone(ran) <==> w.journal.Get(step) == {})
  }

  lemma RetryEnd(step: Step, start: World, w: World, ran: seq<Call>)
    requires Retrying(step, 0, start, w, ran)
    ensures Retried(step, start, w, ran)
  {
  }

  // ---------------------------------------------------------------------------
  // A whole transaction.

  /** What is still to be undone: everything held on the board is journalled or recorded. */
  ghost predicate Owing(w: World, v: Verdict, record: Sets) {
    && Honest(w.journal, v) && JournalWithin(w.journal) && JournalWithin(record)
    && w.board.consumers <= w.journal.consumers + record.consumers
    && w.board.rails <= w.journal.rails + record.rails
    && w.board.sources <= w.journal.sources + record.sources
  }

  /** Nothing is left to undo: whatever the board may still hold is in the journal. */
  ghost predicate Settled(w: World, v: Verdict) {
    Owing(w, v, NONE)
  }

  lemma UnwoundSettles(step: Step, start: World, v0: Verdict, w: World, v: Verdict, ran: seq<Call>, record: Sets)
    requires Owing(start, v0, record) && Unwound(step, record.Get(step), start, v0, w, v, ran)
    ensures Owing(w, v, record.Put(step, {})) && w.calls == start.calls + ran
  {
  }

  /** The forward part of a transaction has ended in `w`, and `record` is exactly what undoes it. */
  ghost predicate Ended(plan: Plan, start: World, w: World, v: Verdict, record: Sets, forward: seq<Call>) {
    && w.calls == start.calls + forward && Forward(plan, forward)
    && UndoOf(forward) == UndoRecord(record.consumers, record.rails, record.sources) && Owing(w, v, record)
  }

  /** The verdict a failed phase writes: the failed bit is named, and an `Unknown` forgets the board. */
  function FailedVerdict(step: Step, b: nat, unknown: bool): Verdict {
    if step == Wake then Verdict(!unknown, {}, {b}) else Verdict(!unknown, {b}, {})
  }

  const KNOWN := Verdict(true, {}, {})

  ghost predicate Clean(w: World) {
    w.board == NONE && w.journal == NONE
  }

  /** A completed phase owes exactly its record. */
  lemma PhaseOwes(step: Step, mask: set<nat>, start: World, w: World, done: Sets, record: set<nat>, ran: seq<Call>)
    requires start.journal == NONE && Owing(start, KNOWN, done) && done.Get(step) == {}
    requires Phase(step, mask, start, w, record, ran, false, false)
    ensures w.journal == NONE && Owing(w, KNOWN, done.Put(step, record)) && w.calls == start.calls + ran
  {
  }

  /** A failed phase owes its record, and journals and names the bit an `Unknown` was about. */
  lemma FailedPhaseOwes(step: Step, mask: set<nat>, start: World, w: World, done: Sets, record: set<nat>,
                        ran: seq<Call>, unknown: bool)
    requires start.journal == NONE && Owing(start, KNOWN, done) && done.Get(step) == {}
    requires Phase(step, mask, start, w, record, ran, true, unknown)
    ensures ran != []
    ensures Owing(w, FailedVerdict(step, ran[|ran| - 1].op.bit, unknown), done.Put(step, record))
            && w.calls == start.calls + ran
  {
  }

  /** Everything the board may hold down, cut or armed is journalled. */
  ghost predicate Covered(w: World) {
    && JournalWithin(w.journal)
    && w.board.consumers <= w.journal.consumers && w.board.rails <= w.journal.rails
    && w.board.sources <= w.journal.sources
  }

  /** The retry of a whole journal asks for exactly what is owed, and clears it exactly when every
      undo in it was reported done. */
  lemma RetryAll(w0: World, w1: World, w2: World, w3: World, d: seq<Call>, r: seq<Call>, c: seq<Call>)
    requires Covered(w0) && Retried(Wake, w0, w1, d) && Retried(Rail, w1, w2, r) && Retried(Consumer, w2, w3, c)
    ensures Covered(w3) && w3.calls == w0.calls + (d + (r + c))
    ensures Ops(d + (r + c)) == UndoRecord(w0.journal.consumers, w0.journal.rails, w0.journal.sources)
    ensures AllDone(d + (r + c)) <==> w3.journal == NONE
    ensures w3.journal == NONE ==> Clean(w3)
  {
    OpsConcat(r, c);
    OpsConcat(d, r + c);
    AllDoneConcat(r, c);
    AllDoneConcat(d, r + c);
    Associative(w0.calls + d, r, c);
    Associative(w0.calls, d, r + c);
  }

  // ---------------------------------------------------------------------------
  // How far a transaction has got, and the four ways its forward part can end.

  /** Consumers are suspended, and then rails are cut, as planned and without a failure. */
  ghost predicate Suspended(plan: Plan, start: World, w: World, suspended: set<nat>, s: seq<Call>) {
    && Ran(Consumer, plan.suspend, DOMAIN_COUNT, s, suspended, false)
    && w.calls == start.calls + s && w.journal == NONE && Owing(w, KNOWN, Sets(suspended, {}, {}))
  }

  ghost predicate Cut(plan: Plan, start: World, w: World, suspended: set<nat>, s: seq<Call>, cut: set<nat>,
                      r: seq<Call>) {
    && Ran(Consumer, plan.suspend, DOMAIN_COUNT, s, suspended, false)
    && Ran(Rail, plan.railsOff, DOMAIN_COUNT, r, cut, false)
    && w.calls == start.calls + (s + r) && w.journal == NONE && Owing(w, KNOWN, Sets(suspended, cut, {}))
  }

  lemma NowSuspended(plan: Plan, start: World, w: World, suspended: set<nat>, s: seq<Call>)
    requires Clean(start) && Phase(Consumer, plan.suspend, start, w, suspended, s, false, false)
    ensures Suspended(plan, start, w, suspended, s)
  {
    PhaseOwes(Consumer, plan.suspend, start, w, NONE, suspended, s);
  }

  lemma NowCut(plan: Plan, start: World, w1: World, w: World, suspended: set<nat>, s: seq<Call>, cut: set<nat>,
               r: seq<Call>)
    requires Suspended(plan, start, w1, suspended, s) && Phase(Rail, plan.railsOff, w1, w, cut, r, false, false)
    ensures Cut(plan, start, w, suspended, s, cut, r)
  {
    PhaseOwes(Rail, plan.railsOff, w1, w, Sets(suspended, {}, {}), cut, r);
    Associative(start.calls, s, r);
  }

  lemma EndedInSuspend(plan: Plan, start: World, w: World, suspended: set<nat>, s: seq<Call>, unknown: bool)
    requires Clean(start) && Phase(Consumer, plan.suspend, start, w, suspended, s, true, unknown)
    ensures s != []
    ensures Ended(plan, start, w, FailedVerdict(Consumer, s[|s| - 1].op.bit, unknown), Sets(suspended, {}, {}), s)
  {
    FailedPhaseOwes(Consumer, plan.suspend, start, w, NONE, suspended, s, unknown);
    StoppedInSuspend(plan, s, suspended);
  }

  lemma EndedInRails(plan: Plan, start: World, w1: World, w: World, suspended: set<nat>, s: seq<Call>, cut: set<nat>,
                     r: seq<Call>)
    requires Suspended(plan, start, w1, suspended, s) && Phase(Rail, plan.railsOff, w1, w, cut, r, true, false)
    ensures r != []
    ensures Ended(plan, start, w, FailedVerdict(Rail, r[|r| - 1].op.bit, false), Sets(suspended, cut, {}), s + r)
  {
    FailedPhaseOwes(Rail, plan.railsOff, w1, w, Sets(suspended, {}, {}), cut, r, false);
    StoppedInRails(plan, s, suspended, r, cut);
    Associative(start.calls, s, r);
  }

  lemma EndedInWake(plan: Plan, start: World, w2: World, w: World, suspended: set<nat>, s: seq<Call>,
                    cut: set<nat>, r: seq<Call>, armed: set<nat>, a: seq<Call>, unknown: bool)
    requires Cut(plan, start, w2, suspended, s, cut, r) && Phase(Wake, plan.wakeSources, w2, w, armed, a, true, unknown)
    ensures a != []
    ensures Ended(plan, start, w, FailedVerdict(Wake, a[|a| - 1].op.bit, unknown), Sets(suspended, cut, armed),
                  s + r + a)
  {
    FailedPhaseOwes(Wake, plan.wakeSources, w2, w, Sets(suspended, cut, {}), armed, a, unknown);
    StoppedInWake(plan, s, suspended, r, cut, a, armed);
    Associative(start.calls, s + r, a);
  }

  lemma EndedInSleep(plan: Plan, start: World, w2: World, w3: World, w: World, suspended: set<nat>, s: seq<Call>,
                     cut: set<nat>, r: seq<Call>, armed: set<nat>, a: seq<Call>, ok: bool)
    requires Cut(plan, start, w2, suspended, s, cut, r) && Phase(Wake, plan.wakeSources, w2, w3, armed, a, false, false)
    requires w == w3.(calls := w3.calls + [Call(Enter(plan.state), ok)])
    ensures Ended(plan, start, w, KNOWN, Sets(suspended, cut, armed), s + r + a + [Call(Enter(plan.state), ok)])
  {
    PhaseOwes(Wake, plan.wakeSources, w2, w3, Sets(suspended, cut, {}), armed, a);
    Slept(plan, s, suspended, r, cut, a, armed, ok);
    Associative(start.calls, s + r, a);
    Associative(start.calls, s + r + a, [Call(Enter(plan.state), ok)]);
  }

  /** Undoing the record settles the transaction. */
  lemma Concludes(plan: Plan, start: World, middle: World, end: World, forward: seq<Call>, backward: seq<Call>,
                  record: Sets, v: Verdict, after: Verdict)
    requires Ended(plan, start, middle, v, record, forward) && end.calls == middle.calls + backward
    requires Ops(backward) == UndoRecord(record.consumers, record.rails, record.sources) && Settled(end, after)
    ensures Transaction(plan, forward, backward) && end.calls == start.calls + forward + backward
    ensures Covered(end) && Honest(end.journal, after)
  {
  }
}

/** A forget-bond request and its late answer, as a transition system: the bridge's half
    (debug/src/bridge.cpp), the atomic slot (firmware/main/meshcore_forget_outcome.h) read and
    written one access at a time, and the worker that deletes the bond
    (firmware/main/meshcore_ble.cpp).  Tickets are ghosts: nothing in the program carries them, and
    what has to be shown is that an answer still belongs to the reservation it is given for. */
module ForgetBond {
  datatype Outcome = Idle | InFlight | Deleted | Refused | Nothing

  datatype Code = MeshOk | Busy | BadInput | OperationFailed

  /** The bridge's task, between two accesses to what it shares. */
  datatype Bridge =
    | Ready
    | ReserveLoad(req: nat)
    | ReserveSwap(req: nat, seen: Outcome)
    | Posting(req: nat)
    | Releasing(req: nat)
    | TakeLoad
    | TakeSwap(seen: Outcome)

  /** The worker's task, likewise. */
  datatype Worker =
    | Resting
    | Looking(ticket: nat)
    | Ending(ticket: nat)
    | Deleting(ticket: nat)
    | Reporting(ticket: nat, outcome: Outcome)

  /** The request the bridge has not answered yet. */
  datatype Debt = Settled | Owed(req: nat, ticket: nat)

  datatype Event =
    | Pending(req: nat, ticket: nat)
    | Answered(req: nat, code: Code)
    | Late(req: nat, code: Code)
    | SessionOver

  datatype State = State(
    slot: Outcome, reservation: nat, jobs: seq<nat>, conflict: bool,
    bridge: Bridge, debt: Debt, worker: Worker,
    results: map<nat, Outcome>, erased: set<nat>, missed: set<nat>, log: seq<Event>)

  const START := State(Idle, 0, [], false, Ready, Settled, Resting, map[], {}, {}, [])

  datatype Step =
    | Request(req: nat) | Tick | EndSession
    | Load | Swap(spurious: bool) | Post(full: bool) | GiveBack
    | PickUp | Look | Terminate(refused: bool) | Delete(refused: bool) | Report
    | RecordConflict | ClearConflict

  /** What the sink makes of an outcome that is not pending, and the bridge of that. */
  function CodeOf(outcome: Outcome): Code {
    match outcome
    case Deleted => MeshOk
    case Nothing => BadInput
    case _ => OperationFailed
  }

  // ---------------------------------------------------------------------------
  // Steps.  One that is not its task's turn changes nothing.

  function Do(s: State, step: Step): State {
    match step
    case Request(req) => if s.bridge.Ready? then Asked(s, req) else s
    case Tick => if s.bridge.Ready? && s.debt.Owed? then s.(bridge := TakeLoad) else s
    case EndSession => if s.bridge.Ready? then s.(debt := Settled, log := s.log + [SessionOver]) else s
    case Load => DoLoad(s)
    case Swap(spurious) => DoSwap(s, spurious)
    case Post(full) => if s.bridge.Posting? then DoPost(s, s.bridge.req, full) else s
    case GiveBack => if s.bridge.Releasing? then Reply(s.(slot := Idle), s.bridge.req, OperationFailed) else s
    case PickUp =>
      if s.worker.Resting? && s.jobs != [] then s.(worker := Looking(s.jobs[0]), jobs := s.jobs[1..]) else s
    case Look => if s.worker.Looking? then DoLook(s, s.worker.ticket) else s
    case Terminate(refused) => if s.worker.Ending? then DoTerminate(s, s.worker.ticket, refused) else s
    case Delete(refused) => if s.worker.Deleting? then DoDelete(s, s.worker.ticket, refused) else s
    case Report => if s.worker.Reporting? then DoReport(s, s.worker.ticket, s.worker.outcome) else s
    case RecordConflict => s.(conflict := true)
    case ClearConflict => s.(conflict := false)
  }

  function Reply(s: State, req: nat, code: Code): State {
    s.(bridge := Ready, log := s.log + [Answered(req, code)])
  }

  /** The request path up to the reservation. */
  function Asked(s: State, req: nat): State {
    if s.debt.Owed? then Reply(s, req, Busy)
    else if !s.conflict then Reply(s, req, BadInput)
    else s.(bridge := ReserveLoad(req))
  }

  function DoLoad(s: State): State {
    match s.bridge
    case ReserveLoad(req) => if s.slot == InFlight then Reply(s, req, Busy) else s.(bridge := ReserveSwap(req, s.slot))
    case TakeLoad =>
      if s.slot == InFlight then s.(bridge := Ready)
      else if s.slot == Idle then Answer(s, Idle)
      else s.(bridge := TakeSwap(s.slot))
    case _ => s
  }

  /** The compare-exchange of `reserve` is weak and may fail for no reason; that of `take` is not. */
  function DoSwap(s: State, spurious: bool): State {
    match s.bridge
    case ReserveSwap(req, seen) =>
      if s.slot != seen || spurious then s.(bridge := ReserveLoad(req))
      else s.(slot := InFlight, reservation := s.reservation + 1, bridge := Posting(req))
    case TakeSwap(seen) => if s.slot != seen then s.(bridge := Ready) else Answer(s.(slot := Idle), seen)
    case _ => s
  }

  /** The late reply, with whatever number the bridge remembers. */
  function Answer(s: State, outcome: Outcome): State {
    match s.debt
    case Settled => s.(bridge := Ready)
    case Owed(req, _) => s.(bridge := Ready, debt := Settled, log := s.log + [Late(req, CodeOf(outcome))])
  }

  function DoPost(s: State, req: nat, full: bool): State {
    if full then s.(bridge := Releasing(req))
    else s.(bridge := Ready, jobs := s.jobs + [s.reservation], debt := Owed(req, s.reservation),
            log := s.log + [Pending(req, s.reservation)])
  }

  function DoLook(s: State, ticket: nat): State {
    if s.conflict then s.(worker := Ending(ticket), conflict := false)
    else s.(worker := Reporting(ticket, Nothing), missed := s.missed + {ticket})
  }

  function DoTerminate(s: State, ticket: nat, refused: bool): State {
    if refused then s.(worker := Reporting(ticket, Refused), conflict := true) else s.(worker := Deleting(ticket))
  }

  function DoDelete(s: State, ticket: nat, refused: bool): State {
    if refused then s.(worker := Reporting(ticket, Refused), conflict := true)
    else s.(worker := Reporting(ticket, Deleted), erased := s.erased + {ticket})
  }

  function DoReport(s: State, ticket: nat, outcome: Outcome): State {
    s.(slot := outcome, worker := Resting, results := s.results[ticket := outcome])
  }

  /** The state after a run. */
  ghost function After(run: seq<Step>): State {
    if run == [] then START else Do(After(run[..|run| - 1]), run[|run| - 1])
  }

  // ---------------------------------------------------------------------------
  // What a host must see.

  /** The debt a host believes in, or `Broken` once a late reply came that it was not owed, carried
      another number, or said something else than the reservation's own result. */
  datatype Ledger = Ledger(debt: Debt, broken: bool)

  function Listen(l: Ledger, e: Event, results: map<nat, Outcome>): Ledger {
    match e
    case Pending(req, ticket) => Ledger(Owed(req, ticket), l.broken || l.debt.Owed?)
    case Late(req, code) =>
      Ledger(Settled, l.broken || !l.debt.Owed? || l.debt.req != req
                      || l.debt.ticket !in results || code != CodeOf(results[l.debt.ticket]))
    case SessionOver => l.(debt := Settled)
    case Answered(_, code) => l.(broken := l.broken || code == MeshOk)
  }

  ghost function Heard(log: seq<Event>, results: map<nat, Outcome>): Ledger {
    if log == [] then Ledger(Settled, false) else Listen(Heard(log[..|log| - 1], results), log[|log| - 1], results)
  }

  lemma HeardNext(log: seq<Event>, e: Event, results: map<nat, Outcome>)
    ensures Heard(log + [e], results) == Listen(Heard(log, results), e, results)
  {
    assert (log + [e])[..|log + [e]| - 1] == log;
  }

  /** A new result does not change what old replies were worth. */
  lemma {:induction false} HeardKept(log: seq<Event>, results: map<nat, Outcome>, ticket: nat, outcome: Outcome)
    requires !Heard(log, results).broken && ticket !in results
    ensures Heard(log, results[ticket := outcome]) == Heard(log, results)
  {
    if log != [] {
      HeardKept(log[..|log| - 1], results, ticket, outcome);
    }
  }

  // ---------------------------------------------------------------------------
  // The invariant.

  /** Between the reservation and the worker's queue. */
  predicate InHand(b: Bridge) {
    b.Posting? || b.Releasing?
  }

  /** While the slot is in flight exactly one place has the latest reservation, and otherwise no
      place has any: so no answer can be written for a reservation that has been replaced. */
  predicate OneOwner(s: State) {
    if s.slot == InFlight then
      || (InHand(s.bridge) && s.jobs == [] && s.worker == Resting)
      || (!InHand(s.bridge) && s.jobs == [s.reservation] && s.worker == Resting)
      || (!InHand(s.bridge) && s.jobs == [] && !s.worker.Resting? && s.worker.ticket == s.reservation)
    else !InHand(s.bridge) && s.jobs == [] && s.worker == Resting
  }

  /** What the worker says of a job is what became of it: the store deleted the bond, or the worker found no
      record of a conflict, or neither. */
  ghost predicate True(s: State, ticket: nat, outcome: Outcome) {
    (outcome == Deleted <==> ticket in s.erased) && (outcome == Nothing <==> ticket in s.missed)
  }

  /** A slot that holds an answer holds the result of the latest reservation, and results are true.  Of a
      reservation that is still being worked on nothing has become yet. */
  ghost predicate TrueResults(s: State) {
    && (forall t :: t in s.results ==> t <= s.reservation && (t == s.reservation ==> s.slot != InFlight))
    && (s.slot != InFlight && s.slot != Idle ==> s.reservation in s.results && s.results[s.reservation] == s.slot)
    && (s.worker.Reporting? ==> s.worker.outcome != InFlight && s.worker.outcome != Idle)
    && (s.worker.Reporting? ==> True(s, s.worker.ticket, s.worker.outcome))
    && (forall t :: t in s.results ==> True(s, t, s.results[t]))
    && (forall t :: t in s.erased + s.missed ==> t <= s.reservation)
    && (s.slot == InFlight && !s.worker.Reporting? ==> s.reservation !in s.erased + s.missed)
  }

  /** What the bridge remembers fits what it is doing and what the slot can say. */
  predicate Remembers(s: State) {
    && (s.debt.Owed? ==>
          && s.debt.ticket == s.reservation && s.slot != Idle
          && (s.bridge.Ready? || s.bridge.TakeLoad? || s.bridge.TakeSwap?))
    && (s.bridge.TakeLoad? || s.bridge.TakeSwap? ==> s.debt.Owed?)
    && (s.bridge.TakeSwap? ==> s.bridge.seen == s.slot && s.slot != InFlight)
    && (s.bridge.ReserveSwap? ==> s.bridge.seen == s.slot && s.slot != InFlight)
  }

  /** All of that, but for the log. */
  ghost predicate Core(s: State) {
    OneOwner(s) && TrueResults(s) && Remembers(s)
  }

  ghost predicate Inv(s: State) {
    Core(s) && Heard(s.log, s.results) == Ledger(s.debt, false)
  }

  lemma Logged(s: State, after: State, e: Event)
    requires Heard(s.log, s.results) == Ledger(s.debt, false)
    requires after.log == s.log + [e] && after.results == s.results
    requires Listen(Ledger(s.debt, false), e, s.results) == Ledger(after.debt, false)
    ensures Heard(after.log, after.results) == Ledger(after.debt, false)
  {
    HeardNext(s.log, e, s.results);
  }

  /** A step that says nothing on the log, or one thing the ledger expects. */
  lemma LogKeeps(s: State, after: State)
    requires Inv(s) && Core(after) && after.results == s.results
    requires after.log == s.log ==> after.debt == s.debt
    requires after.log != s.log ==>
               && |after.log| == |s.log| + 1 && after.log[..|s.log|] == s.log
               && Listen(Ledger(s.debt, false), after.log[|s.log|], s.results) == Ledger(after.debt, false)
    ensures Inv(after)
  {
    if after.log != s.log {
      assert after.log == s.log + [after.log[|s.log|]];
      Logged(s, after, after.log[|s.log|]);
    }
  }

  lemma LoadCore(s: State)
    requires Core(s)
    ensures Core(Do(s, Load))
  {
  }

  lemma LoadKeeps(s: State)
    requires Inv(s)
    ensures Inv(Do(s, Load))
  {
    LoadCore(s);
    LogKeeps(s, Do(s, Load));
  }

  lemma SwapCore(s: State, spurious: bool)
    requires Core(s)
    ensures Core(Do(s, Swap(spurious)))
  {
  }

  lemma SwapKeeps(s: State, spurious: bool)
    requires Inv(s)
    ensures Inv(Do(s, Swap(spurious)))
  {
    SwapCore(s, spurious);
    LogKeeps(s, Do(s, Swap(spurious)));
  }

  lemma RequestCore(s: State, req: nat)
    requires Core(s)
    ensures Core(Do(s, Request(req)))
  {
  }

  lemma RequestKeeps(s: State, req: nat)
    requires Inv(s)
    ensures Inv(Do(s, Request(req)))
  {
    RequestCore(s, req);
    LogKeeps(s, Do(s, Request(req)));
  }

  lemma TickKeeps(s: State)
    requires Inv(s)
    ensures Inv(Do(s, Tick))
  {
  }

  lemma SessionEndKeeps(s: State)
    requires Inv(s)
    ensures Inv(Do(s, EndSession))
  {
    if s.bridge.Ready? {
      Logged(s, Do(s, EndSession), SessionOver);
    }
  }

  lemma PostCore(s: State, full: bool)
    requires Core(s)
    ensures Core(Do(s, Post(full)))
  {
  }

  lemma PostKeeps(s: State, full: bool)
    requires Inv(s)
    ensures Inv(Do(s, Post(full)))
  {
    PostCore(s, full);
    LogKeeps(s, Do(s, Post(full)));
  }

  lemma GiveBackCore(s: State)
    requires Core(s)
    ensures Core(Do(s, GiveBack))
  {
  }

  lemma GiveBackKeeps(s: State)
    requires Inv(s)
    ensures Inv(Do(s, GiveBack))
  {
    GiveBackCore(s);
    LogKeeps(s, Do(s, GiveBack));
  }

  lemma LookKeeps(s: State)
    requires Inv(s)
    ensures Inv(Do(s, Look))
  {
  }

  lemma DeleteKeeps(s: State, refused: bool)
    requires Inv(s)
    ensures Inv(Do(s, Delete(refused)))
  {
  }

  lemma ReportKeeps(s: State)
    requires Inv(s)
    ensures Inv(Do(s, Report))
  {
    if s.worker.Reporting? {
      HeardKept(s.log, s.results, s.worker.ticket, s.worker.outcome);
    }
  }

  lemma WorkerKeeps(s: State, step: Step)
    requires Inv(s) && (step.PickUp? || step.Look? || step.Terminate? || step.Delete? || step.Report?)
    ensures Inv(Do(s, step))
  {
    match step
    case Look => LookKeeps(s);
    case Delete(refused) => DeleteKeeps(s, refused);
    case Report => ReportKeeps(s);
    case _ =>
  }

  lemma StepKeeps(s: State, step: Step)
    requires Inv(s)
    ensures Inv(Do(s, step))
  {
    match step
    case Load => LoadKeeps(s);
    case Swap(spurious) => SwapKeeps(s, spurious);
    case Request(req) => RequestKeeps(s, req);
    case Tick => TickKeeps(s);
    case EndSession => SessionEndKeeps(s);
    case Post(full) => PostKeeps(s, full);
    case GiveBack => GiveBackKeeps(s);
    case RecordConflict | ClearConflict =>
    case _ => WorkerKeeps(s, step);
  }

  /** In every run, a host that keeps a strict ledger agrees with the bridge on what is owed: a late
      reply comes only for the request that is pending, under its number and saying what became of
      its own reservation; a pending request gets at most one, and none after its session. */
  lemma {:induction false} LateRepliesAreOwed(run: seq<Step>)
    ensures Inv(After(run))
  {
    if run != [] {
      var before, step := After(run[..|run| - 1]), run[|run| - 1];
      LateRepliesAreOwed(run[..|run| - 1]);
      StepKeeps(before, step);
    }
  }

  // ---------------------------------------------------------------------------
  // The same, said of the log alone.

  /** The request that position `i` of the log answers: its number and ticket, and where it stands,
      with nothing between that could have ended it. */
  ghost predicate Matches(log: seq<Event>, i: nat, j: nat) {
    && j < i < |log| && log[j].Pending? && log[i].Late? && log[j].req == log[i].req
    && forall k :: j < k < i ==> !log[k].Late? && !log[k].SessionOver? && !log[k].Pending?
  }

  /** Where the debt of an unbroken ledger comes from. */
  lemma {:induction false} DebtHasOrigin(log: seq<Event>, results: map<nat, Outcome>) returns (j: nat)
    requires !Heard(log, results).broken && Heard(log, results).debt.Owed?
    ensures j < |log| && log[j] == Pending(Heard(log, results).debt.req, Heard(log, results).debt.ticket)
    ensures forall k :: j < k < |log| ==> !log[k].Late? && !log[k].SessionOver? && !log[k].Pending?
  {
    var before := log[..|log| - 1];
    j := |log| - 1;
    if !log[j].Pending? {
      j := DebtHasOrigin(before, results);
    }
  }

  lemma {:induction false} BrokenStays(log: seq<Event>, results: map<nat, Outcome>, n: nat)
    requires n <= |log| && !Heard(log, results).broken
    ensures !Heard(log[..n], results).broken
  {
    if n < |log| {
      BrokenStays(log[..|log| - 1], results, n);
      assert log[..|log| - 1][..n] == log[..n];
    } else {
      assert log[..n] == log;
    }
  }

  lemma {:induction false} UnbrokenReplyIsOwed(log: seq<Event>, results: map<nat, Outcome>, i: nat) returns (j: nat)
    requires !Heard(log, results).broken && i < |log| && log[i].Late?
    ensures Matches(log, i, j) && log[j].ticket in results && log[i].code == CodeOf(results[log[j].ticket])
  {
    BrokenStays(log, results, i + 1);
    var upTo, before := log[..i + 1], log[..i];
    assert upTo[..|upTo| - 1] == before && upTo[|upTo| - 1] == log[i];
    j := DebtHasOrigin(before, results);
    assert forall k :: j < k < i ==> before[k] == log[k];
  }

  /** In every run, each late reply has its own pending request behind it, with no other late reply
      and no end of session between the two; and it says what became of that very reservation: success
      exactly if the bond was deleted for it, nothing to forget exactly if the worker found no conflict
      recorded, and otherwise a failure. */
  lemma LateReplyHasItsRequest(run: seq<Step>, i: nat) returns (j: nat)
    requires i < |After(run).log| && After(run).log[i].Late?
    ensures Matches(After(run).log, i, j)
    ensures var s, ticket := After(run), After(run).log[j].ticket;
            && ticket in s.results && (s.log[i].code == MeshOk <==> ticket in s.erased)
            && (s.log[i].code == BadInput <==> ticket in s.missed)
            && (ticket !in s.erased + s.missed ==> s.log[i].code == OperationFailed)
  {
    var s := After(run);
    LateRepliesAreOwed(run);
    j := UnbrokenReplyIsOwed(s.log, s.results, i);
  }

  /** An answer that nobody collected never blocks: the slot refuses only what is really in flight,
      in the hands of a task that has still to finish it. */
  lemma RefusedOnlyInFlight(run: seq<Step>)
    requires After(run).bridge.ReserveLoad?
    ensures var s := After(run);
            && (Do(s, Load).bridge.Ready? <==> s.slot == InFlight)
            && (s.slot == InFlight ==> s.jobs != [] || !s.worker.Resting?)
            && (s.slot != InFlight ==> Do(Do(s, Load), Swap(false)).bridge == Posting(s.bridge.req))
            && (s.slot != InFlight ==> Do(Do(s, Load), Swap(true)) == s)
  {
    LateRepliesAreOwed(run);
  }

  // ---------------------------------------------------------------------------
  // Every debt can be answered.

  function DoAll(s: State, steps: seq<Step>): State {
    if steps == [] then s else Do(DoAll(s, steps[..|steps| - 1]), steps[|steps| - 1])
  }

  lemma {:induction false} RunsOn(run: seq<Step>, steps: seq<Step>)
    ensures After(run + steps) == DoAll(After(run), steps)
  {
    if steps == [] {
      assert run + [] == run;
    } else {
      var n := |steps| - 1;
      RunsOn(run, steps[..n]);
      assert (run + steps)[..|run| + n] == run + steps[..n];
    }
  }

  /** The worker's turn, from wherever it is, and then the bridge's.  Steps out of turn do nothing. */
  function WorkersTurn(s: State, linkStays: bool, bondStays: bool): State {
    Do(Do(Do(Do(Do(s, PickUp), Look), Terminate(linkStays)), Delete(bondStays)), Report)
  }

  function BridgesTurn(s: State, spurious: bool): State {
    Do(Do(Do(s, Tick), Load), Swap(spurious))
  }

  function Round(linkStays: bool, bondStays: bool, spurious: bool): seq<Step> {
    WorkerSteps(linkStays, bondStays) + BridgeSteps(spurious)
  }

  function WorkerSteps(linkStays: bool, bondStays: bool): seq<Step> {
    [PickUp, Look, Terminate(linkStays), Delete(bondStays), Report]
  }

  function BridgeSteps(spurious: bool): seq<Step> {
    [Tick, Load, Swap(spurious)]
  }

  lemma StepsAreTurns(s: State, steps: seq<Step>, linkStays: bool, bondStays: bool, spurious: bool)
    ensures steps == WorkerSteps(linkStays, bondStays) ==> DoAll(s, steps) == WorkersTurn(s, linkStays, bondStays)
    ensures steps == BridgeSteps(spurious) ==> DoAll(s, steps) == BridgesTurn(s, spurious)
  {
    if |steps| >= 3 {
      Take(s, steps, 0);
      Take(s, steps, 1);
      Take(s, steps, 2);
      assert |steps| == 3 ==> steps[..3] == steps;
    }
    if |steps| >= 5 {
      Take(s, steps, 3);
      Take(s, steps, 4);
      assert |steps| == 5 ==> steps[..5] == steps;
    }
  }

  lemma Take(s: State, steps: seq<Step>, n: nat)
    requires n < |steps|
    ensures DoAll(s, steps[..n + 1]) == Do(DoAll(s, steps[..n]), steps[n])
    ensures DoAll(s, steps[..0]) == s
  {
    assert steps[..n + 1][..n] == steps[..n];
  }

  /** How far the worker has come with a job, and that what it reports is an answer. */
  predicate AtLeast(w: Worker, stage: nat) {
    && (w.Reporting? ==> w.outcome != InFlight && w.outcome != Idle)
    && match w
       case Resting => stage == 0
       case Looking(_) => stage <= 1
       case Ending(_) => stage <= 2
       case Deleting(_) => stage <= 3
       case Reporting(_, _) => stage <= 4
  }

  /** The bridge's side of two states is the same. */
  predicate SameBridge(s: State, t: State) {
    t.bridge == s.bridge && t.debt == s.debt && t.log == s.log && t.slot == s.slot
  }

  lemma WorkerMoves(s: State, step: Step, stage: nat)
    requires AtLeast(s.worker, stage) && (s.worker.Resting? ==> s.jobs != [])
    requires match stage
             case 0 => step.PickUp?
             case 1 => step.Look?
             case 2 => step.Terminate?
             case 3 => step.Delete?
             case _ => false
    ensures AtLeast(Do(s, step).worker, stage + 1) && SameBridge(s, Do(s, step))
  {
  }

  lemma WorkerIdles(s: State, step: Step)
    requires s.worker.Resting? && s.jobs == []
    requires step.PickUp? || step.Look? || step.Terminate? || step.Delete? || step.Report?
    ensures Do(s, step) == s
  {
  }

  /** After the worker's turn the slot holds an answer, and nothing of the bridge's has changed. */
  lemma WorkerFinishes(s: State, linkStays: bool, bondStays: bool, after: State)
    requires Inv(s) && s.debt.Owed? && after == WorkersTurn(s, linkStays, bondStays)
    ensures after.slot != InFlight && after.slot != Idle
    ensures SameBridge(s.(slot := after.slot), after) && (s.slot != InFlight ==> after.slot == s.slot)
  {
    if s.slot == InFlight {
      WorkerMoves(s, PickUp, 0);
      var s1 := Do(s, PickUp);
      WorkerMoves(s1, Look, 1);
      var s2 := Do(s1, Look);
      WorkerMoves(s2, Terminate(linkStays), 2);
      var s3 := Do(s2, Terminate(linkStays));
      WorkerMoves(s3, Delete(bondStays), 3);
    } else {
      WorkerIdles(s, PickUp);
      WorkerIdles(s, Look);
      WorkerIdles(s, Terminate(linkStays));
      WorkerIdles(s, Delete(bondStays));
      WorkerIdles(s, Report);
    }
  }

  lemma BridgeCollects(s: State, spurious: bool, after: State)
    requires s.debt.Owed? && s.slot != InFlight && s.slot != Idle && after == BridgesTurn(s, spurious)
    requires s.bridge.Ready? || s.bridge.TakeLoad? || s.bridge == TakeSwap(s.slot)
    ensures after.debt.Settled? && after.log == s.log + [Late(s.debt.req, CodeOf(s.slot))]
    ensures after.erased == s.erased && after.conflict == s.conflict && after.slot == Idle && after.bridge == Ready
  {
  }

  /** A job the worker has not looked at yet ends as the store, the radio and the record have it, and the
      record is put back exactly if the bond is still there. */
  lemma WorkerDoesJob(s: State, linkStays: bool, bondStays: bool, after: State)
    requires Inv(s) && s.slot == InFlight && s.debt.Owed? && (s.worker.Resting? || s.worker.Looking?)
    requires after == WorkersTurn(s, linkStays, bondStays)
    ensures after.slot == if !s.conflict then Nothing else if linkStays || bondStays then Refused else Deleted
    ensures after.conflict == (s.conflict && (linkStays || bondStays))
    ensures after.erased == if after.slot == Deleted then s.erased + {s.debt.ticket} else s.erased
    ensures after.worker == Resting && after.jobs == []
  {
    var looking := Do(s, PickUp);
    assert looking.worker == Looking(s.debt.ticket) && looking.conflict == s.conflict && looking.erased == s.erased;
  }

  /** Every accepted request reaches an outcome: from any reachable state with a debt, one turn of the
      worker and one of the bridge answer it, whatever the radio and the store say in them; and where the
      worker has still to look, with what they said. */
  lemma DebtIsAnswered(run: seq<Step>, linkStays: bool, bondStays: bool, spurious: bool) returns (code: Code)
    requires After(run).debt.Owed?
    ensures var after := After(run + Round(linkStays, bondStays, spurious));
            && after.debt.Settled? && after.log == After(run).log + [Late(After(run).debt.req, code)]
            && after.slot == Idle && after.bridge == Ready
    ensures var s, after := After(run), After(run + Round(linkStays, bondStays, spurious));
            s.slot == InFlight && (s.worker.Resting? || s.worker.Looking?) ==>
              && code == (if !s.conflict then BadInput else if linkStays || bondStays then OperationFailed else MeshOk)
              && (s.debt.ticket in after.erased <==> code == MeshOk) && (after.conflict <==> code == OperationFailed)
  {
    var s, round := After(run), Round(linkStays, bondStays, spurious);
    LateRepliesAreOwed(run);
    RunsOn(run, WorkerSteps(linkStays, bondStays));
    RunsOn(run + WorkerSteps(linkStays, bondStays), BridgeSteps(spurious));
    assert run + round == run + WorkerSteps(linkStays, bondStays) + BridgeSteps(spurious);
    StepsAreTurns(s, WorkerSteps(linkStays, bondStays), linkStays, bondStays, spurious);
    var middle := WorkersTurn(s, linkStays, bondStays);
    StepsAreTurns(middle, BridgeSteps(spurious), linkStays, bondStays, spurious);
    WorkerFinishes(s, linkStays, bondStays, middle);
    BridgeCollects(middle, spurious, BridgesTurn(middle, spurious));
    if s.slot == InFlight && (s.worker.Resting? || s.worker.Looking?) {
      WorkerDoesJob(s, linkStays, bondStays, middle);
    }
    code := CodeOf(middle.slot);
  }

  /** A look at an answer that is not there yet changes nothing. */
  lemma LooksInVain(run: seq<Step>)
    requires After(run).bridge.Ready? && After(run).debt.Owed? && After(run).slot == InFlight
    ensures Do(Do(After(run), Tick), Load) == After(run)
  {
  }

  /** What the radio records of conflicts is what requests and the worker go by. */
  lemma ConflictsAreRecorded(s: State)
    ensures Do(s, RecordConflict) == s.(conflict := true) && Do(s, ClearConflict) == s.(conflict := false)
  {
  }

  /** What a request is told while the bridge is ready: busy while one is owed or in flight, nothing to
      forget without a conflict, a failure if the worker's queue is full, and otherwise that it is pending. */
  lemma RequestIsDecided(run: seq<Step>, req: nat, full: bool)
    requires After(run).bridge.Ready?
    ensures var s := After(run);
            var after := Do(Do(Do(Do(Do(s, Request(req)), Load), Swap(false)), Post(full)), GiveBack);
            && after.bridge.Ready?
            && after.log == s.log + [if s.debt.Owed? then Answered(req, Busy)
                                     else if !s.conflict then Answered(req, BadInput)
                                     else if s.slot == InFlight then Answered(req, Busy)
                                     else if full then Answered(req, OperationFailed)
                                     else Pending(req, after.reservation)]
            && if after.log[|s.log|].Pending?
               then
                 && after.debt == Owed(req, after.reservation) && after.jobs == [after.reservation]
                 && after.slot == InFlight
               else after.debt == s.debt && after.jobs == s.jobs && (after.slot == s.slot || after.slot == Idle)
  {
    LateRepliesAreOwed(run);
  }
}

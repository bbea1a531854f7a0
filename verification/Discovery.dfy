/** Who owns radio discovery (firmware/main/meshcore_node_forget.h): any number of callers starting a
    scan and any number tearing the transport down, interleaved one access to the stack at a time. */
module Discovery {
  datatype ScanStart = Skipped | Refused | Scanning | Stopped | StopOwed

  datatype Termination = Absent | Pending | Gone | TerminationRefused

  /** A caller, by what it does next. */
  datatype Caller =
    | ReadArmed | ReadIdle | Begin | Recheck | TakeBack | Started(result: ScanStart)
    | Disarm | ReadScan | CancelScan | ReadConnecting | CancelConnect | EndSession | Quiesced(how: Termination)
  {
    predicate Returned() {
      this.Started? || this.Quiesced?
    }

    /** It is still going to look at the scan. */
    predicate Minds() {
      this.Recheck? || this.TakeBack? || this.ReadScan? || this.CancelScan?
    }

    /** It told its caller that the stack refused something it owed. */
    predicate ToldOfRefusal() {
      this == Started(StopOwed) || this == Quiesced(TerminationRefused)
    }

    /** It has taken the reconnect away. */
    predicate Disarmed() {
      || this.ReadScan? || this.CancelScan? || this.ReadConnecting? || this.CancelConnect?
      || this.EndSession? || this.Quiesced?
    }
  }

  /** `cancelRefused` remembers whether the stack ever refused to stop a scan. */
  datatype Radio = Radio(armed: bool, scanning: bool, connecting: bool, cancelRefused: bool, callers: seq<Caller>)

  /** One move: a caller's next access, with the stack's answer if it has one to give; a connection
      that comes or goes, which ends a scan; or a new caller. */
  datatype Move = Turn(i: nat, accepted: bool, ended: Termination) | Connects(connecting: bool) | Arrives(quiesce: bool)

  function Do(r: Radio, m: Move): Radio {
    match m
    case Turn(i, accepted, ended) => if i < |r.callers| then Access(r, i, accepted, ended) else r
    case Connects(connecting) => r.(connecting := connecting, scanning := r.scanning && !connecting)
    case Arrives(quiesce) => r.(callers := r.callers + [if quiesce then Disarm else ReadArmed])
  }

  function Access(r: Radio, i: nat, accepted: bool, ended: Termination): Radio
    requires i < |r.callers|
  {
    var (after, next) := Step(r, r.callers[i], accepted, ended);
    after.(callers := r.callers[i := next])
  }

  /** What one access leaves of the stack, and what the caller does next. */
  function Step(r: Radio, caller: Caller, accepted: bool, ended: Termination): (Radio, Caller) {
    match caller
    case ReadArmed => (r, if r.armed then ReadIdle else Started(Skipped))
    case ReadIdle => (r, if r.scanning then Started(Skipped) else Begin)
    case Begin => if accepted && !r.scanning then (r.(scanning := true), Recheck) else (r, Started(Refused))
    case Recheck => (r, if r.armed then Started(Scanning) else TakeBack)
    case TakeBack =>
      if accepted then (r.(scanning := false), Started(Stopped))
      else (r.(cancelRefused := true), Started(StopOwed))
    case Disarm => (r.(armed := false), ReadScan)
    case ReadScan => (r, if r.scanning then CancelScan else ReadConnecting)
    case CancelScan =>
      if accepted then (r.(scanning := false), ReadConnecting)
      else (r.(cancelRefused := true), Quiesced(TerminationRefused))
    case ReadConnecting => (r, if r.connecting then CancelConnect else EndSession)
    case CancelConnect => if accepted then (r.(connecting := false), EndSession) else (r, Quiesced(TerminationRefused))
    case EndSession => (r, Quiesced(ended))
    case Started(_) | Quiesced(_) => (r, caller)
  }

  /** A radio that scans is armed, and nobody is using it yet. */
  predicate Initial(r: Radio) {
    r.callers == [] && !r.cancelRefused && (r.scanning ==> r.armed)
  }

  ghost function After(start: Radio, run: seq<Move>): Radio {
    if run == [] then start else Do(After(start, run[..|run| - 1]), run[|run| - 1])
  }

  ghost predicate SomebodyMinds(r: Radio) {
    exists i :: 0 <= i < |r.callers| && r.callers[i].Minds()
  }

  ghost predicate SomebodyWasTold(r: Radio) {
    exists i :: 0 <= i < |r.callers| && r.callers[i].ToldOfRefusal()
  }

  /** A scan that nothing wants and the stack never refused to stop is minded by somebody, a refusal is
      never kept from everybody, and any teardown under way has disarmed. */
  ghost predicate Inv(r: Radio) {
    && (r.scanning && !r.armed && !r.cancelRefused ==> SomebodyMinds(r))
    && (r.cancelRefused ==> SomebodyWasTold(r))
    && (forall i :: 0 <= i < |r.callers| && r.callers[i].Disarmed() ==> !r.armed)
  }

  /** Whoever minded the scan and did not just move still minds it. */
  lemma StillMinded(r: Radio, after: Radio, i: nat, next: Caller)
    requires i < |r.callers| && after.callers == r.callers[i := next]
    requires next.Minds() || (SomebodyMinds(r) && !r.callers[i].Minds())
    ensures SomebodyMinds(after)
  {
    if next.Minds() {
      assert after.callers[i].Minds();
    } else {
      var k :| 0 <= k < |r.callers| && r.callers[k].Minds();
      assert after.callers[k].Minds();
    }
  }

  /** Nobody takes back what it told its caller. */
  lemma StillTold(r: Radio, after: Radio, i: nat, next: Caller)
    requires i < |r.callers| && after.callers == r.callers[i := next]
    requires next.ToldOfRefusal() || (SomebodyWasTold(r) && !r.callers[i].ToldOfRefusal())
    ensures SomebodyWasTold(after)
  {
    if next.ToldOfRefusal() {
      assert after.callers[i].ToldOfRefusal();
    } else {
      var k :| 0 <= k < |r.callers| && r.callers[k].ToldOfRefusal();
      assert after.callers[k].ToldOfRefusal();
    }
  }

  /** What a step has to say about the scan it leaves, the refusal it met and the reconnect. */
  lemma StepKeeps(r: Radio, caller: Caller, accepted: bool, ended: Termination, after: Radio, next: Caller)
    requires Step(r, caller, accepted, ended) == (after, next)
    ensures after.armed ==> r.armed && (next.Disarmed() ==> caller.Disarmed())
    ensures after.scanning && !after.armed && !after.cancelRefused && !next.Minds() ==>
              r.scanning && !r.armed && !r.cancelRefused && !caller.Minds()
    ensures after.cancelRefused && !next.ToldOfRefusal() ==> r.cancelRefused && !caller.ToldOfRefusal()
  {
  }

  lemma AccessKeeps(r: Radio, i: nat, accepted: bool, ended: Termination)
    requires Inv(r) && i < |r.callers|
    ensures Inv(Access(r, i, accepted, ended))
  {
    var (stack, next) := Step(r, r.callers[i], accepted, ended);
    var after := Access(r, i, accepted, ended);
    StepKeeps(r, r.callers[i], accepted, ended, stack, next);
    if after.scanning && !after.armed && !after.cancelRefused {
      StillMinded(r, after, i, next);
    }
    if after.cancelRefused {
      StillTold(r, after, i, next);
    }
  }

  lemma ArrivalKeeps(r: Radio, quiesce: bool)
    requires Inv(r)
    ensures Inv(Do(r, Arrives(quiesce)))
  {
    var after := Do(r, Arrives(quiesce));
    if SomebodyMinds(r) {
      var k :| 0 <= k < |r.callers| && r.callers[k].Minds();
      assert after.callers[k].Minds();
    }
    if SomebodyWasTold(r) {
      var k :| 0 <= k < |r.callers| && r.callers[k].ToldOfRefusal();
      assert after.callers[k].ToldOfRefusal();
    }
  }

  lemma MoveKeeps(r: Radio, m: Move)
    requires Inv(r)
    ensures Inv(Do(r, m))
  {
    match m
    case Turn(i, accepted, ended) =>
      if i < |r.callers| {
        AccessKeeps(r, i, accepted, ended);
      }
    case Connects(_) =>
    case Arrives(quiesce) =>
      ArrivalKeeps(r, quiesce);
  }

  /** A move that asks the stack to stop a scan and is refused. */
  predicate CancelRefusedBy(r: Radio, m: Move) {
    m.Turn? && !m.accepted && m.i < |r.callers| && (r.callers[m.i].TakeBack? || r.callers[m.i].CancelScan?)
  }

  lemma {:induction false} RunKeeps(start: Radio, run: seq<Move>)
    requires Initial(start)
    ensures Inv(After(start, run))
  {
    if run != [] {
      RunKeeps(start, run[..|run| - 1]);
      MoveKeeps(After(start, run[..|run| - 1]), run[|run| - 1]);
    }
  }

  /** In every interleaving of any number of starts and teardowns, once all have returned and one was
      a teardown, a scan is running only if the stack refused to stop a scan, and then some caller was
      told so.  Being refused over a connection or a session excuses no scan. */
  lemma NoScanOutlivesItsTeardown(start: Radio, run: seq<Move>, teardown: nat)
    requires Initial(start)
    requires forall i :: 0 <= i < |After(start, run).callers| ==> After(start, run).callers[i].Returned()
    requires teardown < |After(start, run).callers| && After(start, run).callers[teardown].Quiesced?
    ensures !After(start, run).armed
    ensures After(start, run).scanning ==> After(start, run).cancelRefused && SomebodyWasTold(After(start, run))
  {
    RunKeeps(start, run);
    var r := After(start, run);
    assert r.callers[teardown].Disarmed();
    assert forall i :: 0 <= i < |r.callers| && r.callers[i].Returned() ==> !r.callers[i].Minds();
  }

  ghost predicate RefusedAt(start: Radio, run: seq<Move>, k: nat) {
    k < |run| && CancelRefusedBy(After(start, run[..k]), run[k])
  }

  lemma MoveRemembers(r: Radio, m: Move)
    ensures Do(r, m).cancelRefused == (r.cancelRefused || CancelRefusedBy(r, m))
  {
  }

  lemma RefusedEarlier(start: Radio, run: seq<Move>, n: nat)
    requires n <= |run|
    ensures forall k: nat :: k < n ==> RefusedAt(start, run[..n], k) == RefusedAt(start, run, k)
  {
    assert forall k: nat :: k < n ==> run[..n][..k] == run[..k];
  }

  /** The flag says what its name says: it is up exactly once the stack has refused to stop a scan. */
  lemma {:induction false} RefusalHasItsCancel(start: Radio, run: seq<Move>)
    requires Initial(start)
    ensures After(start, run).cancelRefused <==> exists k: nat :: RefusedAt(start, run, k)
  {
    if run != [] {
      var n := |run| - 1;
      RefusalHasItsCancel(start, run[..n]);
      RefusedEarlier(start, run, n);
      MoveRemembers(After(start, run[..n]), run[n]);
      assert RefusedAt(start, run, n) == CancelRefusedBy(After(start, run[..n]), run[n]);
      assert forall k: nat :: RefusedAt(start, run, k) ==> k == n || RefusedAt(start, run[..n], k);
      assert forall k: nat :: RefusedAt(start, run[..n], k) ==> RefusedAt(start, run, k);
    }
  }

  // ---------------------------------------------------------------------------
  // One caller, undisturbed.

  /** What the stack answers one caller. */
  datatype Answers = Answers(begin: bool, cancelScan: bool, cancelConnect: bool, ended: Termination)

  predicate Accepts(a: Answers, caller: Caller) {
    match caller
    case Begin => a.begin
    case TakeBack | CancelScan => a.cancelScan
    case CancelConnect => a.cancelConnect
    case _ => true
  }

  /** A caller goes on for `n` accesses with nobody in between. */
  function Alone(r: Radio, caller: Caller, a: Answers, n: nat): (Radio, Caller)
    decreases n
  {
    if n == 0 then (r, caller)
    else
      var (after, next) := Step(r, caller, Accepts(a, caller), a.ended);
      Alone(after, next, a, n - 1)
  }

  lemma AloneStep(r: Radio, caller: Caller, a: Answers, n: nat, after: Radio, next: Caller)
    requires n > 0 && Step(r, caller, Accepts(a, caller), a.ended) == (after, next)
    ensures Alone(r, caller, a, n) == Alone(after, next, a, n - 1)
  {
  }

  /** A start that nobody disturbs asks for a scan exactly if one is wanted and none runs, and ends with it
      running exactly if the stack took it. */
  lemma StartScans(r: Radio, a: Answers)
    ensures Alone(r, ReadArmed, a, 4) ==
            if !r.armed || r.scanning then (r, Started(Skipped))
            else if !a.begin then (r, Started(Refused))
            else (r.(scanning := true), Started(Scanning))
  {
    var s1, c1 := r, if r.armed then ReadIdle else Started(Skipped);
    AloneStep(r, ReadArmed, a, 4, s1, c1);
    var c2 := if c1.Started? then c1 else if r.scanning then Started(Skipped) else Begin;
    AloneStep(s1, c1, a, 3, s1, c2);
    var s3 := if c2.Begin? && a.begin then r.(scanning := true) else r;
    var c3 := if !c2.Begin? then c2 else if a.begin then Recheck else Started(Refused);
    AloneStep(s1, c2, a, 2, s3, c3);
    AloneStep(s3, c3, a, 1, s3, if c3.Recheck? then Started(Scanning) else c3);
  }

  /** One that has begun and finds the reconnect gone takes its scan back. */
  lemma StartTakesBack(r: Radio, a: Answers)
    requires !r.armed
    ensures Alone(r, Recheck, a, 2) ==
            if a.cancelScan then (r.(scanning := false), Started(Stopped))
            else (r.(cancelRefused := true), Started(StopOwed))
  {
    AloneStep(r, Recheck, a, 2, r, TakeBack);
    AloneStep(r, TakeBack, a, 1, if a.cancelScan then r.(scanning := false) else r.(cancelRefused := true),
              if a.cancelScan then Started(Stopped) else Started(StopOwed));
  }

  /** A teardown that nobody disturbs disarms, stops the scan, then the pending connection, and answers with
      the session's own end; the first refusal ends it. */
  lemma TeardownQuiesces(r: Radio, a: Answers)
    ensures var quiet := r.(armed := false);
            Alone(r, Disarm, a, 6) ==
            if r.scanning && !a.cancelScan then (quiet.(cancelRefused := true), Quiesced(TerminationRefused))
            else if r.connecting && !a.cancelConnect then (quiet.(scanning := false), Quiesced(TerminationRefused))
            else (quiet.(scanning := false, connecting := false), Quiesced(a.ended))
  {
    var s1 := r.(armed := false);
    AloneStep(r, Disarm, a, 6, s1, ReadScan);
    AloneStep(s1, ReadScan, a, 5, s1, if r.scanning then CancelScan else ReadConnecting);
    if r.scanning && !a.cancelScan {
      QuiescedStays(s1, CancelScan, a, 4, s1.(cancelRefused := true), TerminationRefused);
    } else {
      var s2 := s1.(scanning := false);
      if r.scanning {
        AloneStep(s1, CancelScan, a, 4, s2, ReadConnecting);
        FromConnecting(s2, a, 3);
      } else {
        assert s1 == s2;
        FromConnecting(s2, a, 4);
      }
    }
  }

  lemma FromConnecting(r: Radio, a: Answers, n: nat)
    requires n >= 3
    ensures Alone(r, ReadConnecting, a, n) ==
            if r.connecting && !a.cancelConnect then (r, Quiesced(TerminationRefused))
            else (r.(connecting := false), Quiesced(a.ended))
  {
    AloneStep(r, ReadConnecting, a, n, r, if r.connecting then CancelConnect else EndSession);
    var quiet := r.(connecting := false);
    if !r.connecting {
      assert quiet == r;
      QuiescedStays(r, EndSession, a, n - 1, r, a.ended);
    } else if a.cancelConnect {
      AloneStep(r, CancelConnect, a, n - 1, quiet, EndSession);
      QuiescedStays(quiet, EndSession, a, n - 2, quiet, a.ended);
    } else {
      QuiescedStays(r, CancelConnect, a, n - 1, r, TerminationRefused);
    }
  }

  lemma {:induction false} QuiescedStays(r: Radio, caller: Caller, a: Answers, n: nat, after: Radio, how: Termination)
    requires n > 0 && Step(r, caller, Accepts(a, caller), a.ended) == (after, Quiesced(how))
    ensures Alone(r, caller, a, n) == (after, Quiesced(how))
    decreases n
  {
    AloneStep(r, caller, a, n, after, Quiesced(how));
    if n > 1 {
      QuiescedStays(after, Quiesced(how), a, n - 1, after, how);
    }
  }

  /** A connection that comes up ends the scan; one that goes leaves it. */
  lemma ConnectionEndsScan(r: Radio, up: bool)
    ensures Do(r, Connects(up)) == r.(connecting := up, scanning := if up then false else r.scanning)
  {
  }

  const ARMED := Radio(true, false, false, false, [])

  /** A start that has read the gate armed and found no scan, a whole teardown, then the rest of the
      start, whose cancel is refused. */
  const RACE: seq<Move> := [
    Arrives(false), Turn(0, true, Absent), Turn(0, true, Absent), Arrives(true),
    Turn(1, true, Absent), Turn(1, true, Absent), Turn(1, true, Absent), Turn(1, true, Absent),
    Turn(0, true, Absent), Turn(0, true, Absent), Turn(0, false, Absent)]

  lemma Extend(start: Radio, race: seq<Move>, r: Radio, n: nat, next: Radio)
    requires n < |race| && After(start, race[..n]) == r && Do(r, race[n]) == next
    ensures After(start, race[..n + 1]) == next
  {
    assert race[..n + 1][..n] == race[..n];
  }

  lemma RaceBegins(start: Radio, race: seq<Move>)
    requires start == ARMED && race == RACE
    ensures After(start, race[..4]) == Radio(true, false, false, false, [Begin, Disarm])
  {
    Extend(start, race, start, 0, Radio(true, false, false, false, [ReadArmed]));
    Extend(start, race, Radio(true, false, false, false, [ReadArmed]), 1, Radio(true, false, false, false, [ReadIdle]));
    Extend(start, race, Radio(true, false, false, false, [ReadIdle]), 2, Radio(true, false, false, false, [Begin]));
    Extend(start, race, Radio(true, false, false, false, [Begin]), 3,
           Radio(true, false, false, false, [Begin, Disarm]));
  }

  lemma RaceDisarms(start: Radio, race: seq<Move>)
    requires start == ARMED && race == RACE
    ensures After(start, race[..6]) == Radio(false, false, false, false, [Begin, ReadConnecting])
  {
    RaceBegins(start, race);
    Extend(start, race, Radio(true, false, false, false, [Begin, Disarm]), 4,
           Radio(false, false, false, false, [Begin, ReadScan]));
    Extend(start, race, Radio(false, false, false, false, [Begin, ReadScan]), 5,
           Radio(false, false, false, false, [Begin, ReadConnecting]));
  }

  lemma RaceTearsDown(start: Radio, race: seq<Move>)
    requires start == ARMED && race == RACE
    ensures After(start, race[..8]) == Radio(false, false, false, false, [Begin, Quiesced(Absent)])
  {
    RaceDisarms(start, race);
    Extend(start, race, Radio(false, false, false, false, [Begin, ReadConnecting]), 6,
           Radio(false, false, false, false, [Begin, EndSession]));
    Extend(start, race, Radio(false, false, false, false, [Begin, EndSession]), 7,
           Radio(false, false, false, false, [Begin, Quiesced(Absent)]));
  }

  /** The exception is real, and a start that loses the race is the one to hit it. */
  lemma RefusedCancelLeavesScan(start: Radio, race: seq<Move>)
    requires start == ARMED && race == RACE
    ensures After(start, race) == Radio(false, true, false, true, [Started(StopOwed), Quiesced(Absent)])
  {
    RaceTearsDown(start, race);
    Extend(start, race, Radio(false, false, false, false, [Begin, Quiesced(Absent)]), 8,
           Radio(false, true, false, false, [Recheck, Quiesced(Absent)]));
    Extend(start, race, Radio(false, true, false, false, [Recheck, Quiesced(Absent)]), 9,
           Radio(false, true, false, false, [TakeBack, Quiesced(Absent)]));
    Extend(start, race, Radio(false, true, false, false, [TakeBack, Quiesced(Absent)]), 10,
           Radio(false, true, false, true, [Started(StopOwed), Quiesced(Absent)]));
    assert race[..11] == race;
  }

  // ---------------------------------------------------------------------------
  // Ending the session.

  class SessionOwner {
    var generation: nat
    var live: bool
    var connection: nat

    constructor (generation: nat, connection: nat)
      ensures this.generation == generation && this.connection == connection && live
    {
      this.generation, this.connection, live := generation, connection, true;
    }

    /** A named session is ended only while it is the live one. */
    method Ended(seen: nat)
      modifies `live
      ensures live == (old(live) && generation != seen)
    {
      if live && generation == seen {
        live := false;
      }
    }

    method PeerArriving()
      modifies `generation, `live
      ensures generation == old(generation) + 1 && live
    {
      generation, live := generation + 1, true;
    }
  }

  /** The radio is asked outside the session lock, so a new session may arrive meanwhile.  The captured
      one is stale afterwards exactly when the radio did not refuse, another session came, or it
      was not live to begin with; a session that replaced it stays live on every path. */
  method TerminateForgetSession(owner: SessionOwner, answer: Termination, replaced: bool, noConnection: nat)
      returns (result: Termination)
    requires answer != Absent
    modifies owner
    ensures result == Absent <==> old(owner.connection) == noConnection
    ensures result != Absent ==> result == answer
    ensures owner.live && owner.generation == old(owner.generation) <==>
            result == TerminationRefused && !replaced && old(owner.live)
    ensures replaced ==> owner.live && owner.generation == old(owner.generation) + 1
    ensures !replaced ==> owner.generation == old(owner.generation)
  {
    var connection, generation := owner.connection, owner.generation;
    if replaced {
      owner.PeerArriving();
    }
    if connection == noConnection {
      owner.Ended(generation);
      return Absent;
    }
    if answer != TerminationRefused {
      owner.Ended(generation);
    }
    return answer;
  }
}

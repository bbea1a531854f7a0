/** Simulators that share one socket path (sim/debug_server.cpp), one system call at a time: the look,
    the claim that the kernel drops with its holder, the probe, the removal, the bind, and the close.
    Any of them can be killed anywhere, any call can fail, and inode numbers mean nothing. */
module SocketClaim {
  import opened Wrappers

  /** What the path names: somebody's socket, whether or not it is still open, or something else. */
  datatype Entry = Socket(id: nat, ino: nat) | Other

  datatype Pc =
    | Idle | Early | AwaitClaim
    | MakeSocket | Look | Probe | Recheck | Unlink | Bind | Record | Chmod | Listen | NonBlock | Publish
    | Fail | Undo | UndoLook | UndoUnlink | Unclaim
    | Serving | AwaitClose | CloseQuietly | Dead
  {
    /** Inside the claim. */
    predicate Claims() {
      && !this.Idle? && !this.Early? && !this.AwaitClaim? && !this.Serving? && !this.AwaitClose?
      && !this.CloseQuietly? && !this.Dead?
    }

    /** It has bound its socket and not closed it. */
    predicate Owns() {
      this.Record? || this.Chmod? || this.Listen? || this.NonBlock? || this.Publish? || this.Undo?
      || this.Serving? || this.AwaitClose? || this.CloseQuietly?
    }

    /** It has established that the name is a socket nobody serves, and means to remove it. */
    predicate Clears() {
      this.Recheck? || this.Unlink? || this.UndoUnlink?
    }
  }

  /** A process: its open socket, whether that listens, the inode it looked at, the one it recorded. */
  datatype Process = Process(pc: Pc, socket: Option<nat>, listening: bool, seen: nat, ino: nat)

  datatype World = World(path: Option<Entry>, claim: Option<nat>, sockets: nat, processes: seq<Process>)

  datatype Move = Go(p: nat, ok: bool, ino: nat) | Kill(p: nat) | Start

  function Do(w: World, m: Move): World {
    match m
    case Start => w.(processes := w.processes + [Process(Idle, None, false, 0, 0)])
    case Kill(p) => if p < |w.processes| then Die(w, p) else w
    case Go(p, ok, ino) =>
      if p >= |w.processes| then w
      else if w.processes[p].pc.Claims() then Claimed(w, p, ok, ino)
      else Outside(w, p, ok)
  }

  function To(w: World, p: nat, next: Process): World
    requires p < |w.processes|
  {
    w.(processes := w.processes[p := next])
  }

  /** The kernel closes everything, and with it the claim. */
  function Die(w: World, p: nat): World
    requires p < |w.processes|
  {
    To(w.(claim := if w.claim == Some(p) then None else w.claim), p, Process(Dead, None, false, 0, 0))
  }

  function Outside(w: World, p: nat, ok: bool): World
    requires p < |w.processes|
  {
    var q := w.processes[p];
    match q.pc
    case Idle => To(w, p, q.(pc := Early))
    case Early => To(w, p, q.(pc := if w.path == Some(Other) then Idle else AwaitClaim))
    case AwaitClaim =>
      if !ok then To(w, p, q.(pc := Idle))
      else if w.claim == None then To(w.(claim := Some(p)), p, q.(pc := MakeSocket))
      else w
    case Serving => To(w, p, q.(pc := AwaitClose))
    case AwaitClose =>
      if !ok then To(w, p, q.(pc := CloseQuietly))
      else if w.claim == None then To(w.(claim := Some(p)), p, q.(pc := Undo))
      else w
    case CloseQuietly => To(w, p, Process(Idle, None, false, 0, 0))
    case _ => w
  }

  /** Whether a connection to what the path names would be taken. */
  predicate Answers(w: World) {
    w.path.Some? && w.path.value.Socket?
    && exists q :: 0 <= q < |w.processes| && w.processes[q].listening && w.processes[q].socket == Some(w.path.value.id)
  }

  function Claimed(w: World, p: nat, ok: bool, ino: nat): World
    requires p < |w.processes|
  {
    if w.processes[p].pc.Owns() || w.processes[p].pc.UndoLook? || w.processes[p].pc.UndoUnlink?
    then Publishing(w, p, ok) else Recovering(w, p, ok, ino)
  }

  /** From the claim to the bind. */
  function Recovering(w: World, p: nat, ok: bool, ino: nat): World
    requires p < |w.processes|
  {
    var q := w.processes[p];
    match q.pc
    case MakeSocket =>
      if ok then To(w.(sockets := w.sockets + 1), p, q.(pc := Look, socket := Some(w.sockets)))
      else To(w, p, q.(pc := Unclaim))
    case Look =>
      if w.path == None then To(w, p, q.(pc := Bind))
      else if w.path.value.Other? then To(w, p, q.(pc := Fail))
      else To(w, p, q.(pc := Probe, seen := w.path.value.ino))
    case Probe => To(w, p, q.(pc := if Answers(w) || !ok then Fail else Recheck))
    case Recheck =>
      To(w, p, q.(pc := if w.path.Some? && w.path.value.Socket? && w.path.value.ino == q.seen then Unlink else Fail))
    case Unlink => if ok then To(w.(path := None), p, q.(pc := Bind)) else To(w, p, q.(pc := Fail))
    case Bind =>
      if w.path == None && ok && q.socket.Some?
      then To(w.(path := Some(Socket(q.socket.value, ino))), p, q.(pc := Record))
      else To(w, p, q.(pc := Fail))
    case Fail => To(w, p, q.(pc := Unclaim, socket := None))
    case Unclaim => To(w.(claim := None), p, Process(Idle, None, false, 0, 0))
    case _ => w
  }

  /** From the bind to listening, and the way back: close first, then remove the name if it is ours. */
  function Publishing(w: World, p: nat, ok: bool): World
    requires p < |w.processes|
  {
    var q := w.processes[p];
    match q.pc
    case Record =>
      To(w, p, q.(pc := Chmod, ino := if w.path.Some? && w.path.value.Socket? then w.path.value.ino else 0))
    case Chmod => To(w, p, q.(pc := if ok then Listen else Undo))
    case Listen => if ok then To(w, p, q.(pc := NonBlock, listening := true)) else To(w, p, q.(pc := Undo))
    case NonBlock => To(w, p, q.(pc := if ok then Publish else Undo))
    case Publish => To(w.(claim := None), p, q.(pc := Serving))
    case Undo => To(w, p, q.(pc := UndoLook, socket := None, listening := false))
    case UndoLook =>
      To(w, p, q.(pc := if w.path.Some? && w.path.value.Socket? && w.path.value.ino == q.ino then UndoUnlink
                  else Unclaim))
    case UndoUnlink => To(if ok then w.(path := None) else w, p, q.(pc := Unclaim))
    case _ => w
  }

  ghost function After(start: World, run: seq<Move>): World {
    if run == [] then start else Do(After(start, run[..|run| - 1]), run[|run| - 1])
  }

  // ---------------------------------------------------------------------------
  // The invariant.

  /** What one process may rely on, whatever the others do. */
  ghost predicate Sound(w: World, p: nat)
    requires p < |w.processes|
  {
    var q := w.processes[p];
    && (q.pc.Claims() <==> w.claim == Some(p))
    && (q.socket.Some? ==> q.socket.value < w.sockets)
    && (q.listening ==> q.pc.Owns())
    && (q.pc.Owns() ==> q.socket.Some? && w.path.Some? && w.path.value.Socket? && w.path.value.id == q.socket.value)
    && (q.pc.Serving? || q.pc.AwaitClose? || q.pc.CloseQuietly? || q.pc.NonBlock? || q.pc.Publish? ==> q.listening)
    && (q.pc.Probe? || q.pc.Recheck? || q.pc.Unlink? ==>
        w.path.Some? && w.path.value.Socket? && w.path.value.ino == q.seen)
    && (q.pc.Clears() || q.pc.UndoLook? ==> w.path.Some? && w.path.value.Socket? && Unowned(w))
    && ((q.pc.Owns() && !q.pc.Record?) || q.pc.UndoLook? ==> w.path.value.ino == q.ino)
    && (q.pc.Bind? ==> w.path == None)
    && (q.pc.Look? || q.pc.Probe? || q.pc.Recheck? || q.pc.Unlink? || q.pc.Bind? ==> q.socket.Some?)
  }

  ghost predicate Unowned(w: World) {
    forall q :: 0 <= q < |w.processes| ==> !w.processes[q].pc.Owns()
  }

  /** Sockets are not shared, and the path names one that exists. */
  ghost predicate Distinct(w: World) {
    && (w.path.Some? && w.path.value.Socket? ==> w.path.value.id < w.sockets)
    && (w.claim.Some? ==> w.claim.value < |w.processes|)
    && forall p, q :: 0 <= p < q < |w.processes| && w.processes[p].socket.Some? ==>
       w.processes[p].socket != w.processes[q].socket
  }

  ghost predicate Inv(w: World) {
    Distinct(w) && forall p :: 0 <= p < |w.processes| ==> Sound(w, p)
  }

  /** What a move of `p` may do to the others: take or drop the claim, change the name only under the
      claim while nobody owns it, and come to own a name only under the claim. */
  ghost predicate Considerate(w: World, after: World, p: nat)
    requires p < |w.processes| == |after.processes|
  {
    && after.processes == w.processes[p := after.processes[p]] && after.sockets >= w.sockets
    && (after.claim == w.claim || (w.claim == None && after.claim == Some(p))
        || (w.claim == Some(p) && after.claim == None))
    && (after.path == w.path || (w.claim == Some(p) && Unowned(w)))
    && (after.processes[p].pc.Owns() ==> w.processes[p].pc.Owns() || w.claim == Some(p))
  }

  lemma OthersKeep(w: World, after: World, p: nat, r: nat)
    requires Inv(w) && p < |w.processes| == |after.processes| && Considerate(w, after, p)
    requires r < |w.processes| && r != p
    ensures Sound(after, r)
  {
    assert Sound(w, r) && Sound(w, p);
    if w.processes[r].pc.Clears() || w.processes[r].pc.UndoLook? {
      assert Unowned(w);
    }
  }

  lemma InvKept(w: World, after: World, p: nat)
    requires Inv(w) && p < |w.processes| == |after.processes| && Considerate(w, after, p)
    requires Sound(after, p) && Distinct(after)
    ensures Inv(after)
  {
    forall r | 0 <= r < |after.processes| ensures Sound(after, r) {
      if r != p {
        OthersKeep(w, after, p, r);
      }
    }
  }

  /** A new socket is nobody's, and an old one stays its owner's. */
  lemma DistinctKept(w: World, after: World, p: nat)
    requires Inv(w) && p < |w.processes| == |after.processes|
    requires after.processes == w.processes[p := after.processes[p]] && after.sockets >= w.sockets
    requires after.processes[p].socket == w.processes[p].socket || after.processes[p].socket == None
             || (after.processes[p].socket == Some(w.sockets) && after.sockets > w.sockets)
    requires after.path.Some? && after.path.value.Socket? ==> after.path.value.id < after.sockets
    requires after.claim.Some? ==> after.claim.value < |w.processes|
    ensures Distinct(after)
  {
    forall a, b | 0 <= a < b < |after.processes| && after.processes[a].socket.Some?
      ensures after.processes[a].socket != after.processes[b].socket
    {
      assert Sound(w, a) && Sound(w, b);
    }
  }

  lemma OutsideKeeps(w: World, p: nat, ok: bool)
    requires Inv(w) && p < |w.processes| && !w.processes[p].pc.Claims()
    ensures Inv(Outside(w, p, ok))
  {
    assert Sound(w, p);
    var after := Outside(w, p, ok);
    DistinctKept(w, after, p);
    InvKept(w, after, p);
  }

  lemma DieKeeps(w: World, p: nat)
    requires Inv(w) && p < |w.processes|
    ensures Inv(Die(w, p))
  {
    assert Sound(w, p);
    DistinctKept(w, Die(w, p), p);
    InvKept(w, Die(w, p), p);
  }

  /** Under the claim, a socket that does not answer is one that nobody owns. */
  lemma SilentIsUnowned(w: World, p: nat)
    requires Inv(w) && p < |w.processes| && w.processes[p].pc.Probe? && !Answers(w)
    ensures Unowned(w)
  {
    assert Sound(w, p);
    forall q | 0 <= q < |w.processes| ensures !w.processes[q].pc.Owns() {
      assert Sound(w, q);
    }
  }

  /** Nobody else owns the name while its owner does. */
  lemma OneOwner(w: World, p: nat)
    requires Inv(w) && p < |w.processes| && w.processes[p].pc.Owns()
    ensures forall q :: 0 <= q < |w.processes| && q != p ==> !w.processes[q].pc.Owns()
  {
    assert Sound(w, p);
    forall q | 0 <= q < |w.processes| && q != p ensures !w.processes[q].pc.Owns() {
      assert Sound(w, q);
    }
  }

  lemma RecoveringKeeps(w: World, p: nat, ok: bool, ino: nat)
    requires Inv(w) && p < |w.processes| && w.processes[p].pc.Claims()
    requires !w.processes[p].pc.Owns() && !w.processes[p].pc.UndoLook? && !w.processes[p].pc.UndoUnlink?
    ensures Inv(Recovering(w, p, ok, ino))
  {
    if w.processes[p].pc.Bind? {
      BindKeeps(w, p, ok, ino);
      return;
    }
    assert Sound(w, p);
    var after := Recovering(w, p, ok, ino);
    if w.processes[p].pc.Probe? && after.processes[p].pc.Recheck? {
      SilentIsUnowned(w, p);
    }
    DistinctKept(w, after, p);
    InvKept(w, after, p);
  }

  /** A bind takes a name nobody has, for a socket of its own. */
  lemma BindKeeps(w: World, p: nat, ok: bool, ino: nat)
    requires Inv(w) && p < |w.processes| && w.processes[p].pc.Bind?
    ensures Inv(Recovering(w, p, ok, ino))
  {
    assert Sound(w, p);
    var after := Recovering(w, p, ok, ino);
    NamelessIsUnowned(w);
    DistinctKept(w, after, p);
    InvKept(w, after, p);
  }

  lemma NamelessIsUnowned(w: World)
    requires Inv(w)
    ensures w.path == None ==> Unowned(w)
  {
    forall q | w.path == None && 0 <= q < |w.processes| ensures !w.processes[q].pc.Owns() {
      assert Sound(w, q);
    }
  }

  lemma PublishingKeeps(w: World, p: nat, ok: bool)
    requires Inv(w) && p < |w.processes| && w.processes[p].pc.Claims()
    requires w.processes[p].pc.Owns() || w.processes[p].pc.UndoLook? || w.processes[p].pc.UndoUnlink?
    ensures Inv(Publishing(w, p, ok))
  {
    assert Sound(w, p);
    var after := Publishing(w, p, ok);
    if w.processes[p].pc.Undo? {
      OneOwner(w, p);
    }
    DistinctKept(w, after, p);
    InvKept(w, after, p);
  }

  lemma StartKeeps(w: World)
    requires Inv(w)
    ensures Inv(Do(w, Start))
  {
    var after := Do(w, Start);
    forall p | 0 <= p < |after.processes| ensures Sound(after, p) {
      if p < |w.processes| {
        assert Sound(w, p);
      }
    }
  }

  lemma MoveKeeps(w: World, m: Move)
    requires Inv(w)
    ensures Inv(Do(w, m))
  {
    match m
    case Start => StartKeeps(w);
    case Kill(p) => if p < |w.processes| { DieKeeps(w, p); }
    case Go(p, ok, ino) =>
      if p < |w.processes| {
        if !w.processes[p].pc.Claims() {
          OutsideKeeps(w, p, ok);
        } else if w.processes[p].pc.Owns() || w.processes[p].pc.UndoLook? || w.processes[p].pc.UndoUnlink? {
          PublishingKeeps(w, p, ok);
        } else {
          RecoveringKeeps(w, p, ok, ino);
        }
      }
  }

  /** Nobody has started yet, and the path names whatever earlier lives left there. */
  predicate Initial(w: World) {
    w.claim == None && w.processes == [] && (w.path.Some? && w.path.value.Socket? ==> w.path.value.id < w.sockets)
  }

  lemma {:induction false} AlwaysSound(start: World, run: seq<Move>)
    requires Initial(start)
    ensures Inv(After(start, run))
  {
    if run != [] {
      AlwaysSound(start, run[..|run| - 1]);
      MoveKeeps(After(start, run[..|run| - 1]), run[|run| - 1]);
    }
  }

  /** In every run, for as long as a simulator is listening the path names its own socket; so there is
      never more than one of them, and whoever connects reaches it. */
  lemma ListenerHasItsPath(start: World, run: seq<Move>, p: nat)
    requires Initial(start) && p < |After(start, run).processes| && After(start, run).processes[p].listening
    ensures var w := After(start, run);
            && w.processes[p].socket.Some? && w.path.Some? && w.path.value.Socket?
               && w.path.value.id == w.processes[p].socket.value
            && Answers(w)
            && forall q :: 0 <= q < |w.processes| && w.processes[q].listening ==> q == p
  {
    AlwaysSound(start, run);
    var w := After(start, run);
    assert Sound(w, p);
    forall q | 0 <= q < |w.processes| && w.processes[q].listening ensures q == p {
      assert Sound(w, q);
      if q != p {
        OneOwner(w, p);
      }
    }
  }

  /** Something that is not a socket is never replaced or removed. */
  lemma {:induction false} OtherThingsStay(start: World, run: seq<Move>)
    requires Initial(start) && start.path == Some(Other)
    ensures After(start, run).path == Some(Other)
  {
    if run != [] {
      var w := After(start, run[..|run| - 1]);
      OtherThingsStay(start, run[..|run| - 1]);
      AlwaysSound(start, run[..|run| - 1]);
      match run[|run| - 1]
      case Start =>
      case Kill(p) =>
      case Go(p, ok, ino) => if p < |w.processes| { assert Sound(w, p); }
    }
  }

  // ---------------------------------------------------------------------------
  // Recovery.

  /** How many calls a start that nothing goes wrong for has still to make, with a stale name in its way. */
  function Left(pc: Pc): nat {
    match pc
    case Idle => 14
    case Early => 13
    case AwaitClaim => 12
    case MakeSocket => 11
    case Look => 10
    case Probe => 9
    case Recheck => 8
    case Unlink => 7
    case Bind => 6
    case Record => 5
    case Chmod => 4
    case Listen => 3
    case NonBlock => 2
    case Publish => 1
    case _ => 0
  }

  /** `p` is on its way to listening, and nobody else has, or is in the way of, the path. */
  ghost predicate Unopposed(w: World, p: nat) {
    && Inv(w) && p < |w.processes| && w.path != Some(Other)
    && (forall q :: 0 <= q < |w.processes| && q != p ==> !w.processes[q].pc.Owns())
    && (w.claim == None || w.claim == Some(p))
    && (Left(w.processes[p].pc) > 0 || w.processes[p].pc.Serving?)
  }

  /** A start makes all its calls, in their order, leaving out only the removal of a name that is not there. */
  lemma Advances(w: World, p: nat, ino: nat)
    requires Unopposed(w, p) && !w.processes[p].pc.Serving?
    ensures var after := Do(w, Go(p, true, ino));
            && Unopposed(after, p)
            && Left(after.processes[p].pc) ==
               if w.processes[p].pc.Look? && w.path == None then Left(Bind) else Left(w.processes[p].pc) - 1
  {
    MoveKeeps(w, Go(p, true, ino));
    assert Sound(w, p);
    if w.processes[p].pc.Probe? {
      NobodyListens(w, p);
    }
  }

  lemma NobodyListens(w: World, p: nat)
    requires Unopposed(w, p) && !w.processes[p].pc.Owns()
    ensures !Answers(w)
  {
    forall q | 0 <= q < |w.processes| ensures !w.processes[q].listening {
      assert Sound(w, q);
    }
  }

  /** Once whoever had the path is dead or has closed it, a new start has nothing in its way. */
  lemma NewcomerIsUnopposed(start: World, run: seq<Move>)
    requires Initial(start) && After(start, run).claim == None && After(start, run).path != Some(Other)
    requires Unowned(After(start, run))
    ensures var p := |After(start, run).processes|;
            Unopposed(After(start, run + [Start]), p) && Left(After(start, run + [Start]).processes[p].pc) == 14
  {
    assert (run + [Start])[..|run|] == run;
    AlwaysSound(start, run + [Start]);
  }

  /** A path that dead or closed simulators left behind never needs a person: whatever they were in
      the middle of, the next one to start gets it, whichever inode number it is given. */
  lemma {:induction false} StaleNameIsRecovered(start: World, run: seq<Move>, p: nat, ino: nat)
    returns (longer: seq<Move>)
    requires Unopposed(After(start, run), p)
    ensures run <= longer
    ensures var w := After(start, longer); p < |w.processes| && w.processes[p].pc.Serving? && w.processes[p].listening
    decreases Left(After(start, run).processes[p].pc)
  {
    var w := After(start, run);
    assert Sound(w, p);
    if w.processes[p].pc.Serving? {
      return run;
    }
    Advances(w, p, ino);
    var next := run + [Go(p, true, ino)];
    assert next[..|next| - 1] == run;
    longer := StaleNameIsRecovered(start, next, p, ino);
  }

  /** Killing whoever holds the claim leaves nothing that stands in the way. */
  lemma KillFreesTheClaim(w: World, p: nat)
    requires Inv(w) && p < |w.processes| && w.processes[p].pc.Claims()
    ensures Do(w, Kill(p)).claim == None && Do(w, Kill(p)).path == w.path
    ensures !(exists q :: 0 <= q < |w.processes| && q != p && w.processes[q].pc.Claims())
  {
    assert Sound(w, p);
    forall q | 0 <= q < |w.processes| && q != p ensures !w.processes[q].pc.Claims() {
      assert Sound(w, q);
    }
  }

  // ---------------------------------------------------------------------------
  // Closing, and backing out.

  /** `p` makes its next `n` calls, nothing fails and nobody else moves. */
  function GoOn(w: World, p: nat, n: nat): World
    decreases n
  {
    if n == 0 then w else GoOn(Do(w, Go(p, true, 0)), p, n - 1)
  }

  lemma DeadDoNothing(w: World, m: Move, p: nat)
    requires p < |w.processes| && w.processes[p] == Process(Dead, None, false, 0, 0)
    ensures p < |Do(w, m).processes| && Do(w, m).processes[p] == w.processes[p]
  {
  }

  /** The dead do nothing, hold nothing and stay dead. */
  lemma {:induction false} DeadStayDead(start: World, run: seq<Move>, more: seq<Move>, p: nat)
    requires p < |After(start, run).processes| && After(start, run).processes[p] == Process(Dead, None, false, 0, 0)
    ensures p < |After(start, run + more).processes|
    ensures After(start, run + more).processes[p] == Process(Dead, None, false, 0, 0)
  {
    if more == [] {
      assert run + more == run;
    } else {
      DeadStayDead(start, run, more[..|more| - 1], p);
      DeadDoNothing(After(start, run + more[..|more| - 1]), more[|more| - 1], p);
      assert (run + more)[..|run + more| - 1] == run + more[..|more| - 1];
    }
  }

  lemma KilledIsDead(w: World, p: nat)
    requires p < |w.processes|
    ensures Do(w, Kill(p)).processes[p] == Process(Dead, None, false, 0, 0)
  {
  }

  /** `p` is done: not listening, outside the claim, and nothing else changed but the path. */
  ghost predicate Gone(w: World, p: nat, after: World)
    requires p < |w.processes|
  {
    after == w.(path := after.path, claim := None, sockets := after.sockets,
                processes := w.processes[p := Process(Idle, None, false, 0, 0)])
  }

  lemma GoesOn(w: World, p: nat, n: nat)
    requires n > 0
    ensures GoOn(w, p, n) == GoOn(Do(w, Go(p, true, 0)), p, n - 1)
  {
  }

  lemma ToTwice(w: World, p: nat, first: Process, next: Process)
    requires p < |w.processes|
    ensures To(To(w, p, first), p, next) == To(w, p, next)
  {
  }

  /** What was bound is taken down again, whatever inode it has: the name is still its own. */
  lemma UndoLeavesNoName(w: World, p: nat)
    requires Inv(w) && p < |w.processes| && w.processes[p].pc.Undo?
    ensures GoOn(w, p, 4).path == None && Gone(w, p, GoOn(w, p, 4))
  {
    assert Sound(w, p);
    var q := w.processes[p].(socket := None, listening := false);
    var looking, unlinking := To(w, p, q.(pc := UndoLook)), To(w, p, q.(pc := UndoUnlink));
    var bare := w.(path := None);
    GoesOn(w, p, 4);
    assert Do(w, Go(p, true, 0)) == looking;
    ToTwice(w, p, q.(pc := UndoLook), q.(pc := UndoUnlink));
    GoesOn(looking, p, 3);
    assert Do(looking, Go(p, true, 0)) == unlinking;
    ToTwice(bare, p, q.(pc := UndoUnlink), q.(pc := Unclaim));
    GoesOn(unlinking, p, 2);
    assert Do(unlinking, Go(p, true, 0)) == To(bare, p, q.(pc := Unclaim));
    LeavesTheClaim(bare, p, q.(pc := Unclaim));
  }

  lemma LeavesTheClaim(w: World, p: nat, q: Process)
    requires p < |w.processes| && q.pc.Unclaim?
    ensures GoOn(To(w, p, q), p, 1) == To(w.(claim := None), p, Process(Idle, None, false, 0, 0))
  {
    GoesOn(To(w, p, q), p, 1);
    ToTwice(w.(claim := None), p, q, Process(Idle, None, false, 0, 0));
  }

  /** A close that nothing goes wrong for leaves no name behind. */
  lemma CloseLeavesNoName(w: World, p: nat)
    requires Inv(w) && p < |w.processes| && w.processes[p].pc.Serving? && w.claim == None
    ensures GoOn(w, p, 6).path == None && Gone(w, p, GoOn(w, p, 6))
  {
    var w1 := Do(w, Go(p, true, 0));
    var w2 := Do(w1, Go(p, true, 0));
    MoveKeeps(w, Go(p, true, 0));
    MoveKeeps(w1, Go(p, true, 0));
    UndoLeavesNoName(w2, p);
    GoesOn(w, p, 6);
    GoesOn(w1, p, 5);
  }

  /** And in any run at all: whoever looks at the name in order to take it down finds its own. */
  lemma ClosersFindTheirName(start: World, run: seq<Move>, p: nat, ok: bool, ino: nat)
    requires Initial(start) && p < |After(start, run).processes| && After(start, run).processes[p].pc.UndoLook?
    ensures Do(After(start, run), Go(p, ok, ino)).processes[p].pc.UndoUnlink?
  {
    AlwaysSound(start, run);
    assert Sound(After(start, run), p);
  }

  /** A start that a call fails for backs out: it never listens, and what it had bound is taken down. */
  lemma FailedStartBacksOut(w: World, p: nat, ino: nat)
    requires Inv(w) && p < |w.processes|
    ensures var n := Do(w, Go(p, false, ino));
            && (w.processes[p].pc.MakeSocket? ==> Gone(w, p, GoOn(n, p, 1)) && GoOn(n, p, 1).path == w.path)
            && (w.processes[p].pc.Probe? || w.processes[p].pc.Unlink? || w.processes[p].pc.Bind? ==>
                  Gone(w, p, GoOn(n, p, 2)) && GoOn(n, p, 2).path == w.path)
            && (w.processes[p].pc.Chmod? || w.processes[p].pc.Listen? || w.processes[p].pc.NonBlock? ==>
                  Gone(w, p, GoOn(n, p, 4)) && GoOn(n, p, 4).path == None)
  {
    assert Sound(w, p);
    var n := Do(w, Go(p, false, ino));
    MoveKeeps(w, Go(p, false, ino));
    if n.processes[p].pc.Undo? {
      UndoLeavesNoName(n, p);
    } else if n.processes[p].pc.Fail? {
      FailLeaves(n, p);
    } else if n.processes[p].pc.Unclaim? {
      LeavesTheClaim(n, p, n.processes[p]);
      assert To(n, p, n.processes[p]) == n;
    }
  }

  lemma FailLeaves(w: World, p: nat)
    requires p < |w.processes| && w.processes[p].pc.Fail?
    ensures GoOn(w, p, 2).path == w.path && Gone(w, p, GoOn(w, p, 2))
  {
    GoesOn(w, p, 2);
    LeavesTheClaim(w, p, w.processes[p].(pc := Unclaim, socket := None));
  }

  /** A start that finds something else at the path gives up: before the claim, or inside it and then backs
      out. */
  lemma OtherIsRefused(w: World, p: nat)
    requires Inv(w) && p < |w.processes| && w.path == Some(Other)
    ensures w.processes[p].pc.Idle? ==> GoOn(w, p, 2) == w
    ensures w.processes[p].pc.Look? ==> GoOn(w, p, 3).path == w.path && Gone(w, p, GoOn(w, p, 3))
  {
    assert Sound(w, p);
    var q := w.processes[p];
    if q.pc.Idle? {
      GoesOn(w, p, 2);
      GoesOn(To(w, p, q.(pc := Early)), p, 1);
      ToTwice(w, p, q.(pc := Early), q);
      assert To(w, p, q) == w;
    } else if q.pc.Look? {
      var n := To(w, p, q.(pc := Fail));
      GoesOn(w, p, 3);
      FailLeaves(n, p);
    }
  }

  /** Whoever cannot have the claim gives up: a start is idle again, and a close leaves its name for the next
      start to clear. */
  lemma WithoutTheClaim(w: World, p: nat, ino: nat)
    requires p < |w.processes|
    ensures w.processes[p].pc.AwaitClaim? ==>
              Do(w, Go(p, false, ino)) == To(w, p, w.processes[p].(pc := Idle))
    ensures w.processes[p].pc.AwaitClose? ==>
              GoOn(Do(w, Go(p, false, ino)), p, 1) == To(w, p, Process(Idle, None, false, 0, 0))
  {
    if w.processes[p].pc.AwaitClose? {
      var quiet := To(w, p, w.processes[p].(pc := CloseQuietly));
      GoesOn(quiet, p, 1);
      ToTwice(w, p, w.processes[p].(pc := CloseQuietly), Process(Idle, None, false, 0, 0));
    }
  }
}

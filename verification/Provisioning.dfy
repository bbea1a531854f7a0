/** The entry screen of apps/src/provisioning.cpp, key by key, against a board that may answer anything;
    proved against the values of ProvisioningRun. */
module Provisioning {
  import opened Wrappers
  import opened Calendar
  import opened ProvisioningModel
  import opened ProvisioningRun
  import Run = ProvisioningRun

  /** The board's side of the screen. */
  class Provisioner {
    const board: Board
    var radio: Radio

    constructor (board: Board)
      ensures this.board == board && radio == FRESH
    {
      this.board, radio := board, FRESH;
    }

    method SetWallClock(utc: int, offset: int) returns (o: Outcome)
      modifies `radio
      ensures radio == ClockAsked(old(radio), utc, offset) && o == Reply(old(radio), board)
    {
      o := board.reply(|radio.sent|);
      radio := ClockAsked(radio, utc, offset);
    }

    method SetMeshPasskey(value: nat) returns (o: Outcome)
      modifies `radio
      ensures radio == PasskeyAsked(old(radio), board, value) && o == Reply(old(radio), board)
    {
      o := board.reply(|radio.sent|);
      radio := PasskeyAsked(radio, board, value);
    }

    method ForgetMeshNode() returns (o: Outcome)
      modifies `radio
      ensures radio == ForgetAsked(old(radio), board) && o == Reply(old(radio), board)
    {
      o := board.reply(|radio.sent|);
      radio := ForgetAsked(radio, board);
    }

    method MeshPasskeyOutcome() returns (o: Outcome)
      modifies `radio
      ensures radio == PasskeyRead(old(radio), board) && o == PasskeyNews(old(radio), board)
    {
      o := if radio.owed.passkey then board.tell(radio.heard) else Failed;
      radio := PasskeyRead(radio, board);
    }

    method MeshForgetOutcome() returns (o: ForgetOutcome)
      modifies `radio
      ensures radio == ForgetRead(old(radio), board) && o == ForgetNews(old(radio), board)
    {
      o := if radio.owed.forget then board.tellForget(radio.heard) else BondKept;
      radio := ForgetRead(radio, board);
    }

    method MeshNode() returns (has: bool)
      modifies `radio
      ensures has == board.pinned(old(radio).looks) && radio == old(radio).(looks := old(radio).looks + 1)
    {
      has := board.pinned(radio.looks);
      radio := radio.(looks := radio.looks + 1);
    }

    method MeshForgetOwed() returns (forget: bool)
      ensures forget == radio.owed.forget
    {
      forget := radio.owed.forget;
    }
  }

  datatype Seed = Seed(valid: bool, utc: int, offset: int)

  /** The sum of a time and an offset is bound at the type the program gives it, so it does not overflow. */
  type int64 = x: int | INT64_MIN <= x <= INT64_MAX

  const INT64_MAX: int := 0x7FFF_FFFF_FFFF_FFFF
  const INT64_MIN: int := -0x8000_0000_0000_0000

  /** The draft is the minute the seed is in, read at the seed's offset. */
  predicate Shows(seed: Seed, d: Draft) {
    !d.touched && d.offset == seed.offset && ToUtc(d).Some? && 0 <= seed.utc - ToUtc(d).value < 60
  }

  /** The seed is claimed to be valid, and some minute this watch can set is the one it is in. */
  ghost predicate Showable(seed: Seed) {
    seed.valid && exists d: Draft :: RealDraft(d) && Shows(seed, d)
  }

  /** What a screen starts from. */
  ghost predicate Seeds(seed: Seed, d: Draft) {
    if Showable(seed) then Shows(seed, d) else d == DEFAULT_DRAFT
  }

  lemma NearTheEpoch(d: Date)
    requires Real(d) && YEAR_FLOOR <= d.year <= YEAR_CEIL
    ensures 0 <= DaysFromCivil(d) < 60000
  {
    EraFloors(MarchYear(d));
  }

  /** A shown seed is a local time within its minute, far from the ends of the range. */
  lemma ShownIsLocal(seed: Seed, d: Draft) returns (c: Civil)
    requires RealDraft(d) && Shows(seed, d)
    ensures ValidCivil(c) && c.date == d.date && Seconds(c) == seed.utc + seed.offset * 60
    ensures 0 <= Seconds(c) < 60000 * 86400
  {
    DraftMeansInstant(d);
    NearTheEpoch(d.date);
    c := Civil(d.date, d.hour, d.minute, seed.utc - ToUtc(d).value);
  }

  /** The year decides, once the local time is known. */
  lemma ShowableIfYear(seed: Seed, civil: Option<Civil>)
    requires civil.Some? ==> ValidCivil(civil.value) && Seconds(civil.value) == seed.utc + seed.offset * 60
    requires civil == None ==> forall v: Civil :: ValidCivil(v) ==> Seconds(v) != seed.utc + seed.offset * 60
    ensures Showable(seed) ==> civil.Some? && YEAR_FLOOR <= civil.value.date.year <= YEAR_CEIL
  {
    if Showable(seed) {
      var d: Draft :| RealDraft(d) && Shows(seed, d);
      var c := ShownIsLocal(seed, d);
      if civil.Some? {
        InstantsDiffer(civil.value, c);
      }
    }
  }

  lemma ShowableAdds(seed: Seed)
    requires Showable(seed)
    ensures OFFSET_FLOOR <= seed.offset <= OFFSET_CEIL && 0 <= seed.utc + seed.offset * 60 < 60000 * 86400
  {
    var d: Draft :| RealDraft(d) && Shows(seed, d);
    var c := ShownIsLocal(seed, d);
  }

  /** A seed is believed exactly if it is a local minute of a year this watch sets, in a zone there is. */
  method DraftFromSeed(seed: Seed) returns (draft: Drafted, seeded: bool)
    requires INT64_MIN <= seed.utc <= INT64_MAX
    ensures Seeds(seed, draft) && (seeded <==> Showable(seed))
  {
    var shift := seed.offset * 60;
    var addable := if shift >= 0 then seed.utc <= INT64_MAX - shift else seed.utc >= INT64_MIN - shift;
    if seed.valid && addable && OFFSET_FLOOR <= seed.offset <= OFFSET_CEIL {
      var local: int64 := seed.utc + shift;
      var civil := CivilFromWallTime(local);
      ShowableIfYear(seed, civil);
      if civil.Some? && YEAR_FLOOR <= civil.value.date.year <= YEAR_CEIL {
        var c := civil.value;
        draft := Draft(c.date, c.hour, c.minute, seed.offset, false);
        DraftMeansInstant(draft);
        assert Shows(seed, draft);
        return draft, true;
      }
    } else {
      ghost var shown := Showable(seed);
      if shown {
        ShowableAdds(seed);
      }
    }
    return DEFAULT_DRAFT, false;
  }

  class ProvisioningEntry {
    const sink: Provisioner
    const task: Task
    var field: Field
    var leftFrom: Field
    var verdict: Verdict
    var draft: Drafted
    var seeded: bool
    var digits: Row
    var cursor: nat
    var awaitingPasskey: bool
    var awaitingForget: bool
    var passkeyUncertain: bool
    var hasNode: bool
    var forgetOutcome: ForgetOutcome
    var receiptOf: Field

    /** The request of this screen's whose answer it has not read, and whether an earlier screen's passkey
        is still with the radio. */
    ghost var own: Option<Field>
    ghost var inherited: bool

    ghost function View(): Screen
      reads this
    {
      Screen(task, field, leftFrom, verdict, draft, digits, cursor, awaitingPasskey, awaitingForget, passkeyUncertain,
             hasNode, forgetOutcome, receiptOf)
    }

    ghost function Now(): Moment
      reads this, sink
    {
      Moment(View(), own, inherited, sink.radio)
    }

    ghost predicate Valid()
      reads this, sink
    {
      Sound(Now())
    }

    /** Whatever earlier screens left with the radio.  Only the draft depends on the seed. */
    constructor (sink: Provisioner, task: Task, seed: Seed)
      requires INT64_MIN <= seed.utc <= INT64_MAX
      modifies sink
      ensures Valid() && this.sink == sink && this.task == task
      ensures (task != NodePasskey ==> Seeds(seed, draft)) && (seeded <==> task != NodePasskey && Showable(seed))
      ensures Now() == Open(old(sink.radio), task, draft, sink.board)
    {
      this.sink, this.task := sink, task;
      field := if task == NodePasskey then Node else Day;
      leftFrom, verdict, receiptOf, forgetOutcome := Exit, NoVerdict, Exit, Nothing;
      draft, seeded := DEFAULT_DRAFT, false;
      digits, cursor := [0, 0, 0, 0, 0, 0], 0;
      awaitingPasskey, awaitingForget, passkeyUncertain, hasNode := false, false, false, false;
      own, inherited := None, sink.radio.owed.passkey;
      new;
      Begin(seed);
      OpenKeeps(old(sink.radio), task, draft, sink.board);
    }

    /** An `All` walk starts at the clock, unless a forget is owed. */
    method Begin(seed: Seed)
      requires INT64_MIN <= seed.utc <= INT64_MAX && draft == DEFAULT_DRAFT
      requires Now() == Blank(sink.radio, task, draft) && !seeded
      modifies this, sink
      ensures Now() == Open(old(sink.radio), task, draft, sink.board)
      ensures (task != NodePasskey ==> Seeds(seed, draft)) && (seeded <==> task != NodePasskey && Showable(seed))
    {
      if task != NodePasskey {
        draft, seeded := DraftFromSeed(seed);
        var owed := sink.MeshForgetOwed();
        if task != All || !owed {
          return;
        }
      }
      EnterNodeHalf();
    }

    // -------------------------------------------------------------------------
    // Requests.

    method Tell(of: Field, how: Verdict)
      modifies `verdict, `field, `receiptOf
      ensures Now() == Run.Tell(old(Now()), of, how)
    {
      verdict, field, receiptOf := how, Receipt, of;
    }

    /** A failed conversion is a guard, not a path: a real draft always converts. */
    method SaveTime()
      modifies `verdict, `field, `receiptOf, sink
      ensures Now() == Run.SaveTime(old(Now()), sink.board)
    {
      var utc := ToUtc(draft);
      if utc == None {
        Tell(TimeReview, TimeRefused);
        return;
      }
      var o := sink.SetWallClock(utc.value, draft.offset);
      Tell(TimeReview, match o
        case Accepted => TimeSaved
        case Rejected => TimeRefused
        case Pending | Failed => TimeUncertain);
    }

    method Spell() returns (value: nat)
      ensures value == Spelled(digits, 6)
    {
      value := 0;
      for i := 0 to 6
        invariant value == Spelled(digits, i)
      {
        value := value * 10 + digits[i];
      }
    }

    method SendPasskey()
      modifies `verdict, `field, `receiptOf, `awaitingPasskey, `passkeyUncertain, `own, `inherited, sink
      ensures Now() == Run.SendPasskey(old(Now()), sink.board)
    {
      var value := Spell();
      var o := sink.SetMeshPasskey(value);
      match o {
        case Pending =>
          verdict, awaitingPasskey, own, inherited := PasskeyPending, true, Some(Passkey), false;
        case Accepted => Tell(Passkey, PasskeyStored);
        case Rejected => Tell(Passkey, PasskeyRefused);
        case Failed => TellFailed();
      }
    }

    /** Only an earlier passkey still with the radio can arm something yet, and the board says whether one
        is. */
    method TellFailed()
      modifies `verdict, `field, `receiptOf, `passkeyUncertain, `inherited, sink
      ensures Now() == FailedPasskey(old(Now()), sink.board)
    {
      if !passkeyUncertain {
        var still := sink.MeshPasskeyOutcome();
        passkeyUncertain := still != Failed;
        inherited := inherited && still.Pending?;
      }
      Tell(Passkey, if passkeyUncertain then PasskeyUncertain else PasskeyRefused);
    }

    method BeginForget()
      modifies `verdict, `field, `receiptOf, `awaitingForget, `forgetOutcome, `hasNode, `own, sink
      ensures Now() == Run.BeginForget(old(Now()), sink.board)
    {
      var o := sink.ForgetMeshNode();
      match o {
        case Pending =>
          verdict, awaitingForget, own := ForgetPending, true, Some(Node);
        case Rejected =>
          forgetOutcome, hasNode := Nothing, false;
          Tell(Node, NodeNothingToForget);
        case Accepted =>
          forgetOutcome, hasNode := Forgotten, false;
          Tell(Node, NodeForgotten);
        case Failed =>
          forgetOutcome := BondKept;
          Tell(Node, ForgetKept);
      }
    }

    /** Past the clock's receipt.  A forget owed from a screen that was left is waited for here. */
    method EnterNodeHalf()
      modifies `verdict, `hasNode, `field, `receiptOf, `forgetOutcome, `awaitingForget, `awaitingPasskey,
               `passkeyUncertain, `own, sink
      ensures Now() == Run.EnterNodeHalf(old(Now()), sink.board) && Asked(old(Now()), None, Now())
    {
      EnterAsksNothing(Now(), sink.board);
      LookForNode();
      var owed := sink.MeshForgetOwed();
      if owed {
        AdoptForget();
        var _ := PollForget();
      }
    }

    method LookForNode()
      modifies `verdict, `hasNode, `field, sink
      ensures Now() == Looked(old(Now()), sink.board)
    {
      verdict := NoVerdict;
      hasNode := sink.MeshNode();
      field := if hasNode then Node else Passkey;
    }

    method AdoptForget()
      modifies `verdict, `awaitingForget, `receiptOf, `field, `own
      ensures Now() == Run.AdoptForget(old(Now()))
    {
      verdict, awaitingForget, receiptOf, field, own := ForgetPending, true, Node, Receipt, Some(Node);
    }

    // -------------------------------------------------------------------------
    // Answers.

    /** The answer to whatever the radio has; the screen moves exactly when there is one. */
    method Poll() returns (changed: bool)
      requires Valid()
      modifies `awaitingForget, `awaitingPasskey, `forgetOutcome, `passkeyUncertain, `verdict, `hasNode,
               `receiptOf, `field, `own, sink
      ensures Valid() && Now() == Run.Poll(old(Now()), sink.board) && changed == (View() != old(View()))
      ensures (changed <==> Answered(old(Now()), sink.board)) && Asked(old(Now()), None, Now())
    {
      PollKeeps(Now(), sink.board);
      PollTells(Now(), sink.board);
      PollAsksNothing(Now(), sink.board);
      changed := Collect();
    }

    method Collect() returns (changed: bool)
      modifies `awaitingForget, `awaitingPasskey, `forgetOutcome, `passkeyUncertain, `verdict, `hasNode,
               `receiptOf, `field, `own, sink
      ensures Now() == Run.Poll(old(Now()), sink.board)
      ensures changed <==> Answered(old(Now()), sink.board)
    {
      if awaitingForget {
        changed := PollForget();
      } else if awaitingPasskey {
        changed := PollPasskey();
      } else {
        changed := false;
      }
    }

    method PollForget() returns (changed: bool)
      modifies `awaitingForget, `forgetOutcome, `verdict, `hasNode, `receiptOf, `field, `own, sink
      ensures Now() == Run.PollForget(old(Now()), sink.board)
      ensures changed <==> ForgetNews(old(sink.radio), sink.board) != ForgetRunning
    {
      var o := sink.MeshForgetOutcome();
      if o == ForgetRunning {
        return false;
      }
      awaitingForget, forgetOutcome, own := false, o, None;
      hasNode := hasNode && KeepsNode(o);
      Tell(Node, ForgetVerdict(o));
      return true;
    }

    method PollPasskey() returns (changed: bool)
      modifies `awaitingPasskey, `passkeyUncertain, `verdict, `receiptOf, `field, `own, sink
      ensures Now() == Run.PollPasskey(old(Now()), sink.board)
      ensures changed <==> PasskeyNews(old(sink.radio), sink.board) != Pending
    {
      var o := sink.MeshPasskeyOutcome();
      if o == Pending {
        return false;
      }
      awaitingPasskey, own := false, None;
      passkeyUncertain := passkeyUncertain || o != Accepted;
      Tell(Passkey, if o == Accepted then PasskeyStored else PasskeyUncertain);
      return true;
    }

    // -------------------------------------------------------------------------
    // Keys.

    /** One key.  A key that is not drawn does nothing, and the board is asked for exactly what the drawn one
        asks. */
    method Press(key: Key)
      requires Valid()
      modifies this, sink
      ensures Valid() && Now() == Run.Press(old(Now()), key, sink.board)
      ensures Asked(old(Now()), Asks(old(View()), key), Now())
      ensures Counts(old(View()), key, View())
      ensures if Drawn(old(View()), key) then Spent(old(View()), key) || Now() != old(Now()) else Now() == old(Now())
    {
      ghost var m := Now();
      Answer(key);
      KeyMeans(m, key, sink.board);
    }

    method Answer(key: Key)
      requires cursor < 6
      modifies this, sink
      ensures Now() == Run.Press(old(Now()), key, sink.board)
    {
      if field == Exit {
        return;
      }
      if awaitingPasskey || awaitingForget {
        if key == Leave {
          GiveUp();
        }
      } else {
        PressIdle(key);
      }
    }

    /** With nothing under way, what a key does depends on the field. */
    method PressIdle(key: Key)
      requires cursor < 6 && field != Exit && !awaitingPasskey && !awaitingForget
      modifies this, sink
      ensures Now() == Run.PressIdle(old(Now()), key, sink.board)
    {
      if field == Receipt {
        PressReceipt(key);
      } else if field == ForgetConfirm {
        PressConfirm(key);
      } else {
        PressField(key);
      }
    }

    /** The way out of a wait. */
    method GiveUp()
      modifies `verdict, `awaitingPasskey, `awaitingForget, `receiptOf, `field
      ensures Now() == Run.GiveUp(old(Now()))
    {
      verdict, awaitingPasskey, awaitingForget, receiptOf, field := Abandoned, false, false, Exit, Receipt;
    }

    method Depart()
      modifies `leftFrom, `field
      ensures Now() == Run.Depart(old(Now()))
    {
      leftFrom, field := field, Exit;
    }

    method PressReceipt(key: Key)
      modifies this, sink
      ensures Now() == Run.PressReceipt(old(Now()), key, sink.board)
    {
      match key
      case Next => NextFromReceipt();
      case Plus =>
        if task == All && receiptOf == TimeReview && Retryable(verdict) {
          EnterNodeHalf();
        }
      case Previous =>
        if Retryable(verdict) && receiptOf != Exit {
          verdict, field := NoVerdict, receiptOf;
          if field == Passkey {
            cursor := 0;
          }
        }
      case Leave => Depart();
      case Minus | Forget =>
    }

    method NextFromReceipt()
      modifies this, sink
      ensures Now() == Run.NextFromReceipt(old(Now()), sink.board)
    {
      if Retryable(verdict) {
        Retry();
      } else if LeadsToPasskey(verdict) {
        verdict, cursor, field := NoVerdict, 0, Passkey;
      } else if task == All && receiptOf == TimeReview {
        EnterNodeHalf();
      } else {
        Depart();
      }
    }

    method Retry()
      modifies this, sink
      ensures Now() == Run.Retry(old(Now()), sink.board)
    {
      if receiptOf == TimeReview {
        SaveTime();
      } else if receiptOf == Passkey {
        SendPasskey();
      } else if receiptOf == Node {
        BeginForget();
      }
    }

    method PressConfirm(key: Key)
      modifies this, sink
      ensures Now() == Run.PressConfirm(old(Now()), key, sink.board)
    {
      match key
      case Minus => BeginForget();
      case Previous | Leave => verdict, field := NoVerdict, Node;
      case Plus | Next | Forget =>
    }

    method PressField(key: Key)
      requires cursor < 6
      modifies this, sink
      ensures Now() == Run.PressField(old(Now()), key, sink.board)
    {
      match key
      case Minus | Plus =>
        verdict := NoVerdict;
        StepValue(key == Plus);
      case Previous =>
        verdict := NoVerdict;
        Back();
      case Next =>
        verdict := NoVerdict;
        Forward();
      case Forget =>
        if field == Node {
          verdict, field := NoVerdict, ForgetConfirm;
        }
      case Leave => Depart();
    }

    method StepValue(up: bool)
      requires cursor < 6
      modifies `draft, `digits
      ensures View() == Run.StepValue(old(View()), up)
    {
      if field == Passkey {
        WrapTurns(digits[cursor], up, 0, 9);
        digits := digits[cursor := Wrap(digits[cursor], up, 0, 9)];
      } else {
        StepKeepsReal(draft, field, up);
        draft := StepDraft(draft, field, up);
      }
    }

    /** One step back along the walk. */
    method Back()
      modifies `field, `cursor
      ensures View() == StepBack(old(View()))
    {
      match field
      case Month => field := Day;
      case Year => field := Month;
      case Hour => field := Year;
      case Minute => field := Hour;
      case Offset => field := Minute;
      case TimeReview => field := Offset;
      case Passkey =>
        if cursor > 0 {
          cursor := cursor - 1;
        } else if hasNode {
          field := Node;
        }
      case _ =>
    }

    /** One step on, which from the review and from the last digit is the request itself. */
    method Forward()
      modifies this, sink
      ensures Now() == Advance(old(Now()), sink.board)
    {
      match field
      case Day => field := Month;
      case Month => field := Year;
      case Year => field := Hour;
      case Hour => field := Minute;
      case Minute => field := Offset;
      case Offset => field := TimeReview;
      case TimeReview => SaveTime();
      case Node => field := Passkey;
      case Passkey =>
        if cursor + 1 < 6 {
          cursor := cursor + 1;
        } else {
          SendPasskey();
        }
      case _ =>
    }
  }

  // ---------------------------------------------------------------------------
  // Any number of screens.

  /** What the board, the holder and the clock do next. */
  datatype Move = Opening(task: Task, seed: Seed) | Pressing(key: Key) | Polling

  predicate Seeded(move: Move) {
    move.Opening? ==> INT64_MIN <= move.seed.utc <= INT64_MAX
  }

  ghost predicate Carries(act: Act, move: Move) {
    match move
    case Opening(task, seed) => act.Opens? && act.task == task && (task != NodePasskey ==> Seeds(seed, act.draft))
    case Pressing(key) => act == Presses(key)
    case Polling => act == Polls
  }

  /** The acts of a run are those of the moves so far. */
  ghost predicate CarriesOut(run: seq<Act>, moves: seq<Move>) {
    |run| <= |moves| && forall i :: 0 <= i < |run| ==> Carries(run[i], moves[i])
  }

  lemma CarriesOutNext(run: seq<Act>, act: Act, moves: seq<Move>)
    requires CarriesOut(run, moves) && |run| < |moves| && Carries(act, moves[|run|])
    ensures CarriesOut(run + [act], moves)
  {
  }

  /** Screens opened one after another on one board, pressed and polled: exactly the run of ProvisioningRun
      with the drafts the seeds give. */
  method Screens(board: Board, moves: seq<Move>) returns (sink: Provisioner, ghost run: seq<Act>)
    requires forall i :: 0 <= i < |moves| ==> Seeded(moves[i])
    ensures |run| == |moves| && CarriesOut(run, moves)
    ensures sink.radio == After(board, run).radio
  {
    sink := new Provisioner(board);
    var entry := new ProvisioningEntry(sink, LocalTime, Seed(false, 0, 0));
    run := [];
    for i := 0 to |moves|
      invariant fresh(entry) && fresh(sink) && entry.Valid() && entry.sink == sink && sink.board == board
      invariant |run| == i && CarriesOut(run, moves)
      invariant entry.Now() == After(board, run)
    {
      ghost var act;
      entry, act := Make(entry, moves[i]);
      AfterNext(board, run, act);
      CarriesOutNext(run, act, moves);
      run := run + [act];
    }
  }

  /** So no request of the radio goes out over an unread forget; and where nobody leaves a screen or opens
      another, none goes out over anything. */
  method AnyScreens(board: Board, moves: seq<Move>) returns (sink: Provisioner, ghost run: seq<Act>)
    requires forall i :: 0 <= i < |moves| ==> Seeded(moves[i])
    ensures |run| == |moves| && CarriesOut(run, moves)
    ensures sink.radio == After(board, run).radio
    ensures NoneOverForget(sink.radio.overs) && (NoneGivenUp(board, run) ==> NoneOver(sink.radio.overs))
    ensures (forall i :: 0 <= i < |moves| ==> !moves[i].Opening? && moves[i] != Pressing(Leave)) ==>
              NoneGivenUp(board, run)
  {
    sink, run := Screens(board, moves);
    NoneGoesOverForget(board, run);
    if NoneGivenUp(board, run) {
      OverPasskeyOnlyIfGivenUp(board, run);
    }
  }

  method Make(entry: ProvisioningEntry, move: Move) returns (next: ProvisioningEntry, ghost act: Act)
    requires entry.Valid() && Seeded(move)
    modifies entry, entry.sink
    ensures (next == entry || fresh(next)) && next.sink == entry.sink && next.Valid()
    ensures Carries(act, move) && next.Now() == Do(old(entry.Now()), act, entry.sink.board)
  {
    next := entry;
    match move {
      case Opening(task, seed) =>
        next := new ProvisioningEntry(entry.sink, task, seed);
        act := Opens(task, next.draft);
      case Pressing(key) =>
        entry.Press(key);
        act := Presses(key);
      case Polling =>
        var _ := entry.Poll();
        act := Polls;
    }
  }
}

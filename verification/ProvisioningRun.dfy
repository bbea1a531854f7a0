/** What keys and polls do to the entry screen and to the radio behind it (apps/src/provisioning.cpp:196-611),
    as values: every step of any number of screens on one board, whatever the board answers. */
module ProvisioningRun {
  import opened Wrappers
  import opened Calendar
  import opened ProvisioningModel

  // ---------------------------------------------------------------------------
  // The board.

  datatype Outcome = Accepted | Rejected | Pending | Failed

  /** A board is any way of answering: its `n`-th request, the `n`-th look at an answer that is owed, and
      the `n`-th question whether a node is pinned. */
  datatype Board = Board(reply: nat -> Outcome, tell: nat -> Outcome, tellForget: nat -> ForgetOutcome,
                         pinned: nat -> bool)

  datatype Sent = SentClock(utc: int, offset: int) | SentPasskey(value: nat) | SentForget

  /** The radio keeps one passkey request and one forget that nobody has read the answer of. */
  datatype Owed = Owed(passkey: bool, forget: bool)

  /** Everything ever sent, what the radio owed at each request made of it, and how often it was asked for
      answers and for the node. */
  datatype Radio = Radio(owed: Owed, sent: seq<Sent>, overs: seq<Owed>, heard: nat, looks: nat)

  const FRESH := Radio(Owed(false, false), [], [], 0, 0)

  function Reply(r: Radio, b: Board): Outcome {
    b.reply(|r.sent|)
  }

  function ClockAsked(r: Radio, utc: int, offset: int): Radio {
    r.(sent := r.sent + [SentClock(utc, offset)])
  }

  /** A request that does not get as far as the radio leaves what is there. */
  function PasskeyAsked(r: Radio, b: Board, value: nat): Radio {
    r.(sent := r.sent + [SentPasskey(value)], overs := r.overs + [r.owed],
       owed := r.owed.(passkey := r.owed.passkey || Reply(r, b).Pending?))
  }

  function ForgetAsked(r: Radio, b: Board): Radio {
    r.(sent := r.sent + [SentForget], overs := r.overs + [r.owed],
       owed := r.owed.(forget := r.owed.forget || Reply(r, b).Pending?))
  }

  /** With nothing outstanding, `Failed`. */
  function PasskeyNews(r: Radio, b: Board): Outcome {
    if r.owed.passkey then b.tell(r.heard) else Failed
  }

  function PasskeyRead(r: Radio, b: Board): Radio {
    r.(heard := r.heard + 1, owed := r.owed.(passkey := r.owed.passkey && PasskeyNews(r, b).Pending?))
  }

  /** With nothing outstanding, `BondKept`. */
  function ForgetNews(r: Radio, b: Board): ForgetOutcome {
    if r.owed.forget then b.tellForget(r.heard) else BondKept
  }

  function ForgetRead(r: Radio, b: Board): Radio {
    r.(heard := r.heard + 1, owed := r.owed.(forget := r.owed.forget && ForgetNews(r, b).ForgetRunning?))
  }

  // ---------------------------------------------------------------------------
  // Steps of the screen.

  /** A screen and the radio.  `own` is the request of this screen's whose answer it has not read, and
      `inherited` whether an earlier screen's passkey is still with the radio. */
  datatype Moment = Moment(screen: Screen, own: Option<Field>, inherited: bool, radio: Radio)

  function Tell(m: Moment, of: Field, how: Verdict): Moment {
    m.(screen := m.screen.(verdict := how, field := Receipt, receiptOf := of))
  }

  function TimeVerdict(o: Outcome): Verdict {
    match o
    case Accepted => TimeSaved
    case Rejected => TimeRefused
    case Pending | Failed => TimeUncertain
  }

  function SaveTime(m: Moment, b: Board): Moment {
    match ToUtc(m.screen.draft)
    case None => Tell(m, TimeReview, TimeRefused)
    case Some(utc) =>
      Tell(m.(radio := ClockAsked(m.radio, utc, m.screen.draft.offset)), TimeReview, TimeVerdict(Reply(m.radio, b)))
  }

  function SendPasskey(m: Moment, b: Board): Moment {
    var asked := m.(radio := PasskeyAsked(m.radio, b, Spelled(m.screen.digits, 6)));
    match Reply(m.radio, b)
    case Pending =>
      asked.(screen := m.screen.(verdict := PasskeyPending, awaitingPasskey := true), own := Some(Passkey),
             inherited := false)
    case Accepted => Tell(asked, Passkey, PasskeyStored)
    case Rejected => Tell(asked, Passkey, PasskeyRefused)
    case Failed => FailedPasskey(asked, b)
  }

  /** A request that failed can still arm something if an earlier one is with the radio; the board is
      asked whether one is, and that is remembered. */
  function FailedPasskey(m: Moment, b: Board): Moment {
    if m.screen.passkeyUncertain then Tell(m, Passkey, PasskeyUncertain)
    else
      var news := PasskeyNews(m.radio, b);
      var checked := Moment(m.screen.(passkeyUncertain := news != Failed), m.own, m.inherited && news.Pending?,
                            PasskeyRead(m.radio, b));
      Tell(checked, Passkey, if news != Failed then PasskeyUncertain else PasskeyRefused)
  }

  function BeginForget(m: Moment, b: Board): Moment {
    var asked := m.(radio := ForgetAsked(m.radio, b));
    match Reply(m.radio, b)
    case Pending =>
      asked.(screen := m.screen.(verdict := ForgetPending, awaitingForget := true), own := Some(Node))
    case Rejected =>
      Tell(asked.(screen := m.screen.(forgetOutcome := Nothing, hasNode := false)), Node, NodeNothingToForget)
    case Accepted =>
      Tell(asked.(screen := m.screen.(forgetOutcome := Forgotten, hasNode := false)), Node, NodeForgotten)
    case Failed =>
      Tell(asked.(screen := m.screen.(forgetOutcome := BondKept)), Node, ForgetKept)
  }

  /** Past the clock's receipt.  A forget owed from a screen that was left is waited for here. */
  function EnterNodeHalf(m: Moment, b: Board): Moment {
    if m.radio.owed.forget then PollForget(AdoptForget(Looked(m, b)), b) else Looked(m, b)
  }

  function Looked(m: Moment, b: Board): Moment {
    var pinned := b.pinned(m.radio.looks);
    var screen := m.screen.(verdict := NoVerdict, hasNode := pinned, field := if pinned then Node else Passkey);
    m.(screen := screen, radio := m.radio.(looks := m.radio.looks + 1))
  }

  function AdoptForget(m: Moment): Moment {
    m.(screen := m.screen.(verdict := ForgetPending, awaitingForget := true, receiptOf := Node, field := Receipt),
       own := Some(Node))
  }

  function ForgetVerdict(o: ForgetOutcome): Verdict {
    match o
    case ForgetRunning => ForgetPending
    case Forgotten | Unpinned => NodeForgotten
    case PinOnFlash => NodePartlyForgotten
    case Nothing => NodeNothingToForget
    case BondKept | ReplayInhibited => ForgetKept
  }

  predicate KeepsNode(o: ForgetOutcome) {
    o.BondKept? || o.ReplayInhibited?
  }

  /** The answer to whatever the radio has, once there is one. */
  function Poll(m: Moment, b: Board): Moment {
    if m.screen.awaitingForget then PollForget(m, b)
    else if m.screen.awaitingPasskey then PollPasskey(m, b)
    else m
  }

  function PollForget(m: Moment, b: Board): Moment {
    var o, read := ForgetNews(m.radio, b), m.(radio := ForgetRead(m.radio, b));
    if o.ForgetRunning? then read
    else
      var screen := m.screen.(awaitingForget := false, forgetOutcome := o, hasNode := m.screen.hasNode && KeepsNode(o));
      Tell(read.(screen := screen, own := None), Node, ForgetVerdict(o))
  }

  function PollPasskey(m: Moment, b: Board): Moment {
    var o, read := PasskeyNews(m.radio, b), m.(radio := PasskeyRead(m.radio, b));
    if o.Pending? then read
    else
      var screen := m.screen.(awaitingPasskey := false, passkeyUncertain := m.screen.passkeyUncertain || !o.Accepted?);
      Tell(read.(screen := screen, own := None), Passkey, if o.Accepted? then PasskeyStored else PasskeyUncertain)
  }

  // ---------------------------------------------------------------------------
  // Keys.

  function Press(m: Moment, key: Key, b: Board): Moment
    requires m.screen.cursor < 6
  {
    var s := m.screen;
    if s.field.Exit? then m
    else if s.Waiting() then if key == Leave then GiveUp(m) else m
    else PressIdle(m, key, b)
  }

  function PressIdle(m: Moment, key: Key, b: Board): Moment
    requires m.screen.cursor < 6
  {
    if m.screen.field.Receipt? then PressReceipt(m, key, b)
    else if m.screen.field.ForgetConfirm? then PressConfirm(m, key, b)
    else PressField(m, key, b)
  }

  function GiveUp(m: Moment): Moment {
    m.(screen := m.screen.(verdict := Abandoned, awaitingPasskey := false, awaitingForget := false,
                           receiptOf := Exit, field := Receipt))
  }

  function Depart(m: Moment): Moment {
    m.(screen := m.screen.(leftFrom := m.screen.field, field := Exit))
  }

  function PressReceipt(m: Moment, key: Key, b: Board): Moment {
    var s := m.screen;
    match key
    case Next => NextFromReceipt(m, b)
    case Plus => if s.task == All && s.receiptOf == TimeReview && Retryable(s.verdict) then EnterNodeHalf(m, b) else m
    case Previous => if Retryable(s.verdict) && s.receiptOf != Exit then BackFromReceipt(m) else m
    case Leave => Depart(m)
    case Minus | Forget => m
  }

  function BackFromReceipt(m: Moment): Moment {
    var s := m.screen;
    m.(screen := s.(verdict := NoVerdict, field := s.receiptOf,
                    cursor := if s.receiptOf == Passkey then 0 else s.cursor))
  }

  function NextFromReceipt(m: Moment, b: Board): Moment {
    var s := m.screen;
    if Retryable(s.verdict) then Retry(m, b)
    else if LeadsToPasskey(s.verdict) then m.(screen := s.(verdict := NoVerdict, cursor := 0, field := Passkey))
    else if s.task == All && s.receiptOf == TimeReview then EnterNodeHalf(m, b)
    else Depart(m)
  }

  function Retry(m: Moment, b: Board): Moment {
    match m.screen.receiptOf
    case TimeReview => SaveTime(m, b)
    case Passkey => SendPasskey(m, b)
    case Node => BeginForget(m, b)
    case _ => m
  }

  function PressConfirm(m: Moment, key: Key, b: Board): Moment {
    match key
    case Minus => BeginForget(m, b)
    case Previous | Leave => m.(screen := m.screen.(verdict := NoVerdict, field := Node))
    case Plus | Next | Forget => m
  }

  function PressField(m: Moment, key: Key, b: Board): Moment
    requires m.screen.cursor < 6
  {
    var n := m.(screen := m.screen.(verdict := NoVerdict));
    match key
    case Minus | Plus => n.(screen := StepValue(n.screen, key == Plus))
    case Previous => n.(screen := StepBack(n.screen))
    case Next => Advance(n, b)
    case Forget => if m.screen.field.Node? then n.(screen := n.screen.(field := ForgetConfirm)) else m
    case Leave => Depart(m)
  }

  function StepValue(s: Screen, up: bool): Screen
    requires s.cursor < 6
  {
    if s.field.Passkey? then s.(digits := StepDigit(s.digits, s.cursor, up))
    else
      StepKeepsReal(s.draft, s.field, up);
      s.(draft := StepDraft(s.draft, s.field, up))
  }

  function StepDigit(digits: Row, cursor: nat, up: bool): Row
    requires cursor < 6
  {
    WrapTurns(digits[cursor], up, 0, 9);
    digits[cursor := Wrap(digits[cursor], up, 0, 9)]
  }

  function StepBack(s: Screen): Screen {
    if s.field.Passkey? && s.cursor > 0 then s.(cursor := s.cursor - 1)
    else if s.field.Passkey? && !s.hasNode then s
    else s.(field := FieldBefore(s.field))
  }

  /** One step on, which from the review and from the last digit is the request itself. */
  function Advance(m: Moment, b: Board): Moment {
    if m.screen.field.TimeReview? then SaveTime(m, b)
    else if m.screen.field.Passkey? && m.screen.cursor + 1 >= 6 then SendPasskey(m, b)
    else m.(screen := StepOn(m.screen))
  }

  function StepOn(s: Screen): Screen {
    if s.field.Passkey? then s.(cursor := s.cursor + 1) else s.(field := FieldAfter(s.field))
  }

  /** A fresh screen, whatever earlier ones left with the radio.  An `All` walk starts at the clock, unless
      a forget is owed. */
  function Open(r: Radio, task: Task, draft: Drafted, b: Board): Moment {
    var m := Blank(r, task, draft);
    if task == NodePasskey || (task == All && r.owed.forget) then EnterNodeHalf(m, b) else m
  }

  function Blank(r: Radio, task: Task, draft: Drafted): Moment {
    Moment(Screen(task, if task == NodePasskey then Node else Day, Exit, NoVerdict,
                  if task == NodePasskey then DEFAULT_DRAFT else draft, [0, 0, 0, 0, 0, 0], 0,
                  false, false, false, false, Nothing, Exit),
           None, r.owed.passkey, r)
  }

  // ---------------------------------------------------------------------------
  // What every step keeps.

  /** Of what the radio owes, this screen's own request is the one it waits on or was left waiting on; a
      passkey may be owed to an earlier screen as well, but past the clock no forget is. */
  predicate Owns(m: Moment) {
    var s, own, d := m.screen, m.own, m.radio.owed;
    && (own.Some? ==> own.value.Passkey? || own.value.Node?) && (own.Some? <==> s.Waiting() || s.verdict == Abandoned)
    && (s.awaitingPasskey ==> own == Some(Passkey) && PastClock(s)) && (s.awaitingForget ==> own == Some(Node))
    && (d.passkey <==> m.inherited || own == Some(Passkey)) && !(m.inherited && own == Some(Passkey))
    && (own == Some(Node) ==> d.forget) && (PastClock(s) && own != Some(Node) ==> !d.forget)
  }

  /** A screen that is coherent, and of which the radio owes what it should. */
  predicate Sound(m: Moment) {
    Coherent(m.screen) && Owns(m)
  }

  /** On a field of the walk or at its question, with nothing of this screen's under way. */
  lemma Stands(m: Moment)
    requires m.screen.cursor < 6 && !m.screen.Waiting() && m.screen.verdict == NoVerdict && m.own == None
    requires !m.screen.field.Receipt? && !m.screen.field.Exit?
    requires (PastClock(m.screen) ==> !m.radio.owed.forget) && (m.radio.owed.passkey <==> m.inherited)
    ensures Sound(m)
  {
  }

  /** The receipts there are: of the clock, and past it of what the radio no longer owes. */
  predicate MayTell(of: Field, v: Verdict, d: Owed) {
    && v != Abandoned && (LeadsToPasskey(v) ==> of.Node?)
    && (of.TimeReview? || ((of.Passkey? || of.Node?) && !d.forget))
  }

  lemma Tells(m: Moment, of: Field, how: Verdict)
    requires m.screen.cursor < 6 && !m.screen.Waiting() && m.own == None && (m.radio.owed.passkey <==> m.inherited)
    requires MayTell(of, how, m.radio.owed)
    ensures Sound(Tell(m, of, how))
  {
  }

  lemma SaveTimeKeeps(m: Moment, b: Board)
    requires Sound(m) && m.own == None
    ensures Sound(SaveTime(m, b)) && SaveTime(m, b).own == None
  {
    DraftMeansInstant(m.screen.draft);
    var utc := ToUtc(m.screen.draft).value;
    Tells(m.(radio := ClockAsked(m.radio, utc, m.screen.draft.offset)), TimeReview, TimeVerdict(Reply(m.radio, b)));
  }

  lemma SendPasskeyKeeps(m: Moment, b: Board)
    requires Sound(m) && m.own == None && PastClock(m.screen)
    ensures Sound(SendPasskey(m, b)) && (SendPasskey(m, b).inherited ==> m.inherited)
  {
    var asked := m.(radio := PasskeyAsked(m.radio, b, Spelled(m.screen.digits, 6)));
    match Reply(m.radio, b)
    case Pending =>
    case Accepted => Tells(asked, Passkey, PasskeyStored);
    case Rejected => Tells(asked, Passkey, PasskeyRefused);
    case Failed =>
      if m.screen.passkeyUncertain {
        Tells(asked, Passkey, PasskeyUncertain);
      } else {
        var news := PasskeyNews(asked.radio, b);
        var checked := Moment(m.screen.(passkeyUncertain := news != Failed), m.own, m.inherited && news.Pending?,
                              PasskeyRead(asked.radio, b));
        Tells(checked, Passkey, if news != Failed then PasskeyUncertain else PasskeyRefused);
      }
  }

  lemma BeginForgetKeeps(m: Moment, b: Board)
    requires Sound(m) && m.own == None && PastClock(m.screen)
    ensures Sound(BeginForget(m, b))
  {
    var asked := m.(radio := ForgetAsked(m.radio, b));
    match Reply(m.radio, b)
    case Pending =>
    case Rejected => Tells(asked.(screen := m.screen.(forgetOutcome := Nothing, hasNode := false)), Node,
                           NodeNothingToForget);
    case Accepted => Tells(asked.(screen := m.screen.(forgetOutcome := Forgotten, hasNode := false)), Node,
                           NodeForgotten);
    case Failed => Tells(asked.(screen := m.screen.(forgetOutcome := BondKept)), Node, ForgetKept);
  }

  lemma PollKeeps(m: Moment, b: Board)
    requires Sound(m)
    ensures Sound(Poll(m, b))
  {
  }

  lemma AdoptKeeps(m: Moment, b: Board)
    requires m.screen.cursor < 6 && m.own == None && !m.screen.Waiting() && (m.radio.owed.passkey <==> m.inherited)
    requires m.radio.owed.forget
    ensures Sound(AdoptForget(m))
  {
  }

  lemma EnterKeeps(m: Moment, b: Board)
    requires m.screen.cursor < 6 && m.own == None && !m.screen.Waiting() && (m.radio.owed.passkey <==> m.inherited)
    ensures Sound(EnterNodeHalf(m, b)) && EnterNodeHalf(m, b).own != Some(Passkey)
    ensures EnterNodeHalf(m, b).screen.verdict != Abandoned
  {
    if m.radio.owed.forget {
      AdoptKeeps(Looked(m, b), b);
      PollKeeps(AdoptForget(Looked(m, b)), b);
    } else {
      Stands(Looked(m, b));
    }
  }

  lemma OpenKeeps(r: Radio, task: Task, draft: Drafted, b: Board)
    ensures Sound(Open(r, task, draft, b)) && Open(r, task, draft, b).own != Some(Passkey)
  {
    EnterKeeps(Blank(r, task, draft), b);
  }

  lemma NextKeeps(m: Moment, b: Board)
    requires Sound(m) && m.screen.field.Receipt? && !m.screen.Waiting() && m.own == None
    ensures Sound(NextFromReceipt(m, b))
  {
    var s := m.screen;
    if Retryable(s.verdict) {
      if s.receiptOf.TimeReview? {
        SaveTimeKeeps(m, b);
      } else if s.receiptOf.Passkey? {
        SendPasskeyKeeps(m, b);
      } else {
        BeginForgetKeeps(m, b);
      }
    } else if LeadsToPasskey(s.verdict) {
      Stands(NextFromReceipt(m, b));
    } else {
      EnterKeeps(m, b);
    }
  }

  lemma ReceiptKeeps(m: Moment, key: Key, b: Board)
    requires Sound(m) && m.screen.field.Receipt? && !m.screen.Waiting()
    ensures Sound(PressReceipt(m, key, b))
  {
    if m.own == None {
      if key == Next {
        NextKeeps(m, b);
      } else if key == Plus {
        EnterKeeps(m, b);
      } else if key == Previous && Retryable(m.screen.verdict) {
        Stands(BackFromReceipt(m));
      }
    }
  }

  lemma AdvanceKeeps(m: Moment, b: Board)
    requires Sound(m) && OnWalk(m.screen)
    ensures Sound(Advance(m, b))
  {
    if m.screen.field.TimeReview? {
      SaveTimeKeeps(m, b);
    } else if m.screen.field.Passkey? && m.screen.cursor + 1 >= 6 {
      SendPasskeyKeeps(m, b);
    } else {
      Stands(m.(screen := StepOn(m.screen)));
    }
  }

  lemma FieldKeeps(m: Moment, key: Key, b: Board)
    requires Sound(m) && OnWalk(m.screen)
    ensures Sound(PressField(m, key, b))
  {
    assert m.(screen := m.screen.(verdict := NoVerdict)) == m;
    match key
    case Minus | Plus => Stands(m.(screen := StepValue(m.screen, key == Plus)));
    case Previous => Stands(m.(screen := StepBack(m.screen)));
    case Next => AdvanceKeeps(m, b);
    case Forget | Leave =>
  }

  /** Every key keeps the screen coherent and the account of what the radio owes in order. */
  lemma PressKeeps(m: Moment, key: Key, b: Board)
    requires Sound(m)
    ensures Sound(Press(m, key, b))
  {
    var s := m.screen;
    if !s.field.Exit? && !s.Waiting() {
      if s.field.Receipt? {
        ReceiptKeeps(m, key, b);
      } else if s.field.ForgetConfirm? {
        BeginForgetKeeps(m, b);
      } else {
        FieldKeeps(m, key, b);
      }
    }
  }

  // ---------------------------------------------------------------------------
  // What keys mean.

  predicate OfTheRadio(asks: Option<Field>) {
    asks == Some(Passkey) || asks == Some(Node)
  }

  /** What goes to the board for a field of the walk. */
  function Says(s: Screen, of: Field): Sent {
    match of
    case Passkey => SentPasskey(Spelled(s.digits, 6))
    case Node => SentForget
    case _ => SentClock(Seconds(CivilOf(s.draft)) - s.draft.offset * 60, s.draft.offset)
  }

  /** From `m` to `n` the board was asked for exactly `asks`: the number the digits spell, the instant the
      draft means, or a forget. */
  predicate Asked(m: Moment, asks: Option<Field>, n: Moment) {
    && n.radio.sent == (if asks.Some? then m.radio.sent + [Says(m.screen, asks.value)] else m.radio.sent)
    && n.radio.overs == (if OfTheRadio(asks) then m.radio.overs + [m.radio.owed] else m.radio.overs)
  }

  lemma PollAsksNothing(m: Moment, b: Board)
    ensures Asked(m, None, Poll(m, b)) && Poll(m, b).radio.looks == m.radio.looks
  {
  }

  lemma EnterAsksNothing(m: Moment, b: Board)
    ensures Asked(m, None, EnterNodeHalf(m, b)) && EnterNodeHalf(m, b).radio.looks == m.radio.looks + 1
    ensures EnterNodeHalf(m, b).screen.draft == m.screen.draft && EnterNodeHalf(m, b).screen.digits == m.screen.digits
  {
    PollAsksNothing(AdoptForget(Looked(m, b)), b);
  }

  lemma SaveTimeAsks(m: Moment, b: Board)
    ensures Asked(m, Some(TimeReview), SaveTime(m, b))
    ensures SaveTime(m, b).screen.verdict == TimeSaved <==> Reply(m.radio, b) == Accepted
    ensures Retryable(SaveTime(m, b).screen.verdict) <==> SaveTime(m, b).screen.verdict != TimeSaved
  {
    DraftMeansInstant(m.screen.draft);
  }

  /** Stored is said exactly of an accepted passkey; and that it is uncertain is first said only over an
      earlier request. */
  lemma SendPasskeyAsks(m: Moment, b: Board)
    requires Sound(m) && m.own == None
    ensures var n := SendPasskey(m, b);
            && Asked(m, Some(Passkey), n) && (n.screen.awaitingPasskey <==> Reply(m.radio, b) == Pending)
            && (n.screen.verdict == PasskeyStored <==> Reply(m.radio, b) == Accepted)
            && (n.screen.passkeyUncertain && !m.screen.passkeyUncertain ==> m.inherited)
            && (m.screen.passkeyUncertain ==> n.screen.passkeyUncertain)
  {
  }

  lemma BeginForgetAsks(m: Moment, b: Board)
    requires !m.screen.awaitingForget
    ensures var n := BeginForget(m, b);
            && Asked(m, Some(Node), n) && (n.screen.awaitingForget <==> Reply(m.radio, b) == Pending)
            && (n.screen.verdict == NodeForgotten <==> Reply(m.radio, b) == Accepted)
            && (n.screen.hasNode ==> m.screen.hasNode)
  {
  }

  lemma RetryAsks(m: Moment, b: Board)
    requires Sound(m) && m.screen.field.Receipt? && m.own == None && Retryable(m.screen.verdict)
    ensures Asked(m, Some(m.screen.receiptOf), NextFromReceipt(m, b))
  {
    if m.screen.receiptOf.TimeReview? {
      SaveTimeAsks(m, b);
    } else if m.screen.receiptOf.Passkey? {
      SendPasskeyAsks(m, b);
    } else {
      BeginForgetAsks(m, b);
    }
  }

  /** Where a receipt's Next leads: it asks again exactly after a refusal or an uncertainty; after a node is
      gone or there was none, on to the passkey; after the clock's, in a whole walk, on to the node; and
      otherwise out. */
  lemma ReceiptLeads(m: Moment, b: Board)
    requires Sound(m) && m.screen.field.Receipt? && !m.screen.Waiting()
    ensures var v, n := m.screen.verdict, Press(m, Next, b);
            if v in {TimeRefused, TimeUncertain, PasskeyRefused, PasskeyUncertain, ForgetKept} then
              Asked(m, Some(m.screen.receiptOf), n)
            else if v in {NodeForgotten, NodePartlyForgotten, NodeNothingToForget} then
              n == m.(screen := m.screen.(verdict := NoVerdict, cursor := 0, field := Passkey))
            else if m.screen.task == All && m.screen.receiptOf == TimeReview then
              Asked(m, None, n) && n.radio.looks == m.radio.looks + 1
              && (n.screen.field.Node? || n.screen.field.Passkey? || n.screen.field.Receipt?)
            else n == m.(screen := m.screen.(leftFrom := Receipt, field := Exit))
  {
    if Retryable(m.screen.verdict) {
      RetryAsks(m, b);
    } else {
      EnterAsksNothing(m, b);
    }
  }

  lemma ReceiptAsks(m: Moment, key: Key, b: Board)
    requires Sound(m) && m.screen.field.Receipt? && !m.screen.Waiting()
    ensures Asked(m, Asks(m.screen, key), PressReceipt(m, key, b))
  {
    EnterAsksNothing(m, b);
    if key == Next && Retryable(m.screen.verdict) {
      RetryAsks(m, b);
    }
  }

  lemma FieldAsks(m: Moment, key: Key, b: Board)
    requires Sound(m) && OnWalk(m.screen)
    ensures Asked(m, Asks(m.screen, key), PressField(m, key, b))
  {
    assert m.(screen := m.screen.(verdict := NoVerdict)) == m;
    if key == Next {
      if m.screen.field.TimeReview? {
        SaveTimeAsks(m, b);
      } else if m.screen.field.Passkey? && m.screen.cursor + 1 >= 6 {
        SendPasskeyAsks(m, b);
      }
    }
  }

  /** The board is asked exactly by the keys that save, send, forget or retry, once and for that. */
  lemma KeyAsks(m: Moment, key: Key, b: Board)
    requires Sound(m)
    ensures Asked(m, Asks(m.screen, key), Press(m, key, b))
  {
    var s := m.screen;
    if !s.field.Exit? && !s.Waiting() {
      if s.field.Receipt? {
        ReceiptAsks(m, key, b);
      } else if s.field.ForgetConfirm? {
        BeginForgetAsks(m, b);
      } else {
        FieldAsks(m, key, b);
      }
    }
  }

  /** A key that is not drawn does nothing. */
  lemma UndrawnKeyIsDead(m: Moment, key: Key, b: Board)
    requires Sound(m) && !Drawn(m.screen, key)
    ensures Press(m, key, b) == m
  {
    if OnWalk(m.screen) {
      assert m.(screen := m.screen.(verdict := NoVerdict)) == m;
      StepKeepsReal(m.screen.draft, m.screen.field, key == Plus);
    }
  }

  /** One that is drawn does something, unless the offset it steps is at its end. */
  lemma DrawnKeyActs(m: Moment, key: Key, b: Board)
    requires Sound(m) && Drawn(m.screen, key) && !Spent(m.screen, key)
    ensures Press(m, key, b) != m
  {
    KeyAsks(m, key, b);
    if Asks(m.screen, key) == None {
      if m.screen.field.Receipt? && !m.screen.Waiting() {
        ReceiptActs(m, key, b);
      } else if OnWalk(m.screen) {
        FieldActs(m, key, b);
      }
    }
  }

  lemma ReceiptActs(m: Moment, key: Key, b: Board)
    requires Sound(m) && m.screen.field.Receipt? && !m.screen.Waiting()
    requires Drawn(m.screen, key) && Asks(m.screen, key) == None
    ensures PressReceipt(m, key, b) != m
  {
    EnterAsksNothing(m, b);
  }

  lemma FieldActs(m: Moment, key: Key, b: Board)
    requires Sound(m) && OnWalk(m.screen)
    requires Drawn(m.screen, key) && !Spent(m.screen, key) && Asks(m.screen, key) == None
    ensures PressField(m, key, b) != m
  {
    var s := m.screen;
    if key == Plus || key == Minus {
      StepKeepsReal(s.draft, s.field, key == Plus);
      if s.field.Passkey? {
        WrapTurns(s.digits[s.cursor], key == Plus, 0, 9);
      }
    }
  }

  /** Plus and Minus on a field count it, on the passkey the digit under the cursor, and do nothing else. */
  predicate Counts(s: Screen, key: Key, t: Screen)
    requires s.cursor < 6
  {
    OnWalk(s) && (key == Plus || key == Minus) ==>
      && t == s.(draft := t.draft, digits := t.digits)
      && Counted(s.draft, s.field, key == Plus, t.draft)
      && if s.field.Passkey? then
           && t.digits == s.digits[s.cursor := t.digits[s.cursor]]
           && t.digits[s.cursor] == Round(s.digits[s.cursor], key == Plus, 0, 10)
         else t.digits == s.digits
  }

  lemma KeyCounts(m: Moment, key: Key, b: Board)
    requires Sound(m)
    ensures Counts(m.screen, key, Press(m, key, b).screen)
    ensures OnWalk(m.screen) && (key == Plus || key == Minus) ==>
              Press(m, key, b) == m.(screen := Press(m, key, b).screen)
  {
    StepCounts(m.screen.draft, m.screen.field, key == Plus);
    if m.screen.field.Passkey? {
      WrapRounds(m.screen.digits[m.screen.cursor], key == Plus, 0, 9);
    }
  }

  /** All of that, of one key. */
  lemma KeyMeans(m: Moment, key: Key, b: Board)
    requires Sound(m)
    ensures Sound(Press(m, key, b)) && Asked(m, Asks(m.screen, key), Press(m, key, b))
    ensures if Drawn(m.screen, key) then Spent(m.screen, key) || Press(m, key, b) != m else Press(m, key, b) == m
    ensures Counts(m.screen, key, Press(m, key, b).screen)
  {
    KeyCounts(m, key, b);
    PressKeeps(m, key, b);
    KeyAsks(m, key, b);
    if !Drawn(m.screen, key) {
      UndrawnKeyIsDead(m, key, b);
    } else if !Spent(m.screen, key) {
      DrawnKeyActs(m, key, b);
    }
  }

  /** Next walks to the very next field or digit, and nothing else changes. */
  lemma NextWalksOn(m: Moment, b: Board)
    requires Sound(m) && Walks(m.screen)
    ensures var n := Press(m, Next, b);
            && n == m.(screen := m.screen.(field := n.screen.field, cursor := n.screen.cursor))
            && Follows(n.screen.field, n.screen.cursor, m.screen.field, m.screen.cursor)
  {
    assert m.(screen := m.screen.(verdict := NoVerdict)) == m;
  }

  /** Previous walks to the field or digit that Next would leave for this one, where it is drawn. */
  lemma PreviousWalksBack(m: Moment, b: Board)
    requires Sound(m) && OnWalk(m.screen) && Drawn(m.screen, Previous)
    ensures var n := Press(m, Previous, b);
            && n == m.(screen := m.screen.(field := n.screen.field, cursor := n.screen.cursor))
            && Follows(m.screen.field, m.screen.cursor, n.screen.field, n.screen.cursor)
  {
    assert m.(screen := m.screen.(verdict := NoVerdict)) == m;
  }

  /** The screen waits for something, and there is an answer to it. */
  predicate Answered(m: Moment, b: Board) {
    if m.screen.awaitingForget then ForgetNews(m.radio, b) != ForgetRunning
    else m.screen.awaitingPasskey && PasskeyNews(m.radio, b) != Pending
  }

  /** A poll moves the screen exactly when it waits and its answer is there, and says what was answered. */
  lemma PollTells(m: Moment, b: Board)
    requires Sound(m)
    ensures var n := Poll(m, b);
            && (n.screen != m.screen <==> Answered(m, b))
            && (n.screen != m.screen ==>
                  !n.screen.Waiting() && n.own == None && n.screen.field == Receipt
                  && n.screen.receiptOf == (if m.screen.awaitingForget then Node else Passkey))
            && (n.screen != m.screen && m.screen.awaitingPasskey ==>
                  (n.screen.verdict == PasskeyStored <==> PasskeyNews(m.radio, b) == Accepted))
            && (n.screen != m.screen && m.screen.awaitingPasskey ==>
                  n.screen.verdict == PasskeyStored || n.screen.verdict == PasskeyUncertain)
            && (n.screen != m.screen && m.screen.awaitingForget ==>
                  && (n.screen.verdict == NodeForgotten <==> ForgetNews(m.radio, b) in {Forgotten, Unpinned})
                  && (n.screen.verdict == NodePartlyForgotten <==> ForgetNews(m.radio, b) == PinOnFlash)
                  && (n.screen.verdict == NodeNothingToForget <==> ForgetNews(m.radio, b) == Nothing)
                  && (n.screen.verdict == ForgetKept <==> ForgetNews(m.radio, b) in {BondKept, ReplayInhibited})
                  && n.screen.hasNode == (m.screen.hasNode && n.screen.verdict == ForgetKept)
                  && n.screen.forgetOutcome == ForgetNews(m.radio, b))
  {
  }

  // ---------------------------------------------------------------------------
  // Requests over requests.

  /** While a screen's own request is unread, also after it was left, it asks for nothing; nothing is ever
      asked of the radio over an unread forget, and over an unread passkey exactly when that is an earlier
      screen's. */
  lemma NothingOverItsOwn(m: Moment, key: Key, b: Board)
    requires Sound(m)
    ensures m.own.Some? ==> Press(m, key, b).radio.sent == m.radio.sent
    ensures OfTheRadio(Asks(m.screen, key)) ==>
              && Press(m, key, b).radio.overs == m.radio.overs + [m.radio.owed]
              && !m.radio.owed.forget && (m.radio.owed.passkey <==> m.inherited)
  {
    KeyAsks(m, key, b);
  }

  /** The radio owes no passkey but the one this screen is waiting for. */
  predicate AllItsOwn(m: Moment) {
    !m.inherited && (m.own == Some(Passkey) ==> m.screen.awaitingPasskey)
  }

  datatype Act = Opens(task: Task, draft: Drafted) | Presses(key: Key) | Polls

  function Do(m: Moment, act: Act, b: Board): Moment
    requires Sound(m)
  {
    match act
    case Opens(task, draft) => Open(m.radio, task, draft, b)
    case Presses(key) => Press(m, key, b)
    case Polls => Poll(m, b)
  }

  lemma DoKeeps(m: Moment, act: Act, b: Board)
    requires Sound(m)
    ensures Sound(Do(m, act, b))
  {
    match act
    case Opens(task, draft) => OpenKeeps(m.radio, task, draft, b);
    case Presses(key) => PressKeeps(m, key, b);
    case Polls => PollKeeps(m, b);
  }

  /** Any run of screens, keys and polls on one board. */
  ghost function After(b: Board, run: seq<Act>): (m: Moment)
    ensures Sound(m)
  {
    if run == [] then
      OpenKeeps(FRESH, LocalTime, DEFAULT_DRAFT, b);
      Open(FRESH, LocalTime, DEFAULT_DRAFT, b)
    else
      DoKeeps(After(b, run[..|run| - 1]), run[|run| - 1], b);
      Do(After(b, run[..|run| - 1]), run[|run| - 1], b)
  }

  /** A passkey's answer is given up: its screen is left, or another takes its place, while it waits. */
  predicate GivesUpPasskey(m: Moment, act: Act) {
    m.screen.awaitingPasskey && (act.Opens? || act == Presses(Leave))
  }

  lemma OpenIsItsOwn(r: Radio, task: Task, draft: Drafted, b: Board)
    ensures Open(r, task, draft, b).inherited == r.owed.passkey && Open(r, task, draft, b).radio.overs == r.overs
  {
    EnterAsksNothing(Blank(r, task, draft), b);
  }

  lemma SendPasskeyIsItsOwn(m: Moment, b: Board)
    requires Sound(m) && m.own == None && !m.inherited
    ensures AllItsOwn(SendPasskey(m, b))
  {
  }

  /** What is not a request for a passkey makes none its own. */
  lemma OthersStayItsOwn(m: Moment, b: Board)
    requires Sound(m) && m.own != Some(Passkey) && !m.inherited
    ensures AllItsOwn(SaveTime(m, b)) && AllItsOwn(BeginForget(m, b)) && AllItsOwn(Depart(m))
  {
  }

  lemma EnterStaysItsOwn(m: Moment, b: Board)
    requires m.own == None && !m.inherited
    ensures AllItsOwn(EnterNodeHalf(m, b))
  {
  }

  lemma ReceiptStaysItsOwn(m: Moment, key: Key, b: Board)
    requires Sound(m) && AllItsOwn(m) && m.screen.field.Receipt? && !m.screen.Waiting()
    ensures AllItsOwn(PressReceipt(m, key, b))
  {
    OthersStayItsOwn(m, b);
    if m.own == None {
      SendPasskeyIsItsOwn(m, b);
      EnterStaysItsOwn(m, b);
    }
  }

  lemma FieldStaysItsOwn(m: Moment, key: Key, b: Board)
    requires Sound(m) && AllItsOwn(m) && OnWalk(m.screen)
    ensures AllItsOwn(PressField(m, key, b))
  {
    assert m.(screen := m.screen.(verdict := NoVerdict)) == m;
    OthersStayItsOwn(m, b);
    SendPasskeyIsItsOwn(m, b);
  }

  lemma PressStaysItsOwn(m: Moment, key: Key, b: Board)
    requires Sound(m) && AllItsOwn(m) && !GivesUpPasskey(m, Presses(key))
    ensures AllItsOwn(Press(m, key, b))
  {
    if !m.screen.Waiting() && !m.screen.field.Exit? {
      if m.screen.field.Receipt? {
        ReceiptStaysItsOwn(m, key, b);
      } else if m.screen.field.ForgetConfirm? {
        OthersStayItsOwn(m, b);
      } else {
        FieldStaysItsOwn(m, key, b);
      }
    }
  }

  ghost predicate NoneOverForget(overs: seq<Owed>) {
    forall i :: 0 <= i < |overs| ==> !overs[i].forget
  }

  ghost predicate NoneOver(overs: seq<Owed>) {
    forall i :: 0 <= i < |overs| ==> overs[i] == Owed(false, false)
  }

  /** Whatever screens one board sees, whatever is pressed on them, whenever they are polled and however
      the board answers: no request of the radio ever goes out over a forget whose answer nobody has read. */
  lemma {:induction false} NoneGoesOverForget(b: Board, run: seq<Act>)
    ensures NoneOverForget(After(b, run).radio.overs)
  {
    if run != [] {
      var m, act := After(b, run[..|run| - 1]), run[|run| - 1];
      NoneGoesOverForget(b, run[..|run| - 1]);
      match act
      case Opens(task, draft) => OpenIsItsOwn(m.radio, task, draft, b);
      case Presses(key) => KeyAsks(m, key, b); NothingOverItsOwn(m, key, b);
      case Polls => PollAsksNothing(m, b);
    }
  }

  lemma DoStaysItsOwn(m: Moment, act: Act, b: Board)
    requires Sound(m) && AllItsOwn(m) && NoneOver(m.radio.overs) && !GivesUpPasskey(m, act)
    ensures AllItsOwn(Do(m, act, b)) && NoneOver(Do(m, act, b).radio.overs)
  {
    match act
    case Opens(task, draft) =>
      OpenIsItsOwn(m.radio, task, draft, b);
      OpenKeeps(m.radio, task, draft, b);
    case Presses(key) =>
      KeyAsks(m, key, b);
      NothingOverItsOwn(m, key, b);
      PressStaysItsOwn(m, key, b);
    case Polls =>
      PollAsksNothing(m, b);
  }

  /** No act of the run gives up a passkey. */
  ghost predicate NoneGivenUp(b: Board, run: seq<Act>) {
    forall i :: 0 <= i < |run| ==> !GivesUpPasskey(After(b, run[..i]), run[i])
  }

  lemma NoneGivenUpBefore(b: Board, run: seq<Act>)
    requires run != [] && NoneGivenUp(b, run)
    ensures NoneGivenUp(b, run[..|run| - 1]) && !GivesUpPasskey(After(b, run[..|run| - 1]), run[|run| - 1])
  {
    var front := run[..|run| - 1];
    assert forall i :: 0 <= i < |front| ==> front[..i] == run[..i];
  }

  /** And none over anybody's passkey either, unless some screen was left or replaced while it waited for
      one: a request that does has such an act before it. */
  lemma {:induction false} OverPasskeyOnlyIfGivenUp(b: Board, run: seq<Act>)
    requires NoneGivenUp(b, run)
    ensures NoneOver(After(b, run).radio.overs) && AllItsOwn(After(b, run))
  {
    if run != [] {
      NoneGivenUpBefore(b, run);
      OverPasskeyOnlyIfGivenUp(b, run[..|run| - 1]);
      DoStaysItsOwn(After(b, run[..|run| - 1]), run[|run| - 1], b);
    }
  }

  // ---------------------------------------------------------------------------
  // And there it does happen.

  lemma AfterNext(b: Board, run: seq<Act>, act: Act)
    ensures After(b, run + [act]) == Do(After(b, run), act, b)
  {
    assert (run + [act])[..|run|] == run;
  }

  /** `n` times Next. */
  function Nexts(n: nat): (acts: seq<Act>)
    ensures |acts| == n
  {
    if n == 0 then [] else Nexts(n - 1) + [Presses(Next)]
  }

  lemma NextDigit(m: Moment, b: Board)
    requires Sound(m) && !m.screen.Waiting() && m.screen.field.Passkey? && m.screen.cursor < 5
    ensures Press(m, Next, b) == m.(screen := m.screen.(cursor := m.screen.cursor + 1))
  {
    assert m.(screen := m.screen.(verdict := NoVerdict)) == m;
  }

  lemma NextAfterNode(m: Moment, b: Board)
    requires Sound(m) && !m.screen.Waiting() && m.screen.field.Node?
    ensures Press(m, Next, b) == m.(screen := m.screen.(field := Passkey))
  {
    assert m.(screen := m.screen.(verdict := NoVerdict)) == m;
  }

  /** From the first digit, Next alone walks to any other. */
  lemma {:induction false} ToDigit(b: Board, run: seq<Act>, n: nat)
    requires var s := After(b, run).screen; !s.Waiting() && s.field.Passkey? && s.cursor == 0
    requires n <= 5
    ensures After(b, run + Nexts(n)) == After(b, run).(screen := After(b, run).screen.(cursor := n))
  {
    if n == 0 {
      assert run + Nexts(0) == run;
    } else {
      ToDigit(b, run, n - 1);
      var longer := run + Nexts(n - 1);
      AfterNext(b, longer, Presses(Next));
      NextDigit(After(b, longer), b);
      assert run + Nexts(n) == longer + [Presses(Next)];
    }
  }

  /** And from the node to the first digit. */
  lemma ToFirstDigit(b: Board, run: seq<Act>) returns (longer: seq<Act>)
    requires var s := After(b, run).screen;
             !s.Waiting() && (s.field.Node? || s.field.Passkey?) && s.cursor == 0
    ensures var s := After(b, longer).screen; !s.Waiting() && s.field.Passkey? && s.cursor == 0
    ensures After(b, longer).radio == After(b, run).radio
  {
    longer := run;
    if After(b, run).screen.field.Node? {
      AfterNext(b, run, Presses(Next));
      NextAfterNode(After(b, run), b);
      longer := run + [Presses(Next)];
    }
  }

  lemma OpensOnNode(r: Radio, draft: Drafted, b: Board)
    requires !r.owed.forget
    ensures var m := Open(r, NodePasskey, draft, b);
            && !m.screen.Waiting() && (m.screen.field.Node? || m.screen.field.Passkey?) && m.screen.cursor == 0
            && m.radio == r.(looks := r.looks + 1)
  {
  }

  lemma LastDigitSends(m: Moment, b: Board)
    requires Sound(m) && m.screen.field.Passkey? && m.screen.cursor == 5 && !m.screen.Waiting()
    ensures var n := Press(m, Next, b);
            && n.radio.overs == m.radio.overs + [m.radio.owed] && n.radio.owed.forget == m.radio.owed.forget
            && (Reply(m.radio, b) == Pending ==> n.radio.owed.passkey)
  {
    assert m.(screen := m.screen.(verdict := NoVerdict)) == m;
  }

  /** On every board and after any run that leaves a passkey unread and no forget, the next screen's passkey
      can go out over it. */
  lemma UnreadPasskeyIsAskedOver(b: Board, run: seq<Act>) returns (longer: seq<Act>)
    requires !After(b, run).radio.owed.forget
    ensures After(b, longer).radio.overs == After(b, run).radio.overs + [After(b, run).radio.owed]
    ensures !After(b, longer).radio.owed.forget
    ensures b.reply(|After(b, run).radio.sent|) == Pending ==> After(b, longer).radio.owed.passkey
  {
    var act := Opens(NodePasskey, DEFAULT_DRAFT);
    AfterNext(b, run, act);
    OpensOnNode(After(b, run).radio, DEFAULT_DRAFT, b);
    var first := ToFirstDigit(b, run + [act]);
    ToDigit(b, first, 5);
    var there := first + Nexts(5);
    LastDigitSends(After(b, there), b);
    AfterNext(b, there, Presses(Next));
    longer := there + [Presses(Next)];
  }

  /** So wherever the first passkey gets as far as the radio, one screen may leave it there and another ask
      over it. */
  lemma AskedOverAnEarlierScreen(b: Board) returns (run: seq<Act>)
    requires b.reply(0) == Pending
    ensures After(b, run).radio.overs == [Owed(false, false), Owed(true, false)]
  {
    var first := UnreadPasskeyIsAskedOver(b, []);
    run := UnreadPasskeyIsAskedOver(b, first);
  }
}

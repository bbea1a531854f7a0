/** The entry screen as values (apps/src/provisioning.cpp): the draft and its steppers, the state of a
    screen, and which keys it draws. */
module ProvisioningModel {
  import opened Wrappers
  import opened Calendar

  datatype Task = LocalTime | NodePasskey | All

  datatype Field =
    | Day | Month | Year | Hour | Minute | Offset | TimeReview | Node | ForgetConfirm | Passkey | Receipt | Exit

  datatype Key = Minus | Plus | Previous | Next | Forget | Leave

  datatype Verdict =
    | NoVerdict | TimeSaved | TimeRefused | TimeUncertain
    | PasskeyPending | PasskeyStored | PasskeyRefused | PasskeyUncertain
    | ForgetPending | NodeForgotten | NodePartlyForgotten | NodeNothingToForget | ForgetKept | Abandoned

  // ---------------------------------------------------------------------------
  // The draft.

  const YEAR_FLOOR: int := 2000
  const YEAR_CEIL: int := 2099
  const OFFSET_FLOOR: int := -720
  const OFFSET_CEIL: int := 840
  const GRID: int := 15

  datatype Draft = Draft(date: Date, hour: nat, minute: nat, offset: int, touched: bool)

  /** A real minute of a year this watch sets, in a zone there is, and on the quarter hour once the
      offset has been stepped. */
  predicate RealDraft(d: Draft) {
    && Real(d.date) && YEAR_FLOOR <= d.date.year <= YEAR_CEIL && d.hour <= 23 && d.minute <= 59
    && OFFSET_FLOOR <= d.offset <= OFFSET_CEIL && (d.touched ==> d.offset % GRID == 0)
  }

  const DEFAULT_DRAFT := Draft(Date(2026, 1, 1), 0, 0, 0, false)

  type Drafted = d: Draft | RealDraft(d) witness DEFAULT_DRAFT

  function CivilOf(d: Draft): Civil {
    Civil(d.date, d.hour, d.minute, 0)
  }

  /** The instant a draft means, if its fields are a time at all. */
  function ToUtc(d: Draft): Option<int> {
    match WallTimeFromCivil(CivilOf(d))
    case None => None
    case Some(local) => Some(local - d.offset * 60)
  }

  /** A real draft always means an instant; and read back through its offset, no other draft's. */
  lemma DraftMeansInstant(d: Draft)
    requires RealDraft(d)
    ensures ToUtc(d).Some? && ToUtc(d).value + d.offset * 60 == Seconds(CivilOf(d))
    ensures forall e: Draft :: RealDraft(e) && e.offset == d.offset && ToUtc(e) == ToUtc(d) ==>
              e.date == d.date && e.hour == d.hour && e.minute == d.minute
  {
    forall e: Draft | RealDraft(e) && e.offset == d.offset && ToUtc(e) == ToUtc(d)
      ensures e.date == d.date && e.hour == d.hour && e.minute == d.minute
    {
      InstantsDiffer(CivilOf(e), CivilOf(d));
    }
  }

  function Wrap(value: nat, up: bool, low: nat, high: nat): nat
    requires low <= value <= high
  {
    if up then if value >= high then low else value + 1
    else if value <= low then high else value - 1
  }

  /** A stepper never stays where it is, never leaves its range, and one step back undoes one step. */
  lemma WrapTurns(value: nat, up: bool, low: nat, high: nat)
    requires low <= value <= high && low < high
    ensures low <= Wrap(value, up, low, high) <= high && Wrap(value, up, low, high) != value
    ensures Wrap(Wrap(value, up, low, high), !up, low, high) == value
  {
  }

  /** The remainder of truncated division, with the sign of the value. */
  function Rem(value: int): int {
    if value < 0 then -((-value) % GRID) else value % GRID
  }

  function StepOffset(value: int, up: bool, touched: bool): int {
    var rem := Rem(value);
    var next :=
      if !touched && rem != 0 then
        if up then value - rem + (if rem > 0 then GRID else 0) else value - rem - (if rem < 0 then GRID else 0)
      else if up then value + GRID else value - GRID;
    if next < OFFSET_FLOOR then OFFSET_FLOOR else if next > OFFSET_CEIL then OFFSET_CEIL else next
  }

  /** A step goes to the very next quarter hour in its direction and nowhere else, on or off the grid,
      either side of zero; at the last zone it stays. */
  lemma OffsetStepsToNextQuarter(value: int, up: bool, touched: bool)
    requires OFFSET_FLOOR <= value <= OFFSET_CEIL && (touched ==> value % GRID == 0)
    ensures var next := StepOffset(value, up, touched);
            && next % GRID == 0 && OFFSET_FLOOR <= next <= OFFSET_CEIL
            && (up ==> if value == OFFSET_CEIL then next == value else value < next <= value + GRID)
            && (!up ==> if value == OFFSET_FLOOR then next == value else value - GRID <= next < value)
  {
    var q := (if value < 0 then -value else value) / GRID;
    assert value - Rem(value) == if value < 0 then -(GRID * q) else GRID * q;
  }

  function ClampDay(d: Date): Date {
    if d.day > DaysInMonth(d.year, d.month) then d.(day := DaysInMonth(d.year, d.month)) else d
  }

  function WrapYear(year: int, up: bool): int {
    if up then if year >= YEAR_CEIL then YEAR_FLOOR else year + 1
    else if year <= YEAR_FLOOR then YEAR_CEIL else year - 1
  }

  /** One step of the field under the cursor. */
  function StepDraft(d: Draft, field: Field, up: bool): Draft
    requires RealDraft(d)
  {
    match field
    case Day => d.(date := d.date.(day := Wrap(d.date.day, up, 1, DaysInMonth(d.date.year, d.date.month))))
    case Month => d.(date := ClampDay(d.date.(month := Wrap(d.date.month, up, 1, 12))))
    case Year => d.(date := ClampDay(d.date.(year := WrapYear(d.date.year, up))))
    case Hour => d.(hour := Wrap(d.hour, up, 0, 23))
    case Minute => d.(minute := Wrap(d.minute, up, 0, 59))
    case Offset => d.(offset := StepOffset(d.offset, up, d.touched), touched := true)
    case _ => d
  }

  /** One on, or one back, round `size` values from `low`. */
  function Round(value: int, up: bool, low: int, size: int): int
    requires size > 0
  {
    low + (value - low + (if up then 1 else -1)) % size
  }

  lemma WrapRounds(value: nat, up: bool, low: nat, high: nat)
    requires low <= value <= high
    ensures Wrap(value, up, low, high) == Round(value, up, low, high - low + 1)
  {
    var size := high - low + 1;
    if up && value == high {
      assert size % size == 0;
    } else if !up && value == low {
      assert (-1) % size == size - 1;
    }
  }

  /** The date `e` has this year and month, and the day of `d` or the last one there is. */
  predicate Moved(d: Date, year: int, month: int, e: Date) {
    var last := DaysInMonth(e.year, e.month);
    e.year == year && e.month == month && e.day == if d.day < last then d.day else last
  }

  /** What one Plus or one Minus makes of a draft: one more or one less of the field under the cursor, round
      its range; the next quarter hour of the offset, up to the last; and nothing else but a clamped day. */
  predicate Counted(d: Draft, field: Field, up: bool, e: Draft)
    requires RealDraft(d)
  {
    match field
    case Day =>
      && e == d.(date := d.date.(day := e.date.day))
      && e.date.day == Round(d.date.day, up, 1, DaysInMonth(d.date.year, d.date.month))
    case Month => e == d.(date := e.date) && Moved(d.date, d.date.year, Round(d.date.month, up, 1, 12), e.date)
    case Year => e == d.(date := e.date) && Moved(d.date, Round(d.date.year, up, 2000, 100), d.date.month, e.date)
    case Hour => e == d.(hour := e.hour) && e.hour == Round(d.hour, up, 0, 24)
    case Minute => e == d.(minute := e.minute) && e.minute == Round(d.minute, up, 0, 60)
    case Offset =>
      && e == d.(offset := e.offset, touched := true) && e.offset % 15 == 0 && -720 <= e.offset <= 840
      && (up && d.offset < 840 ==> d.offset < e.offset <= d.offset + 15)
      && (!up && d.offset > -720 ==> d.offset - 15 <= e.offset < d.offset)
    case _ => e == d
  }

  lemma StepCounts(d: Draft, field: Field, up: bool)
    requires RealDraft(d)
    ensures Counted(d, field, up, StepDraft(d, field, up))
  {
    match field
    case Day => WrapRounds(d.date.day, up, 1, DaysInMonth(d.date.year, d.date.month));
    case Month =>
      WrapRounds(d.date.month, up, 1, 12);
      MonthsAreLong(d.date.year, Wrap(d.date.month, up, 1, 12));
    case Year => MonthsAreLong(WrapYear(d.date.year, up), d.date.month);
    case Hour => WrapRounds(d.hour, up, 0, 23);
    case Minute => WrapRounds(d.minute, up, 0, 59);
    case Offset => OffsetStepsToNextQuarter(d.offset, up, d.touched);
    case _ =>
  }

  predicate Steps(field: Field) {
    field.Day? || field.Month? || field.Year? || field.Hour? || field.Minute? || field.Offset?
  }

  /** The offset has been stepped to the last zone there is in that direction. */
  predicate AtTheEnd(d: Draft, field: Field, up: bool) {
    field.Offset? && d.touched && d.offset == (if up then OFFSET_CEIL else OFFSET_FLOOR)
  }

  /** Stepping keeps a draft real, and does something unless it is at the end. */
  lemma StepKeepsReal(d: Draft, field: Field, up: bool)
    requires RealDraft(d)
    ensures RealDraft(StepDraft(d, field, up))
    ensures Steps(field) ==> (StepDraft(d, field, up) == d <==> AtTheEnd(d, field, up))
    ensures !Steps(field) ==> StepDraft(d, field, up) == d
  {
    MonthsAreLong(d.date.year, d.date.month);
    if field.Offset? {
      OffsetStepsToNextQuarter(d.offset, up, d.touched);
    } else if field.Month? {
      MonthsAreLong(d.date.year, Wrap(d.date.month, up, 1, 12));
    } else if field.Year? {
      MonthsAreLong(WrapYear(d.date.year, up), d.date.month);
    }
  }

  lemma MonthsAreLong(year: int, month: nat)
    requires 1 <= month <= 12
    ensures 28 <= DaysInMonth(year, month) <= 31
  {
  }

  // ---------------------------------------------------------------------------
  // The screen.

  datatype ForgetOutcome = ForgetRunning | Forgotten | Unpinned | PinOnFlash | Nothing | BondKept | ReplayInhibited

  datatype Screen = Screen(
    task: Task, field: Field, leftFrom: Field, verdict: Verdict, draft: Drafted, digits: Row, cursor: nat,
    awaitingPasskey: bool, awaitingForget: bool, passkeyUncertain: bool, hasNode: bool, forgetOutcome: ForgetOutcome,
    receiptOf: Field)
  {
    predicate Waiting() {
      awaitingPasskey || awaitingForget
    }
  }

  predicate Retryable(v: Verdict) {
    v.TimeRefused? || v.TimeUncertain? || v.PasskeyRefused? || v.PasskeyUncertain? || v.ForgetKept?
  }

  predicate LeadsToPasskey(v: Verdict) {
    v.NodeForgotten? || v.NodePartlyForgotten? || v.NodeNothingToForget?
  }

  predicate Digits(digits: seq<nat>) {
    |digits| == 6 && forall i :: 0 <= i < 6 ==> digits[i] <= 9
  }

  type Row = digits: seq<nat> | Digits(digits) witness [0, 0, 0, 0, 0, 0]

  /** What holds of every screen a walk can reach. */
  predicate Coherent(s: Screen) {
    && s.cursor < 6 && !(s.awaitingPasskey && s.awaitingForget)
    && (s.Waiting() ==> !s.field.Exit?)
    && (s.awaitingPasskey ==> s.verdict == PasskeyPending) && (s.awaitingForget ==> s.verdict == ForgetPending)
    && (!s.Waiting() && !s.field.Receipt? && !s.field.Exit? ==> s.verdict == NoVerdict)
    && (s.verdict == Abandoned ==> !s.Waiting() && s.receiptOf == Exit && (s.field.Receipt? || s.field.Exit?))
    && (s.field.Receipt? && Retryable(s.verdict) ==>
        s.receiptOf.TimeReview? || s.receiptOf.Passkey? || s.receiptOf.Node?)
    && (s.field.Receipt? && LeadsToPasskey(s.verdict) ==> s.receiptOf.Node?)
    && (s.field.Exit? ==> !s.leftFrom.Exit?)
  }

  /** The walk has reached the node half. */
  predicate PastClock(s: Screen) {
    s.field.Node? || s.field.ForgetConfirm? || s.field.Passkey?
    || (s.field.Receipt? && (s.receiptOf.Node? || s.receiptOf.Passkey?))
  }

  /** A step of the walk on which Next asks for nothing. */
  predicate Walks(s: Screen) {
    !s.Waiting() && Place(s.field) > 0 && Asks(s, Next) == None
  }

  /** Which keys have a label, which is all a face draws. */
  predicate Drawn(s: Screen, k: Key) {
    if s.field.Exit? then false
    else if s.Waiting() then k == Leave
    else match s.field
      case Day => k == Minus || k == Plus || k == Next || k == Leave
      case Month | Year | Hour | Minute | Offset => k != Forget
      case TimeReview => k == Previous || k == Next || k == Leave
      case Node => k == Next || k == Forget || k == Leave
      case ForgetConfirm => k == Previous || k == Minus || k == Leave
      case Passkey => k == Minus || k == Plus || k == Next || k == Leave
        || (k == Previous && (s.cursor > 0 || s.hasNode))
      case Receipt =>
        k == Leave || k == Next || (k == Previous && Retryable(s.verdict) && s.receiptOf != Exit)
        || (k == Plus && Retryable(s.verdict) && s.task == All && s.receiptOf == TimeReview)
      case Exit => false
  }

  /** What a key asks the board for, if anything: the review's and the last digit's Next, the
      confirmation's Minus, and a receipt's Retry of what it is a receipt of. */
  function Asks(s: Screen, k: Key): Option<Field> {
    if s.Waiting() then None
    else match s.field
      case TimeReview => if k == Next then Some(TimeReview) else None
      case Passkey => if k == Next && s.cursor == 5 then Some(Passkey) else None
      case ForgetConfirm => if k == Minus then Some(Node) else None
      case Receipt => if k == Next && Retryable(s.verdict) then Some(s.receiptOf) else None
      case _ => None
  }

  /** Where a field stands in the walk of its half. */
  function Place(f: Field): nat {
    match f
    case Day => 1
    case Month => 2
    case Year => 3
    case Hour => 4
    case Minute => 5
    case Offset => 6
    case TimeReview => 7
    case Node => 9
    case Passkey => 10
    case _ => 0
  }

  /** The field after one, up to the review and up to the passkey, whose own steps are its digits. */
  function FieldAfter(f: Field): (after: Field)
    ensures 1 <= Place(f) < 7 || f.Node? ==> Place(after) == Place(f) + 1
    ensures f.Passkey? ==> after == f
  {
    match f
    case Day => Month
    case Month => Year
    case Year => Hour
    case Hour => Minute
    case Minute => Offset
    case Offset => TimeReview
    case Node => Passkey
    case _ => f
  }

  /** And the field before one, down to the day and to the node. */
  function FieldBefore(f: Field): (before: Field)
    ensures 1 < Place(f) <= 7 || f.Passkey? ==> Place(before) == Place(f) - 1
    ensures f.Day? || f.Node? ==> before == f
  {
    match f
    case Month => Day
    case Year => Month
    case Hour => Year
    case Minute => Hour
    case Offset => Minute
    case TimeReview => Offset
    case Passkey => Node
    case _ => f
  }

  /** The step (`f`, `c`) comes right after (`e`, `b`): the next digit, or the next field. */
  predicate Follows(f: Field, c: nat, e: Field, b: nat) {
    if e.Passkey? then f == e && c == b + 1
    else Place(f) == Place(e) + 1 && Place(e) > 0 && c == b
  }

  /** The keys that answer although they can change nothing more. */
  predicate Spent(s: Screen, k: Key) {
    !s.Waiting() && ((k == Plus && AtTheEnd(s.draft, s.field, true))
                     || (k == Minus && AtTheEnd(s.draft, s.field, false)))
  }

  /** Fields of the walk, where every key but Next asks for nothing. */
  predicate OnWalk(s: Screen) {
    !s.Waiting() && !s.field.Receipt? && !s.field.ForgetConfirm? && !s.field.Exit?
  }

  /** The number six digits spell. */
  function Spelled(digits: seq<nat>, n: nat): nat
    requires n <= |digits|
  {
    if n == 0 then 0 else Spelled(digits, n - 1) * 10 + digits[n - 1]
  }

  function PowerOfTen(n: nat): nat {
    if n == 0 then 1 else 10 * PowerOfTen(n - 1)
  }

  lemma LastDigits(x: nat, a: nat, y: nat, b: nat, power: nat)
    requires a <= 9 && b <= 9 && x < power
    ensures x * 10 + a < 10 * power
    ensures x * 10 + a == y * 10 + b ==> x == y && a == b
  {
  }

  /** Six digits spell a passkey, and no two rows of digits the same one. */
  lemma {:induction false} SpelledDiffers(a: seq<nat>, b: seq<nat>, n: nat)
    requires Digits(a) && Digits(b) && n <= 6
    ensures Spelled(a, n) < PowerOfTen(n)
    ensures Spelled(a, n) == Spelled(b, n) ==> a[..n] == b[..n]
  {
    if n > 0 {
      SpelledDiffers(a, b, n - 1);
      LastDigits(Spelled(a, n - 1), a[n - 1], Spelled(b, n - 1), b[n - 1], PowerOfTen(n - 1));
      assert a[..n] == a[..n - 1] + [a[n - 1]] && b[..n] == b[..n - 1] + [b[n - 1]];
    }
  }
}

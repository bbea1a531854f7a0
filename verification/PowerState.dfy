/** Power states, wake sources and the masks over them (core/src/power_state.cpp).

    A 16-bit mask is modelled as the set of its bit positions, so that `&`, `|` and `& ~`
    are intersection, union and difference.  A `PowerDomain` or `WakeSource` is its
    enumerator value, which is also its bit position. */
module PowerState {

  datatype State = Active | Idle | LightSleep | MeshListenSleep | DeepSleep | PowerOff

  type Mask = s: set<nat> | forall b :: b in s ==> b < 16

  const DOMAIN_COUNT: nat := 5
  const SOURCE_COUNT: nat := 8

  type Domain = d: nat | d < DOMAIN_COUNT
  type Source = w: nat | w < SOURCE_COUNT

  const DISPLAY: Domain := 0
  const RADIO: Domain := 1
  const NODE_LINK: Domain := 2
  const GNSS: Domain := 3
  const IMU: Domain := 4

  const TIMER: Source := 0
  const BUTTON: Source := 1
  const TOUCH: Source := 2
  const RADIO_IRQ: Source := 3
  const NODE_LINK_WAKE: Source := 4
  const USB: Source := 5
  const ACCELEROMETER: Source := 6
  const PMU: Source := 7

  const ALL_BITS: Mask := {0, 1, 2, 3, 4, 5, 6, 7, 8, 9, 10, 11, 12, 13, 14, 15}
  const ALL_SOURCES: Mask := {TIMER, BUTTON, TOUCH, RADIO_IRQ, NODE_LINK_WAKE, USB, ACCELEROMETER, PMU}
  const ALL_DOMAINS: Mask := {DISPLAY, RADIO, NODE_LINK, GNSS, IMU}

  function LegalWakeSources(state: State): Mask {
    match state
    case Active | Idle => ALL_BITS
    case LightSleep => {TIMER, BUTTON, TOUCH, RADIO_IRQ, NODE_LINK_WAKE, USB, ACCELEROMETER, PMU}
    case MeshListenSleep => {TIMER, BUTTON, RADIO_IRQ, NODE_LINK_WAKE, PMU}
    case DeepSleep => {TIMER, BUTTON, PMU}
    case PowerOff => {BUTTON, PMU}
  }

  predicate WakePlanIsLegal(state: State, armed: Mask) {
    armed - LegalWakeSources(state) == {}
  }

  predicate TransitionIsLegal(from: State, to: State) {
    if from == to || to == PowerOff then true
    else match from
      case Active => to == Idle
      case Idle => to in {Active, LightSleep, MeshListenSleep, DeepSleep}
      case LightSleep | MeshListenSleep => to == Idle
      case DeepSleep | PowerOff => to == Active
  }

  /** What may wake a state, source by source: any source there is wakes a light sleep; listening for the
      mesh, those that touch the watch or plug it in do not; below that nothing on the air does. */
  predicate MayWake(state: State, w: nat) {
    match state
    case Active | Idle => w < 16
    case LightSleep => w < SOURCE_COUNT
    case MeshListenSleep => w < SOURCE_COUNT && w != TOUCH && w != USB && w != ACCELEROMETER
    case DeepSleep => w == TIMER || w == BUTTON || w == PMU
    case PowerOff => w == BUTTON || w == PMU
  }

  /** The masks say exactly that, and name exactly the sources a plan should not have armed. */
  lemma MasksAreExact(state: State, armed: Mask)
    ensures WakePlanIsLegal(state, armed) <==> forall w :: w in armed ==> MayWake(state, w)
    ensures armed - LegalWakeSources(state) == set w | w in armed && !MayWake(state, w)
  {
    forall w | w in armed ensures w in LegalWakeSources(state) <==> MayWake(state, w) {
    }
    var wrong := set w | w in armed && !MayWake(state, w);
    assert armed - LegalWakeSources(state) == wrong;
    assert wrong == {} <==> forall w :: w in armed ==> MayWake(state, w) by {
      assert forall w :: w in armed && !MayWake(state, w) ==> w in wrong;
    }
  }

  /** Where each state leads.  Off is always reachable, every sleep is entered from Idle, a retained one
      goes back there, and one that is not retained ends in a reboot. */
  lemma WhereStatesLead(from: State, next: State)
    ensures TransitionIsLegal(from, next) <==>
              || next == from || next == PowerOff || from == Idle
              || (next == Idle && from !in {DeepSleep, PowerOff})
              || (next == Active && from in {DeepSleep, PowerOff})
  {
  }

  /** How restful a state is.  Waking power shrinks as this grows. */
  function Depth(s: State): nat {
    match s
    case Active => 0
    case Idle => 1
    case LightSleep => 2
    case MeshListenSleep => 3
    case DeepSleep => 4
    case PowerOff => 5
  }

  /** The deeper the state, the fewer sources may wake it, and nothing over the air may wake
      a state deeper than MeshListenSleep. */
  lemma DeeperStatesArmLess(a: State, b: State)
    requires Depth(a) <= Depth(b)
    ensures LegalWakeSources(b) <= LegalWakeSources(a)
    ensures Depth(b) > Depth(MeshListenSleep) ==>
              WakePlanIsLegal(b, {RADIO_IRQ}) == WakePlanIsLegal(b, {NODE_LINK_WAKE}) == false
  {
    assert RADIO_IRQ in {RADIO_IRQ} && NODE_LINK_WAKE in {NODE_LINK_WAKE};
    if Depth(b) > Depth(MeshListenSleep) {
      assert RADIO_IRQ in {RADIO_IRQ} - LegalWakeSources(b);
      assert NODE_LINK_WAKE in {NODE_LINK_WAKE} - LegalWakeSources(b);
    }
  }

  /** Every sleep is entered from Idle, and every wake of a retained state returns to Idle. */
  lemma SleepIsEnteredFromIdle(from: State, to: State)
    requires Depth(to) in {2, 3, 4} && from != to && TransitionIsLegal(from, to)
    ensures from == Idle
    ensures to != DeepSleep ==> forall next :: TransitionIsLegal(to, next) ==> next in {to, Idle, PowerOff}
  {
  }
}

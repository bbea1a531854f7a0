/** The retained BLE passkey and the two durable gates over it (firmware/main/meshcore_passkey.h).
    Flash answers every write with an outcome chosen by an adversary: a write can be refused, or cut
    short by a power loss, and have taken effect all the same. */
module Passkey {
  import opened Wrappers

  const PASSKEY_MAX: nat := 999999

  predicate IsPairing(passkey: nat) {
    passkey != 0 && passkey <= PASSKEY_MAX
  }

  /** How a durable step ends; `landed` says whether one that failed took effect. */
  datatype Answer = Done | Refused(landed: bool) | Cut(landed: bool) {
    predicate Lands() {
      this.Done? || this.landed
    }
  }

  /** The boolean a sequence of steps reports, unless the power went first. */
  datatype Ending = Reports(ok: bool) | PowerLost

  /** What is known of the digits on flash: those of the last `store` that succeeded, unless a later
      one was refused or cut short; or that they were erased since. */
  datatype Knowledge = NeverStored | Stored(passkey: nat) | Spoiled | Erased

  /** What the boot can read. */
  datatype Read = Readable | GateUnreadable | DigitsUnreadable

  datatype Restore = Restored | Absent | Unreadable | NotPairing | NotQueued | ReplayInhibited | ReplayUnreadable

  /** The outcomes of the four steps of a write, and the digits a failed `store` leaves. */
  datatype PersistSteps = PersistSteps(raise: Answer, store: Answer, torn: Option<nat>, forget: Answer, lower: Answer)

  datatype EraseSteps = EraseSteps(erase: Answer, forget: Answer, lower: Answer)

  /** What flash holds. */
  datatype Chip = Chip(digits: Option<nat>, writeGate: bool, forgetGate: bool) {
    /** Whether only a forget keeps a boot from arming what is there. */
    predicate Armable() {
      !writeGate && digits.Some? && IsPairing(digits.value)
    }

    predicate Replays() {
      !forgetGate && Armable()
    }
  }

  /** With the write gate down, digits on flash are the ones last stored, for certain; and erased ones
      are gone. */
  predicate Sure(c: Chip, known: Knowledge) {
    && (!c.writeGate && c.digits.Some? ==> known == Stored(c.digits.value))
    && (known == Erased ==> c.digits == None)
  }

  class Flash {
    var digits: Option<nat>
    var writeGate: bool
    var forgetGate: bool
    ghost var known: Knowledge

    ghost predicate Valid()
      reads this
    {
      Sure(Holds(), known)
    }

    function Holds(): Chip
      reads `digits, `writeGate, `forgetGate
    {
      Chip(digits, writeGate, forgetGate)
    }

    /** Whether only a forget keeps a boot from arming what is on flash. */
    predicate Armable()
      reads this
    {
      Holds().Armable()
    }

    /** Whether a boot that can read its flash arms anything. */
    predicate Replays()
      reads this
    {
      Holds().Replays()
    }

    constructor ()
      ensures Valid() && digits == None && !writeGate && !forgetGate && known == NeverStored
    {
      digits, writeGate, forgetGate, known := None, false, false, NeverStored;
    }

    // -------------------------------------------------------------------------
    // Single durable steps.

    method RaiseWriteGate(a: Answer)
      modifies `writeGate
      ensures writeGate == (old(writeGate) || a.Lands())
    {
      if a.Lands() {
        writeGate := true;
      }
    }

    method LowerWriteGate(a: Answer)
      modifies `writeGate
      ensures writeGate == (old(writeGate) && !a.Lands())
    {
      if a.Lands() {
        writeGate := false;
      }
    }

    method RaiseForgetGate(a: Answer)
      modifies `forgetGate
      ensures forgetGate == (old(forgetGate) || a.Lands())
    {
      if a.Lands() {
        forgetGate := true;
      }
    }

    method LowerForgetGate(a: Answer)
      modifies `forgetGate
      ensures forgetGate == (old(forgetGate) && !a.Lands())
    {
      if a.Lands() {
        forgetGate := false;
      }
    }

    /** A `store` that fails may leave anything. */
    method Store(passkey: nat, a: Answer, torn: Option<nat>)
      modifies `digits, `known
      ensures digits == if a.Done? then Some(passkey) else torn
      ensures known == if a.Done? then Stored(passkey) else Spoiled
    {
      digits := if a.Done? then Some(passkey) else torn;
      known := if a.Done? then Stored(passkey) else Spoiled;
    }

    method Erase(a: Answer)
      modifies `digits, `known
      ensures digits == if a.Lands() then None else old(digits)
      ensures known == if a.Done? then Erased else old(known)
    {
      if a.Lands() {
        digits := None;
      }
      if a.Done? {
        known := Erased;
      }
    }

    // -------------------------------------------------------------------------
    // The operations.

    /** However the four steps end, flash stays honest about its digits; and the write reports
        success exactly when every step did, and then a boot replays these digits. */
    method Persist(passkey: nat, steps: PersistSteps) returns (ending: Ending)
      requires Valid()
      modifies this
      ensures Valid() && known == Known(old(known), Write(passkey, steps))
      ensures Holds() == Written(old(Holds()), passkey, steps)
      ensures ending == Reports(true) <==>
                steps.raise.Done? && steps.store.Done? && steps.forget.Done? && steps.lower.Done?
      ensures ending == PowerLost <==>
                || steps.raise.Cut? || (steps.raise.Done? && steps.store.Cut?)
                || (steps.raise.Done? && steps.store.Done? && steps.forget.Cut?)
                || (steps.raise.Done? && steps.store.Done? && steps.forget.Done? && steps.lower.Cut?)
      ensures ending == Reports(true) ==> digits == Some(passkey) && !writeGate && !forgetGate
      ensures old(!Replays()) && Replays() ==> digits == Some(passkey)
      ensures ending != Reports(true) && Replays() ==>
                (digits == old(digits) && !old(writeGate)) || (digits == Some(passkey) && steps.lower.Lands())
    {
      RaiseWriteGate(steps.raise);
      if !steps.raise.Done? {
        return if steps.raise.Cut? then PowerLost else Reports(false);
      }
      Store(passkey, steps.store, steps.torn);
      if !steps.store.Done? {
        return if steps.store.Cut? then PowerLost else Reports(false);
      }
      LowerForgetGate(steps.forget);
      if !steps.forget.Done? {
        return if steps.forget.Cut? then PowerLost else Reports(false);
      }
      LowerWriteGate(steps.lower);
      return if steps.lower.Cut? then PowerLost else Reports(steps.lower.Done?);
    }

    /** The off switch: nothing is armed by it, and success means nothing is left to arm. */
    method EraseAll(steps: EraseSteps) returns (ending: Ending)
      requires Valid()
      modifies this
      ensures Valid() && known == Known(old(known), SwitchOff(steps))
      ensures Holds() == Wiped(old(Holds()), steps)
      ensures ending == Reports(true) ==> known == Erased
      ensures ending == Reports(true) <==> steps.erase.Done? && steps.forget.Done? && steps.lower.Done?
      ensures ending == PowerLost <==>
                || steps.erase.Cut? || (steps.erase.Done? && steps.forget.Cut?)
                || (steps.erase.Done? && steps.forget.Done? && steps.lower.Cut?)
      ensures ending == Reports(true) ==> digits == None && !writeGate && !forgetGate
      ensures digits == None || (digits == old(digits) && writeGate == old(writeGate) && forgetGate == old(forgetGate))
      ensures Replays() ==> old(Replays())
    {
      Erase(steps.erase);
      if !steps.erase.Done? {
        return if steps.erase.Cut? then PowerLost else Reports(false);
      }
      LowerForgetGate(steps.forget);
      if !steps.forget.Done? {
        return if steps.forget.Cut? then PowerLost else Reports(false);
      }
      LowerWriteGate(steps.lower);
      return if steps.lower.Cut? then PowerLost else Reports(steps.lower.Done?);
    }

    /** A boot arms a passkey only if it is the one the last `store` wrote, that `store` succeeded and
        none since has failed; and it does so whenever it can read a pairing passkey with both gates
        down.  What it arms is not written back. */
    method RestorePasskey(read: Read, queued: bool) returns (outcome: Restore, armed: Option<nat>)
      requires Valid()
      ensures armed.Some? ==> known == Stored(armed.value) && IsPairing(armed.value)
      ensures armed == Arms(Holds(), Boot(read, queued))
      ensures armed.Some? <==> Replays() && read == Readable && queued
      ensures outcome == Restored <==> armed.Some?
      ensures outcome == NotQueued <==> Replays() && read == Readable && !queued
      ensures outcome == ReplayUnreadable <==> read == GateUnreadable
      ensures outcome == ReplayInhibited <==> read != GateUnreadable && (writeGate || forgetGate)
      ensures outcome == Unreadable <==> read == DigitsUnreadable && !writeGate && !forgetGate
      ensures outcome == Absent <==> read == Readable && !writeGate && !forgetGate && digits == None
      ensures outcome == NotPairing <==>
                read == Readable && !writeGate && !forgetGate && digits.Some? && !IsPairing(digits.value)
    {
      armed := None;
      if read == GateUnreadable {
        return ReplayUnreadable, None;
      }
      if writeGate || forgetGate {
        return ReplayInhibited, None;
      }
      if read == DigitsUnreadable {
        return Unreadable, None;
      }
      if digits == None {
        return Absent, None;
      }
      if !IsPairing(digits.value) {
        return NotPairing, None;
      }
      if queued {
        return Restored, digits;
      }
      return NotQueued, None;
    }
  }

  /** An operator's request: only six digits get as far as the worker, and the unpaired probe is
      never marked for flash. */
  method RequestPasskey(passkey: nat, queued: bool) returns (ok: bool, persist: Option<bool>)
    ensures passkey > 999_999 ==> !ok && persist == None
    ensures passkey <= 999_999 ==> ok == queued && persist == Some(passkey != 0)
  {
    if passkey > PASSKEY_MAX {
      return false, None;
    }
    return queued, Some(IsPairing(passkey));
  }

  // ---------------------------------------------------------------------------
  // A life of the watch.

  datatype Act =
    | Write(passkey: nat, steps: PersistSteps)
    | SwitchOff(erase: EraseSteps)
    | Forget(mark: Answer, cancel: Option<Answer>)
    | Boot(read: Read, queued: bool)

  /** The acts that decide what is known of the digits: a `store` that was reached, and an erasure that
      succeeded. */
  predicate Settles(act: Act) {
    match act
    case Write(_, steps) => steps.raise.Done?
    case SwitchOff(steps) => steps.erase.Done?
    case Forget(_, _) | Boot(_, _) => false
  }

  function Known(before: Knowledge, act: Act): Knowledge {
    if !Settles(act) then before
    else if act.SwitchOff? then Erased
    else if act.steps.store.Done? then Stored(act.passkey)
    else Spoiled
  }

  ghost function KnownAfter(acts: seq<Act>): Knowledge {
    if acts == [] then NeverStored else Known(KnownAfter(acts[..|acts| - 1]), acts[|acts| - 1])
  }

  /** Whether the act at `at` stored `passkey`, and none after it settled the matter anew. */
  ghost predicate LastStored(acts: seq<Act>, at: nat, passkey: nat) {
    && at < |acts| && acts[at].Write? && acts[at].passkey == passkey && Settles(acts[at]) && acts[at].steps.store.Done?
    && forall k :: at < k < |acts| ==> !Settles(acts[k])
  }

  /** The passkey taken to be stored has its act: after a successful erasure, for one, nothing does
      until the next write reaches its `store`. */
  lemma {:induction false} StoredIsLastStored(acts: seq<Act>, passkey: nat)
    ensures KnownAfter(acts) == Stored(passkey) <==> exists at: nat :: LastStored(acts, at, passkey)
  {
    if acts != [] {
      var n := |acts| - 1;
      StoredIsLastStored(acts[..n], passkey);
      if Settles(acts[n]) {
        assert KnownAfter(acts) == Stored(passkey) ==> LastStored(acts, n, passkey);
        assert forall at: nat :: LastStored(acts, at, passkey) ==> at == n;
      } else {
        assert forall at: nat :: LastStored(acts[..n], at, passkey) <==> LastStored(acts, at, passkey);
      }
    }
  }

  // Flash after each act, as a value: each step that is reached lands or does not.

  function Written(c: Chip, passkey: nat, steps: PersistSteps): Chip {
    if !steps.raise.Done? then c.(writeGate := c.writeGate || steps.raise.Lands())
    else if !steps.store.Done? then c.(writeGate := true, digits := steps.torn)
    else
      var stored := c.(writeGate := true, digits := Some(passkey), forgetGate := c.forgetGate && !steps.forget.Lands());
      if steps.forget.Done? then stored.(writeGate := !steps.lower.Lands()) else stored
  }

  function Wiped(c: Chip, steps: EraseSteps): Chip {
    var erased := if steps.erase.Lands() then c.(digits := None) else c;
    if !steps.erase.Done? then erased
    else
      var unmarked := erased.(forgetGate := c.forgetGate && !steps.forget.Lands());
      if steps.forget.Done? then unmarked.(writeGate := c.writeGate && !steps.lower.Lands()) else unmarked
  }

  function Lived(c: Chip, act: Act): Chip {
    match act
    case Write(passkey, steps) => Written(c, passkey, steps)
    case SwitchOff(steps) => Wiped(c, steps)
    case Forget(mark, cancel) =>
      c.(forgetGate := (c.forgetGate || mark.Lands()) && !(cancel.Some? && cancel.value.Lands()))
    case Boot(_, _) => c
  }

  const NEW_CHIP := Chip(None, false, false)

  ghost function HeldAfter(acts: seq<Act>): Chip {
    if acts == [] then NEW_CHIP else Lived(HeldAfter(acts[..|acts| - 1]), acts[|acts| - 1])
  }

  /** What a boot arms. */
  function Arms(c: Chip, act: Act): Option<nat> {
    if act.Boot? && act.read == Readable && act.queued && c.Replays() then c.digits else None
  }

  lemma {:induction false} HeldIsSure(acts: seq<Act>)
    ensures Sure(HeldAfter(acts), KnownAfter(acts))
  {
    if acts != [] {
      HeldIsSure(acts[..|acts| - 1]);
    }
  }

  /** Whatever the watch lives through, with any step of anything refused or cut short, a boot that arms
      a passkey arms the one of the latest `store`, which succeeded, with nothing erased since. */
  lemma ArmedIsLastStored(acts: seq<Act>, i: nat, passkey: nat)
    requires i < |acts| && Arms(HeldAfter(acts[..i]), acts[i]) == Some(passkey)
    ensures IsPairing(passkey) && exists at: nat :: LastStored(acts[..i], at, passkey)
  {
    HeldIsSure(acts[..i]);
    StoredIsLastStored(acts[..i], passkey);
  }

  /** A life of the watch, act by act on one flash: each boot arms exactly what flash then holds for it. */
  method Life(acts: seq<Act>) returns (boots: seq<Option<nat>>)
    ensures |boots| == |acts|
    ensures forall i :: 0 <= i < |acts| ==> boots[i] == Arms(HeldAfter(acts[..i]), acts[i])
  {
    var flash := new Flash();
    boots := [];
    for i := 0 to |acts|
      invariant fresh(flash) && flash.Valid() && flash.Holds() == HeldAfter(acts[..i]) && |boots| == i
      invariant forall k :: 0 <= k < i ==> boots[k] == Arms(HeldAfter(acts[..k]), acts[k])
    {
      assert acts[..i + 1][..i] == acts[..i];
      var armed := Live(flash, acts[i]);
      boots := boots + [armed];
    }
  }

  method Live(flash: Flash, act: Act) returns (armed: Option<nat>)
    requires flash.Valid()
    modifies flash
    ensures flash.Valid() && flash.known == Known(old(flash.known), act)
    ensures flash.Holds() == Lived(old(flash.Holds()), act) && armed == Arms(old(flash.Holds()), act)
  {
    armed := None;
    match act
    case Write(passkey, steps) =>
      var _ := flash.Persist(passkey, steps);
    case SwitchOff(steps) =>
      var _ := flash.EraseAll(steps);
    case Forget(mark, cancel) =>
      flash.RaiseForgetGate(mark);
      if cancel.Some? {
        flash.LowerForgetGate(cancel.value);
      }
    case Boot(read, queued) =>
      var outcome;
      outcome, armed := flash.RestorePasskey(read, queued);
  }

  /** A stored passkey comes back at the next boot, whatever flash held and however badly earlier
      writes had gone. */
  method StoredThenReplayed(flash: Flash, passkey: nat, steps: PersistSteps) returns (armed: Option<nat>)
    requires flash.Valid() && IsPairing(passkey)
    modifies flash
    ensures steps.raise.Done? && steps.store.Done? && steps.forget.Done? && steps.lower.Done? ==> armed == Some(passkey)
    ensures armed.Some? && !old(flash.Replays()) ==> armed == Some(passkey)
  {
    var ending := flash.Persist(passkey, steps);
    var outcome;
    outcome, armed := flash.RestorePasskey(Readable, true);
  }
}

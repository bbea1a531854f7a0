/** Forgetting a node (firmware/main/meshcore_node_forget.h): a fixed order of durable steps, any of
    which may be refused or cut short, in front of the boot that would replay the passkey. */
module NodeForget {
  import opened Wrappers
  import opened Passkey

  /** How a forget ends. */
  datatype Outcome = Forgotten | Unpinned | BondKept | PinOnFlash | Nothing | Inhibited | PowerGone

  /** How each step that can fail ends. */
  datatype Steps = Steps(terminate: Answer, mark: Answer, delete: Answer, erasePin: Answer, cancel: Answer) {
    predicate Marks() {
      terminate.Done? && mark.Done?
    }
  }

  /** What a caller can read before it asks: the record of a conflict, the bond, the two copies of the
      pin, the marker an earlier forget left, and whether only that marker keeps a boot from arming what
      is on flash. */
  datatype Standing = Standing(conflict: bool, bond: bool, pin: Option<nat>, pinOnFlash: Option<nat>, marked: bool,
                               armable: bool)

  predicate SameTrust(s: Standing, t: Standing) {
    s.bond == t.bond && s.pin == t.pin && s.pinOnFlash == t.pinOnFlash
  }

  /** The marker comes down again over trust that changed: a refused deletion took effect, or the pin was
      already out of memory and only its copy on flash was erased. */
  predicate Leaks(s: Standing, steps: Steps) {
    && s.armable && steps.Marks() && steps.cancel.Lands()
    && if s.conflict then s.bond && steps.delete == Refused(true)
       else s.pin == None && s.pinOnFlash != None && steps.erasePin.Done?
  }

  predicate Exposed(s: Standing) {
    s.armable && if s.conflict then s.bond else s.pin == None && s.pinOnFlash != None
  }

  /** The marker an earlier forget left comes down with this one's. */
  predicate Unmarks(s: Standing, steps: Steps) {
    && s.armable && s.marked && steps.Marks() && steps.cancel.Lands()
    && if s.conflict then steps.delete.Refused? else s.pin == None && steps.erasePin.Done?
  }

  predicate Unmarkable(s: Standing) {
    s.armable && s.marked && (s.conflict || s.pin == None)
  }

  const LANDS_ALL_THE_SAME := Steps(Done, Done, Refused(true), Done, Done)

  /** What can be told beforehand: whatever the steps will answer there is no leak exactly off these
      standings, and no marker of an earlier forget comes down exactly off those; where one can, these
      steps do it. */
  lemma SafeUnlessExposed(s: Standing)
    ensures (forall steps :: !Leaks(s, steps)) <==> !Exposed(s)
    ensures (forall steps :: !Unmarks(s, steps)) <==> !Unmarkable(s)
    ensures Exposed(s) ==> Leaks(s, LANDS_ALL_THE_SAME)
    ensures Unmarkable(s) ==> Unmarks(s, LANDS_ALL_THE_SAME)
  {
    assert Exposed(s) ==> Leaks(s, LANDS_ALL_THE_SAME);
    assert Unmarkable(s) ==> Unmarks(s, LANDS_ALL_THE_SAME);
  }

  class Board {
    const flash: Flash
    var bond: bool
    var pinOnFlash: Option<nat>
    var pin: Option<nat>
    var conflict: bool
    var reconnect: bool

    constructor (flash: Flash, bond: bool, pinOnFlash: Option<nat>, pin: Option<nat>, conflict: bool)
      ensures this.flash == flash && this.bond == bond && this.pinOnFlash == pinOnFlash && this.pin == pin
              && this.conflict == conflict
    {
      this.flash, this.bond, this.pinOnFlash, this.pin, this.conflict, reconnect :=
        flash, bond, pinOnFlash, pin, conflict, true;
    }

    function Stands(): Standing
      reads this, flash
    {
      Standing(conflict, bond, pin, pinOnFlash, flash.forgetGate, flash.Armable())
    }

    method TakeForget() returns (taken: bool)
      modifies `conflict
      ensures taken == old(conflict) && !conflict
    {
      taken := conflict;
      conflict := false;
    }

    method DeleteBond(a: Answer)
      modifies `bond
      ensures bond == (old(bond) && !a.Lands())
    {
      if a.Lands() {
        bond := false;
      }
    }

    method ErasePin(a: Answer)
      modifies `pinOnFlash
      ensures pinOnFlash == if a.Lands() then None else old(pinOnFlash)
    {
      if a.Lands() {
        pinOnFlash := None;
      }
    }

    method Unpin() returns (was: bool)
      modifies `pin
      ensures was == old(pin).Some? && pin == None
    {
      was := pin.Some?;
      pin := None;
    }

    /** Undo the marker over trust that was kept. */
    method CancelReprovision(a: Answer, kept: Outcome) returns (outcome: Outcome)
      modifies flash`forgetGate
      ensures flash.forgetGate == (old(flash.forgetGate) && !a.Lands())
      ensures outcome == (if a.Cut? then PowerGone else if a.Done? then kept else Inhibited)
    {
      flash.LowerForgetGate(a);
      return if a.Cut? then PowerGone else if a.Done? then kept else Inhibited;
    }

    /** Stopped anywhere, with anything refused, either trust is as it was or the next boot replays
        nothing, except in a leak, and there for certain; and a boot that would have replayed nothing
        still does, except where an earlier marker comes down.  Each outcome is the truth. */
    method Forget(steps: Steps) returns (outcome: Outcome)
      modifies this, flash`forgetGate
      ensures SameTrust(old(Stands()), Stands()) || !flash.Replays() <==> !Leaks(old(Stands()), steps)
      ensures flash.Replays() && !old(flash.Replays()) <==> Unmarks(old(Stands()), steps)
      ensures !Exposed(old(Stands())) ==> SameTrust(old(Stands()), Stands()) || !flash.Replays()
      ensures !reconnect && conflict == (old(conflict) && !(steps.Marks() && !steps.delete.Refused?))
      ensures outcome == Forgotten <==> steps.Marks() && old(conflict) && steps.delete.Done? && steps.erasePin.Done?
      ensures outcome == Forgotten ==> !bond && pin == pinOnFlash == None && flash.forgetGate
      ensures outcome == Unpinned <==> steps.Marks() && !old(conflict) && steps.erasePin.Done? && old(pin).Some?
      ensures outcome == Unpinned ==> bond == old(bond) && pin == pinOnFlash == None && flash.forgetGate
      ensures outcome == PinOnFlash <==>
                steps.Marks() && (old(conflict) ==> steps.delete.Done?) && steps.erasePin.Refused?
      ensures outcome == PinOnFlash ==> pin == None && flash.forgetGate
      ensures outcome == Nothing <==>
                steps.Marks() && !old(conflict) && steps.erasePin.Done? && old(pin) == None && steps.cancel.Done?
      ensures outcome == Nothing ==> bond == old(bond) && pin == pinOnFlash == None && !flash.forgetGate
      ensures outcome == BondKept <==>
                || steps.terminate.Refused? || (steps.terminate.Done? && steps.mark.Refused?)
                || (steps.Marks() && old(conflict) && steps.delete.Refused? && steps.cancel.Done?)
      ensures outcome == BondKept ==> pin == old(pin) && pinOnFlash == old(pinOnFlash)
                                      && (bond == old(bond) || steps.delete == Refused(true))
      ensures outcome == Inhibited <==>
                && steps.Marks() && steps.cancel.Refused?
                && if old(conflict) then steps.delete.Refused? else old(pin) == None && steps.erasePin.Done?
      ensures outcome == Inhibited ==> pin == old(pin) && steps.cancel.Refused?
                                       && (pinOnFlash == old(pinOnFlash) || (!conflict && pinOnFlash == None))
    {
      reconnect := false;
      if !steps.terminate.Done? {
        return if steps.terminate.Cut? then PowerGone else BondKept;
      }
      flash.RaiseForgetGate(steps.mark);
      if !steps.mark.Done? {
        return if steps.mark.Cut? then PowerGone else BondKept;
      }
      var taken := TakeForget();
      if taken {
        DeleteBond(steps.delete);
        if steps.delete.Cut? {
          return PowerGone;
        }
        if !steps.delete.Done? {
          conflict := true;
          outcome := CancelReprovision(steps.cancel, BondKept);
          return;
        }
      }
      outcome := ClearPins(taken, steps);
    }

    /** Flash before memory. */
    method ClearPins(taken: bool, steps: Steps) returns (outcome: Outcome)
      requires flash.forgetGate
      modifies `pin, `pinOnFlash, flash`forgetGate
      ensures pin == (if steps.erasePin.Cut? then old(pin) else None)
      ensures pinOnFlash == (if steps.erasePin.Lands() then None else old(pinOnFlash))
      ensures flash.forgetGate == !(!taken && old(pin) == None && steps.erasePin.Done? && steps.cancel.Lands())
      ensures outcome == Forgotten <==> taken && steps.erasePin.Done?
      ensures outcome == Unpinned <==> !taken && steps.erasePin.Done? && old(pin).Some?
      ensures outcome == PinOnFlash <==> steps.erasePin.Refused?
      ensures outcome == Nothing <==> !taken && old(pin) == None && steps.erasePin.Done? && steps.cancel.Done?
      ensures outcome == Inhibited <==>
                !taken && old(pin) == None && steps.erasePin.Done? && steps.cancel.Refused?
      ensures outcome != BondKept
    {
      ErasePin(steps.erasePin);
      if steps.erasePin.Cut? {
        return PowerGone;
      }
      var wasPinned := Unpin();
      if !taken && !wasPinned && steps.erasePin.Done? {
        outcome := CancelReprovision(steps.cancel, Nothing);
        return;
      }
      if !steps.erasePin.Done? {
        return PinOnFlash;
      }
      return if taken then Forgotten else Unpinned;
    }
  }

  /** On every standing where a leak is possible, these steps carry it out. */
  method ExposedBoardLeaks(board: Board) returns (outcome: Outcome)
    requires Exposed(board.Stands())
    modifies board, board.flash`forgetGate
    ensures !SameTrust(old(board.Stands()), board.Stands()) && board.flash.Replays()
    ensures outcome == if old(board.conflict) then BondKept else Nothing
  {
    SafeUnlessExposed(board.Stands());
    outcome := board.Forget(LANDS_ALL_THE_SAME);
  }

  /** From a fresh board to the leak: the bond is gone, the request says it was kept, and the next boot
      arms the old passkey. */
  method RefusedDeletionThatLanded() returns (board: Board, outcome: Outcome, armed: Option<nat>)
    ensures outcome == BondKept && !board.bond && armed == Some(123456)
  {
    var flash := new Flash();
    var _ := flash.Persist(123456, PersistSteps(Done, Done, None, Done, Done));
    board := new Board(flash, true, Some(7), Some(7), true);
    outcome := board.Forget(LANDS_ALL_THE_SAME);
    var restored;
    restored, armed := flash.RestorePasskey(Readable, true);
  }

  /** A second forget finds nothing and takes the first one's marker down: the pairing is deleted, and
      the next boot arms the old passkey with nobody having entered one. */
  method ForgottenTwice() returns (first: Outcome, second: Outcome, between: Option<nat>, armed: Option<nat>)
    ensures first == Forgotten && between == None && second == Nothing && armed == Some(123456)
  {
    var flash := new Flash();
    var _ := flash.Persist(123456, PersistSteps(Done, Done, None, Done, Done));
    var board := new Board(flash, true, Some(7), Some(7), true);
    var steps := Steps(Done, Done, Done, Done, Done);
    first := board.Forget(steps);
    var restored;
    restored, between := flash.RestorePasskey(Readable, true);
    second := board.Forget(steps);
    restored, armed := flash.RestorePasskey(Readable, true);
  }
}

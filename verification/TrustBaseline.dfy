/** What TrustEvaluator::observe measures movement from (core/src/trust.cpp:341-585): a baseline that
    may be told lies about when and where it was taken. */
module TrustBaseline {
  import opened Wrappers
  import opened TrustModel
  import Geo

  /** A coordinate and when the receiver says it was measured. */
  datatype Fix = Fix(position: Geo.Position, at: nat)

  datatype Observation = Observation(body: nat, position: Option<Geo.Position>, observedAt: nat)

  datatype Limits = Limits(forwardSkew: nat, implausibleSpeed: nat, jumpWhileStill: nat) {
    predicate Valid() {
      forwardSkew < LONGEST
    }
  }

  /** An observation as it arrived: fit to measure from if the receiver measured it, on the globe, and
      not in the future. */
  datatype Sample = Sample(fix: Option<Fix>, now: nat)

  /** The baseline of a history is the newest measurement in it, and of those the last to arrive. */
  ghost predicate Newest(history: seq<Sample>, base: Option<Fix>) {
    match base
    case None => forall j :: 0 <= j < |history| ==> history[j].fix == None
    case Some(f) => exists i :: IsNewest(history, f, i)
  }

  ghost predicate IsNewest(history: seq<Sample>, f: Fix, i: nat) {
    && i < |history| && history[i].fix == Some(f)
    && forall j :: 0 <= j < |history| && history[j].fix.Some? ==>
         history[j].fix.value.at <= f.at && (i < j ==> history[j].fix.value.at < f.at)
  }

  /** No fit sample is from further ahead than the clocks are allowed to differ. */
  ghost predicate Grounded(history: seq<Sample>, skew: nat) {
    forall j :: 0 <= j < |history| && history[j].fix.Some? ==> history[j].fix.value.at <= history[j].now + skew
  }

  lemma NewestNext(history: seq<Sample>, base: Option<Fix>, s: Sample)
    requires Newest(history, base)
    ensures Newest(history + [s],
                   if s.fix.Some? && (base == None || s.fix.value.at >= base.value.at) then s.fix else base)
  {
    if s.fix.Some? && (base == None || s.fix.value.at >= base.value.at) {
      if base.Some? {
        var i :| IsNewest(history, base.value, i);
      }
      assert IsNewest(history + [s], s.fix.value, |history|);
    } else if base.Some? {
      var i :| IsNewest(history, base.value, i);
      assert IsNewest(history + [s], base.value, i);
    }
  }

  class Evaluator {
    const limits: Limits
    var previousBody: Option<nat>
    var previous: Option<Fix>
    var localComparable: Option<Fix>

    /** Everything observed from this body since the last change of body. */
    ghost var history: seq<Sample>

    ghost predicate Valid()
      reads this
    {
      && limits.Valid() && Newest(history, previous) && Grounded(history, limits.forwardSkew)
      && localComparable == previous
    }

    constructor (limits: Limits)
      requires limits.Valid()
      ensures Valid() && history == [] && previous == None && this.limits == limits
    {
      this.limits, previousBody, previous, localComparable, history := limits, None, None, None, [];
    }

    /** A baseline is never carried from one body to another. */
    method ChangeBody(body: nat)
      requires Valid()
      modifies this
      ensures Valid() && previousBody == Some(body)
      ensures old(previousBody) == Some(body) ==> previous == old(previous) && history == old(history)
      ensures old(previousBody) != Some(body) ==> previous == None && history == []
    {
      if previousBody != Some(body) {
        previousBody, previous, localComparable, history := Some(body), None, None, [];
      }
    }

    /** Detecting and adopting are two decisions: a measured position is compared with the baseline in
        whatever order it came, and adopted only in order.  The baseline stays the newest of what this
        body measured, so neither a replayed old fix nor one claimed from the future displaces it. */
    method ObservePosition(o: Observation, measured: bool, atRest: bool, now: nat)
        returns (jumped: bool, movedAtRest: bool, adopted: bool)
      requires Valid() && previousBody == Some(o.body)
      modifies this
      ensures Valid() && previousBody == old(previousBody)
      ensures history ==
              old(history) + [Sample(if Fit(o, measured, now) then Some(Fix(o.position.value, o.observedAt))
                                     else None, now)]
      ensures adopted <==> Fit(o, measured, now) && (old(previous) == None || o.observedAt >= old(previous).value.at)
      ensures previous == if adopted then Some(Fix(o.position.value, o.observedAt)) else old(previous)
      ensures jumped || movedAtRest ==> OnGlobe(o) && measured && old(previous).Some?
      ensures OnGlobe(o) && measured && old(previous).Some? ==>
                exists d: nat :: Geo.IsDistance(d, o.position.value, old(previous).value.position)
                            && (movedAtRest <==> atRest && d > limits.jumpWhileStill)
                            && (jumped <==> TooFast(d, Elapsed(old(previous).value.at, o.observedAt)))
    {
      jumped, movedAtRest, adopted := false, false, false;
      var ahead := Elapsed(now, o.observedAt) > limits.forwardSkew;
      if o.position.Some? && o.position.value.InRange() {
        var inOrder := !ahead && (previous == None || o.observedAt >= previous.value.at);
        if measured && previous.Some? {
          jumped, movedAtRest := Compare(o, atRest);
        }
        if measured && inOrder {
          adopted := true;
        }
      }
      Record(o, measured, now, adopted);
    }

    predicate OnGlobe(o: Observation) {
      o.position.Some? && o.position.value.InRange()
    }

    predicate Fit(o: Observation, measured: bool, now: nat) {
      OnGlobe(o) && measured && Elapsed(now, o.observedAt) <= limits.forwardSkew
    }

    /** A backward interval yields no speed at all. */
    predicate TooFast(moved: nat, dt: nat) {
      dt > 0 && moved * 1000 / dt > limits.implausibleSpeed
    }

    method Compare(o: Observation, atRest: bool) returns (jumped: bool, movedAtRest: bool)
      requires OnGlobe(o) && previous.Some?
      ensures exists d: nat :: Geo.IsDistance(d, o.position.value, previous.value.position)
                          && (movedAtRest <==> atRest && d > limits.jumpWhileStill)
                          && (jumped <==> TooFast(d, Elapsed(previous.value.at, o.observedAt)))
    {
      var dt := Elapsed(previous.value.at, o.observedAt);
      var moved := Geo.DistanceMm(o.position.value, previous.value.position);
      jumped := TooFast(moved, dt);
      movedAtRest := atRest && moved > limits.jumpWhileStill;
    }

    method Record(o: Observation, measured: bool, now: nat, adopted: bool)
      requires Valid() && (adopted <==>
                           Fit(o, measured, now) && (previous == None || o.observedAt >= previous.value.at))
      modifies `previous, `localComparable, `history
      ensures Valid()
      ensures history ==
              old(history) + [Sample(if Fit(o, measured, now) then Some(Fix(o.position.value, o.observedAt))
                                     else None, now)]
      ensures previous == if adopted then Some(Fix(o.position.value, o.observedAt)) else old(previous)
    {
      ghost var s := Sample(if Fit(o, measured, now) then Some(Fix(o.position.value, o.observedAt)) else None, now);
      NewestNext(history, previous, s);
      if adopted {
        previous, localComparable := Some(Fix(o.position.value, o.observedAt)),
          Some(Fix(o.position.value, o.observedAt));
      }
      history := history + [s];
    }
  }

  /** No lie about the future lasts: whatever was observed by `now`, a fit sample measured more than the
      permitted skew later is in order. */
  lemma NotPoisoned(history: seq<Sample>, base: Fix, skew: nat, now: nat, observedAt: nat)
    requires Newest(history, Some(base)) && Grounded(history, skew)
    requires forall j :: 0 <= j < |history| ==> history[j].now <= now
    requires observedAt >= now + skew
    ensures observedAt >= base.at
  {
    var i :| IsNewest(history, base, i);
  }
}

// Reacting to evidence against the open position, and the decaying basis it is weighed against.
module OppositeEvent {
  import opened Decimals
  import opened Options

  function ClampTo(x: real, lower: real, upper: real): (r: real)
    requires lower <= upper
    ensures lower <= r <= upper
    ensures x < lower ==> r == lower
    ensures x > upper ==> r == upper
    ensures lower <= x <= upper ==> r == x
  {
    var raised := if x < lower then lower else x;
    if raised > upper then upper else raised
  }

  function Unit(x: real): (r: real)
    ensures 0.0 <= r <= 1.0
    ensures 0.0 <= x <= 1.0 ==> r == x
    ensures x < 0.0 ==> r == 0.0
    ensures x > 1.0 ==> r == 1.0
  {
    ClampTo(x, 0.0, 1.0)
  }

  // ---------- configuration ----------

  /** r is the value of the unit interval nearest to x. */
  predicate NearestUnit(x: real, r: real) {
    if x < 0.0 then r == 0.0 else if x > 1.0 then r == 1.0 else r == x
  }

  datatype Settings = Settings(
    trimThreshold: real, reverseEdge: real, minReverseConfidence: real, unknownBasisThreshold: real,
    fullConfidence: real, flattenCloseFraction: real, validityDecay: real)
  {
    /** What every clamped configuration satisfies. */
    ghost predicate Valid() {
      && 0.0 <= trimThreshold <= 1.0 && reverseEdge >= 0.0
      && 0.0 <= minReverseConfidence <= 1.0 && 0.0 <= unknownBasisThreshold <= 1.0
      && 0.0 <= fullConfidence <= 1.0 && 0.0 <= flattenCloseFraction <= 1.0 && 0.0 <= validityDecay <= 1.0
      && (trimThreshold < fullConfidence || trimThreshold == fullConfidence == 1.0)
    }

    /** The configuration in force, from whatever values were configured. */
    function Clamped(): (settings: Settings)
      ensures settings.Valid()
      ensures Valid() ==> settings == this
      ensures NearestUnit(trimThreshold, settings.trimThreshold)
      ensures NearestUnit(minReverseConfidence, settings.minReverseConfidence)
      ensures NearestUnit(unknownBasisThreshold, settings.unknownBasisThreshold)
      ensures NearestUnit(flattenCloseFraction, settings.flattenCloseFraction)
      ensures NearestUnit(validityDecay, settings.validityDecay)
      ensures reverseEdge >= 0.0 ==> settings.reverseEdge == reverseEdge
      ensures reverseEdge < 0.0 ==> settings.reverseEdge == 0.0
      ensures fullConfidence > settings.trimThreshold ==> NearestUnit(fullConfidence, settings.fullConfidence)
                                                          || settings.trimThreshold == 1.0
      ensures fullConfidence <= settings.trimThreshold ==>
        settings.fullConfidence == if settings.trimThreshold <= 0.99 then settings.trimThreshold + 0.01 else 1.0
    {
      var trim := Unit(trimThreshold);
      var full := Unit(fullConfidence);
      Settings(trim, Max(0.0, reverseEdge), Unit(minReverseConfidence), Unit(unknownBasisThreshold),
               if full <= trim then (if trim + 0.01 > 1.0 then 1.0 else trim + 0.01) else full,
               Unit(flattenCloseFraction), Unit(validityDecay))
    }
  }

  // ---------- the decision ----------

  datatype Kind = LegacyMissingConfidence | NoChange | Trim | Flatten | Reverse

  datatype Decision = Decision(kind: Kind, closeFraction: real, openReverse: bool)

  function Severity(kind: Kind): nat {
    match kind
    case NoChange => 0
    case Trim => 1
    case Flatten => 2
    case Reverse => 3
    case LegacyMissingConfidence => 3
  }

  function ReverseThreshold(settings: Settings, basis: Option<real>): real {
    match basis
    case Some(effective) => Max(effective + settings.reverseEdge, settings.minReverseConfidence)
    case None => settings.unknownBasisThreshold
  }

  function Strength(settings: Settings, confidence: real): (strength: real)
    ensures 0.0 <= strength <= 1.0
  {
    Unit((confidence - settings.trimThreshold) / Max(settings.fullConfidence - settings.trimThreshold, 0.01))
  }

  /** The basis a trim is weighed with; a missing one counts half. */
  function TrimWeight(basis: Option<real>): real {
    if basis.Some? then basis.value else 0.50
  }

  function TrimFraction(settings: Settings, basis: Option<real>, confidence: real): (fraction: real)
    ensures 0.0 <= fraction <= 0.95
  {
    ClampTo(0.15 + 0.85 * Strength(settings, confidence) - 0.10 * TrimWeight(basis), 0.0, 0.95)
  }

  function Decide(settings: Settings, basis: Option<real>, confidence: Option<real>): Decision {
    match confidence
    case None => Decision(LegacyMissingConfidence, 0.0, true)
    case Some(raw) =>
      var opposite := Unit(raw);
      if opposite < settings.trimThreshold then Decision(NoChange, 0.0, false)
      else if opposite >= ReverseThreshold(settings, basis) then Decision(Reverse, 1.0, true)
      else
        var fraction := TrimFraction(settings, basis, opposite);
        if fraction >= settings.flattenCloseFraction then Decision(Flatten, 1.0, false)
        else Decision(Trim, fraction, false)
  }

  /** The strength at which a trim reaches the flattening fraction. */
  function FlattenStrength(settings: Settings, basis: Option<real>): real {
    (settings.flattenCloseFraction - 0.15 + 0.10 * TrimWeight(basis)) / 0.85
  }

  /** The confidence at which that strength is reached. */
  function FlattenThreshold(settings: Settings, basis: Option<real>): real {
    settings.trimThreshold
    + FlattenStrength(settings, basis) * Max(settings.fullConfidence - settings.trimThreshold, 0.01)
  }

  /** A trim can close at most 95% and grows no further at full strength. */
  predicate CanFlatten(settings: Settings, basis: Option<real>) {
    settings.flattenCloseFraction <= 0.0
    || (settings.flattenCloseFraction <= 0.95 && FlattenStrength(settings, basis) <= 1.0)
  }

  predicate FlattensAt(settings: Settings, basis: Option<real>, confidence: real) {
    CanFlatten(settings, basis)
    && (settings.flattenCloseFraction <= 0.0 || confidence >= FlattenThreshold(settings, basis))
  }

  /**
    * Each answer is given on one interval of the confidence, with ends known
    * beforehand; only a reversal reopens, and only trims close a part.
    */
  predicate AnswersBy(settings: Settings, basis: Option<real>, confidence: real, decision: Decision) {
    var opposite := Unit(confidence);
    var trims := opposite >= settings.trimThreshold;
    var reverses := if basis.Some?
                    then opposite - basis.value >= settings.reverseEdge && opposite >= settings.minReverseConfidence
                    else opposite >= settings.unknownBasisThreshold;
    var flattens := FlattensAt(settings, basis, opposite);
    && (decision.kind == NoChange <==> !trims)
    && (decision.kind == Reverse <==> trims && reverses)
    && (decision.kind == Flatten <==> trims && !reverses && flattens)
    && (decision.kind == Trim <==> trims && !reverses && !flattens)
    && (decision.openReverse <==> decision.kind == Reverse)
    && (decision.closeFraction == 1.0 <==> decision.kind in {Flatten, Reverse})
    && (decision.kind == NoChange ==> decision.closeFraction == 0.0)
    && (decision.kind == Trim ==>
          && 0.0 <= decision.closeFraction < settings.flattenCloseFraction
          && TrimCloses(settings, basis, opposite, decision.closeFraction))
  }

  /**
    * A trim closes 15% and up to 85% more, in proportion to how far the
    * confidence lies between trimming and full confidence, less a tenth of the
    * basis; never a negative part and never more than 95%.
    */
  predicate TrimCloses(settings: Settings, basis: Option<real>, opposite: real, fraction: real) {
    var gap := settings.fullConfidence - settings.trimThreshold;
    var span := if gap > 0.01 then gap else 0.01;
    var above := opposite - settings.trimThreshold;
    var share := if above >= span then 1.0 else above / span;
    var wanted := 0.15 + 0.85 * share - (if basis.Some? then basis.value / 10.0 else 0.05);
    fraction == if wanted < 0.0 then 0.0 else if wanted > 0.95 then 0.95 else wanted
  }

  lemma ScaledQuotient(x: real, d: real, s: real)
    requires d > 0.0
    ensures x / d >= s <==> x >= s * d
  {
    var q := x / d;
    assert q * d == x;
    if q >= s {
      assert (q - s) * d >= 0.0;
    } else {
      assert (s - q) * d > 0.0;
    }
  }

  /** A trim reaches the flattening fraction exactly from the flattening threshold on. */
  lemma FlattensExactly(settings: Settings, basis: Option<real>, confidence: real)
    requires settings.Valid() && confidence >= settings.trimThreshold
    ensures TrimFraction(settings, basis, confidence) >= settings.flattenCloseFraction
      <==> FlattensAt(settings, basis, confidence)
  {
    var d := Max(settings.fullConfidence - settings.trimThreshold, 0.01);
    var raw := (confidence - settings.trimThreshold) / d;
    var needed := FlattenStrength(settings, basis);
    ScaledQuotient(confidence - settings.trimThreshold, d, needed);
    ScaledQuotient(confidence - settings.trimThreshold, d, 0.0);
    FractionReached(settings.flattenCloseFraction, TrimWeight(basis), raw, needed);
  }

  lemma FractionReached(flatten: real, weight: real, raw: real, needed: real)
    requires raw >= 0.0 && needed == (flatten - 0.15 + 0.10 * weight) / 0.85
    ensures ClampTo(0.15 + 0.85 * Unit(raw) - 0.10 * weight, 0.0, 0.95) >= flatten
      <==> flatten <= 0.0 || (flatten <= 0.95 && needed <= 1.0 && raw >= needed)
  {
  }

  lemma FractionIsTrim(settings: Settings, basis: Option<real>, opposite: real)
    requires settings.Valid() && opposite >= settings.trimThreshold
    ensures TrimCloses(settings, basis, opposite, TrimFraction(settings, basis, opposite))
  {
    var d := Max(settings.fullConfidence - settings.trimThreshold, 0.01);
    ScaledQuotient(opposite - settings.trimThreshold, d, 1.0);
    ScaledQuotient(opposite - settings.trimThreshold, d, 0.0);
  }

  lemma DecisionAnswersBy(settings: Settings, basis: Option<real>, confidence: real)
    requires settings.Valid()
    ensures AnswersBy(settings, basis, confidence, Decide(settings, basis, Some(confidence)))
  {
    if Unit(confidence) >= settings.trimThreshold {
      FlattensExactly(settings, basis, Unit(confidence));
      FractionIsTrim(settings, basis, Unit(confidence));
    }
    hide FlattensAt, TrimFraction, TrimCloses;
  }

  // ---------- the basis and its holders ----------

  /** `NoSide` is a blank text and `OtherSide` any text that is neither long nor short. */
  datatype Side = NoSide | Long | Short | OtherSide

  datatype Basis = Basis(raw: real, validity: real)
  {
    function Effective(): real {
      raw * validity
    }
  }

  datatype Holder = Holder(side: Side, raw: Option<real>, trigger: Option<real>, validity: Option<real>)

  datatype Holders = Holders(agent: Holder, risk: Option<Holder>, management: Option<Holder>)

  predicate IsPosition(side: Side) {
    side == Long || side == Short
  }

  function HolderBasis(holder: Holder, side: Side, useTrigger: bool): Option<Basis> {
    if holder.side != NoSide && holder.side != side then None
    else
      var raw := if holder.raw == None && useTrigger then holder.trigger else holder.raw;
      if raw == None then None
      else Some(Basis(Unit(raw.value), Unit(if holder.validity == None then 1.0 else holder.validity.value)))
  }

  /** The agent's own basis, else the risk session's, else the management session's. */
  function CurrentBasis(holders: Holders, side: Side): Option<Basis> {
    if !IsPosition(side) then None
    else if HolderBasis(holders.agent, side, false).Some? then HolderBasis(holders.agent, side, false)
    else if holders.risk.Some? && HolderBasis(holders.risk.value, side, false).Some? then
      HolderBasis(holders.risk.value, side, false)
    else if holders.management.Some? then HolderBasis(holders.management.value, side, true)
    else None
  }

  function EffectiveBasis(holders: Holders, side: Side): Option<real> {
    var basis := CurrentBasis(holders, side);
    if basis == None then None else Some(basis.value.Effective())
  }

  function Cleared(holders: Holders): Holders {
    var wipe := (session: Holder) => session.(raw := None, validity := Some(0.0));
    Holders(
      Holder(NoSide, None, holders.agent.trigger, Some(0.0)),
      if holders.risk == None then None else Some(wipe(holders.risk.value)),
      if holders.management == None then None else Some(wipe(holders.management.value)))
  }

  function Shared(session: Option<Holder>, side: Side, raw: real, validity: real): Option<Holder> {
    if session == None || session.value.side != side then session
    else Some(session.value.(raw := Some(raw), validity := Some(validity)))
  }

  /** Stores the basis on the agent and on every session of the same side. */
  function WithBasis(holders: Holders, side: Side, raw: Option<real>, validity: real): Holders {
    if !IsPosition(side) || raw == None then Cleared(holders)
    else
      var value, valid := Unit(raw.value), Unit(validity);
      Holders(
        Holder(side, Some(value), holders.agent.trigger, Some(valid)),
        Shared(holders.risk, side, value, valid),
        Shared(holders.management, side, value, valid))
  }

  // ---------- after an execution ----------

  datatype Position = Position(size: real, notional: real)

  function SideOf(position: Position): Side {
    if position.size > 0.0 then Long else if position.size < 0.0 then Short else OtherSide
  }

  function Notional(position: Position): real {
    Abs(position.notional)
  }

  datatype Action = GoLong | GoShort | ReverseToLong | ReverseToShort | AddToLong | AddToShort | TrimPosition | OtherAction

  /** `oppositeDecay` is the decay carried by the opposite-event decision behind a trim, if one is behind it. */
  datatype Managed = Managed(action: Action, closeFraction: real, oppositeDecay: Option<real>)

  function Weighted(prior: Basis, before: real, added: real, raw: real): real {
    (prior.raw * before + raw * added) / Max(before + added, 0.000000000001)
  }

  function Remaining(validity: real, decay: real, closeFraction: real): real {
    validity * (1.0 - decay * closeFraction)
  }

  function DecayedValidity(validity: real, decay: real, closeFraction: real): real {
    Unit(Remaining(validity, Unit(decay), Unit(closeFraction)))
  }

  function Updated(holders: Holders, managed: Managed, trigger: Option<real>,
                   before: Position, after: Position, accepted: bool): Holders
  {
    if !accepted then holders
    else if SideOf(after) == OtherSide then Cleared(holders)
    else
      match managed.action
      case GoLong | GoShort | ReverseToLong | ReverseToShort =>
        if trigger == None then holders else WithBasis(holders, SideOf(after), trigger, 1.0)
      case AddToLong | AddToShort =>
        if trigger == None then holders
        else
          var prior := CurrentBasis(holders, SideOf(after));
          var added := Max(0.0, Notional(after) - Notional(before));
          if prior.Some? && Notional(before) > 0.0 && added > 0.0 then
            WithBasis(holders, SideOf(after), Some(Weighted(prior.value, Notional(before), added, trigger.value)),
                      prior.value.validity)
          else WithBasis(holders, SideOf(after), trigger, 1.0)
      case TrimPosition =>
        var prior := CurrentBasis(holders, SideOf(before));
        if managed.oppositeDecay == None || prior == None then holders
        else WithBasis(holders, SideOf(after), Some(prior.value.raw),
                       DecayedValidity(prior.value.validity, managed.oppositeDecay.value, managed.closeFraction))
      case OtherAction => holders
  }

  // ---------- the objects ----------

  class Session {
    var side: Side
    var raw: Option<real>
    var trigger: Option<real>
    var validity: Option<real>

    constructor (holder: Holder)
      ensures State() == holder
    {
      side, raw, trigger, validity := holder.side, holder.raw, holder.trigger, holder.validity;
    }

    function State(): Holder
      reads this
    {
      Holder(side, raw, trigger, validity)
    }
  }

  class Agent {
    const settings: Settings
    var side: Side
    var raw: Option<real>
    var validity: Option<real>
    var risk: Session?
    var management: Session?

    /** The configuration is a clamped one, and the two sessions are different objects. */
    ghost predicate Valid()
      reads this
    {
      settings.Valid() && (risk != null && management != null ==> risk != management)
    }

    constructor (configured: Settings)
      ensures Valid() && settings == configured.Clamped()
      ensures State() == Holders(Holder(NoSide, None, None, Some(0.0)), None, None)
    {
      settings := configured.Clamped();
      side, raw, validity := NoSide, None, Some(0.0);
      risk, management := null, null;
    }

    function State(): Holders
      reads this, risk, management
    {
      Holders(
        Holder(side, raw, None, validity),
        if risk == null then None else Some(risk.State()),
        if management == null then None else Some(management.State()))
    }

    method ClearPositionBasis()
      requires Valid()
      modifies this`side, this`raw, this`validity, risk, management
      ensures State() == Cleared(old(State()))
    {
      side, raw, validity := NoSide, None, Some(0.0);
      if risk != null {
        risk.raw, risk.validity := None, Some(0.0);
      }
      if management != null {
        management.raw, management.validity := None, Some(0.0);
      }
    }

    method SetPositionBasis(newSide: Side, newRaw: Option<real>, newValidity: real)
      requires Valid()
      modifies this`side, this`raw, this`validity, risk, management
      ensures State() == WithBasis(old(State()), newSide, newRaw, newValidity)
    {
      if !IsPosition(newSide) || newRaw == None {
        ClearPositionBasis();
        return;
      }
      var value, valid := Some(Unit(newRaw.value)), Some(Unit(newValidity));
      side, raw, validity := newSide, value, valid;
      if risk != null && risk.side == newSide {
        risk.raw, risk.validity := value, valid;
      }
      if management != null && management.side == newSide {
        management.raw, management.validity := value, valid;
      }
    }

    method DecideOppositeEvent(currentSide: Side, confidence: Option<real>) returns (decision: Decision)
      requires Valid()
      ensures decision == Decide(settings, EffectiveBasis(State(), currentSide), confidence)
      ensures confidence == None ==> decision == Decision(LegacyMissingConfidence, 0.0, true)
      ensures confidence != None ==>
        AnswersBy(settings, EffectiveBasis(State(), currentSide), confidence.value, decision)
    {
      if confidence.Some? {
        DecisionAnswersBy(settings, EffectiveBasis(State(), currentSide), confidence.value);
      }
      hide AnswersBy, ReverseThreshold, TrimFraction, EffectiveBasis;
      var basis := EffectiveBasis(State(), currentSide);
      if confidence == None {
        return Decision(LegacyMissingConfidence, 0.0, true);
      }
      var opposite := Unit(confidence.value);
      if opposite < settings.trimThreshold {
        return Decision(NoChange, 0.0, false);
      }
      if opposite >= ReverseThreshold(settings, basis) {
        return Decision(Reverse, 1.0, true);
      }
      var fraction := TrimFraction(settings, basis, opposite);
      if fraction >= settings.flattenCloseFraction {
        return Decision(Flatten, 1.0, false);
      }
      decision := Decision(Trim, fraction, false);
    }

    method UpdateAfterExecution(managed: Managed, trigger: Option<real>, before: Position, after: Position, accepted: bool)
      requires Valid()
      modifies this`side, this`raw, this`validity, risk, management
      ensures State() == Updated(old(State()), managed, trigger, before, after, accepted)
    {
      hide CurrentBasis, WithBasis, Cleared, Weighted, DecayedValidity;
      if !accepted {
        return;
      }
      if SideOf(after) == OtherSide {
        ClearPositionBasis();
        return;
      }
      match managed.action {
        case GoLong | GoShort | ReverseToLong | ReverseToShort =>
          if trigger.Some? {
            SetPositionBasis(SideOf(after), trigger, 1.0);
          }
        case AddToLong | AddToShort =>
          if trigger.Some? {
            var prior := CurrentBasis(State(), SideOf(after));
            var added := Max(0.0, Notional(after) - Notional(before));
            if prior.Some? && Notional(before) > 0.0 && added > 0.0 {
              SetPositionBasis(SideOf(after), Some(Weighted(prior.value, Notional(before), added, trigger.value)),
                               prior.value.validity);
            } else {
              SetPositionBasis(SideOf(after), trigger, 1.0);
            }
          }
        case TrimPosition =>
          var prior := CurrentBasis(State(), SideOf(before));
          if managed.oppositeDecay.Some? && prior.Some? {
            SetPositionBasis(SideOf(after), Some(prior.value.raw),
                             DecayedValidity(prior.value.validity, managed.oppositeDecay.value, managed.closeFraction));
          }
        case OtherAction =>
      }
    }
  }
}

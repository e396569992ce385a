// Stronger or repeated evidence never gets a milder answer.
module OppositeEventTheorems {
  import opened Decimals
  import opened Options
  import opened OppositeEvent

  /** b is at least as severe as a. */
  predicate AtLeast(b: Decision, a: Decision) {
    Severity(b.kind) >= Severity(a.kind) && b.closeFraction >= a.closeFraction
  }

  // ---------- monotone in the confidence ----------

  lemma TimesStrict(p: real, q: real, d: real)
    requires p > q && d > 0.0
    ensures p * d > q * d
  {
    assert p * d - q * d == (p - q) * d;
  }

  lemma DivideMonotone(x: real, y: real, d: real)
    requires d > 0.0 && x <= y
    ensures x / d <= y / d
  {
    var p, q := x / d, y / d;
    assert x == p * d && y == q * d;
    if p > q {
      TimesStrict(p, q, d);
      assert false;
    }
  }

  lemma StrengthMonotone(settings: Settings, x: real, y: real)
    requires x <= y
    ensures Strength(settings, x) <= Strength(settings, y)
  {
    DivideMonotone(x - settings.trimThreshold, y - settings.trimThreshold,
                   Max(settings.fullConfidence - settings.trimThreshold, 0.01));
  }

  /** Severity and close fraction never fall when the opposing confidence rises. */
  lemma StrongerEvidenceIsNeverMilder(settings: Settings, basis: Option<real>, x: real, y: real)
    requires x <= y
    ensures AtLeast(Decide(settings, basis, Some(y)), Decide(settings, basis, Some(x)))
  {
    assert Unit(x) <= Unit(y);
    StrengthMonotone(settings, Unit(x), Unit(y));
    hide Strength, ReverseThreshold;
  }

  /** Nor when the basis of the position weakens. */
  lemma WeakerBasisIsNeverMilder(settings: Settings, weak: real, strong: real, confidence: Option<real>)
    requires weak <= strong
    ensures AtLeast(Decide(settings, Some(weak), confidence), Decide(settings, Some(strong), confidence))
  {
    hide Strength;
  }

  // ---------- repeating a signal ----------

  lemma ProductNonNegative(a: real, b: real)
    requires a >= 0.0 && b >= 0.0
    ensures a * b >= 0.0
  {
  }

  lemma ProductShrinks(x: real, k: real)
    requires 0.0 <= x && 0.0 <= k <= 1.0
    ensures 0.0 <= x * (1.0 - k) <= x
  {
    ProductNonNegative(x, k);
    ProductNonNegative(x, 1.0 - k);
    assert x * (1.0 - k) == x - x * k;
  }

  lemma ProductInUnit(a: real, b: real)
    requires 0.0 <= a <= 1.0 && 0.0 <= b <= 1.0
    ensures 0.0 <= a * b <= 1.0
  {
    ProductNonNegative(a, b);
    ProductNonNegative(a, 1.0 - b);
    assert a * (1.0 - b) == a - a * b;
  }

  lemma RemainingShrinks(x: real, d: real, c: real)
    requires 0.0 <= x && 0.0 <= d <= 1.0 && 0.0 <= c <= 1.0
    ensures 0.0 <= Remaining(x, d, c) <= x
  {
    ProductInUnit(d, c);
    ProductShrinks(x, d * c);
  }

  lemma ValidityShrinks(validity: real, decay: real, closeFraction: real)
    requires 0.0 <= validity <= 1.0
    ensures 0.0 <= DecayedValidity(validity, decay, closeFraction) <= validity
  {
    hide Remaining, ClampTo;
    RemainingShrinks(validity, Unit(decay), Unit(closeFraction));
  }

  lemma CurrentBasisInUnit(holders: Holders, side: Side)
    requires CurrentBasis(holders, side).Some?
    ensures
      var basis := CurrentBasis(holders, side).value;
      0.0 <= basis.raw <= 1.0 && 0.0 <= basis.validity <= 1.0
  {
  }

  /** What is stored is what is read back, whichever holder had it before. */
  lemma StoredBasisIsCurrent(holders: Holders, side: Side, raw: real, validity: real)
    requires IsPosition(side)
    ensures CurrentBasis(WithBasis(holders, side, Some(raw), validity), side) == Some(Basis(Unit(raw), Unit(validity)))
  {
  }

  /** A clear is undone exactly by the trigger confidence that a management session still carries. */
  lemma ClearedBasisMayReturn(holders: Holders, side: Side)
    requires IsPosition(side)
    ensures CurrentBasis(Cleared(holders), side).Some? <==>
      holders.management.Some? && holders.management.value.trigger.Some? && holders.management.value.side in {NoSide, side}
    ensures CurrentBasis(Cleared(holders), side).Some? ==> EffectiveBasis(Cleared(holders), side) == Some(0.0)
  {
  }

  /** The holder speaks for the side and knows a confidence. */
  predicate Knows(holder: Option<Holder>, side: Side, useTrigger: bool) {
    && holder.Some? && (holder.value.side == NoSide || holder.value.side == side)
    && (holder.value.raw.Some? || (useTrigger && holder.value.trigger.Some?))
  }

  /** The basis is the holder's: its own confidence before its trigger, and full validity when none is kept. */
  predicate BasisOf(holder: Holder, basis: Option<Basis>) {
    && basis.Some?
    && NearestUnit(if holder.raw.Some? then holder.raw.value else if holder.trigger.Some? then holder.trigger.value else 0.0,
                   basis.value.raw)
    && NearestUnit(if holder.validity.Some? then holder.validity.value else 1.0, basis.value.validity)
  }

  /** What counts is the confidence times its validity. */
  lemma EffectIsProduct(holders: Holders, side: Side)
    ensures EffectiveBasis(holders, side).Some? <==> CurrentBasis(holders, side).Some?
    ensures EffectiveBasis(holders, side).Some? ==>
      EffectiveBasis(holders, side).value == CurrentBasis(holders, side).value.raw * CurrentBasis(holders, side).value.validity
  {
    hide CurrentBasis;
  }

  /** The agent is asked first, then the risk session, then the management session. */
  lemma BasisIsFoundInOrder(holders: Holders, side: Side)
    ensures var basis := CurrentBasis(holders, side);
      if side != Long && side != Short then basis == None
      else if Knows(Some(holders.agent), side, false) then BasisOf(holders.agent, basis)
      else if Knows(holders.risk, side, false) then BasisOf(holders.risk.value, basis)
      else if Knows(holders.management, side, true) then BasisOf(holders.management.value, basis)
      else basis == None
  {
    HolderKnows(holders.agent, side, false);
    if holders.risk.Some? {
      HolderKnows(holders.risk.value, side, false);
    }
    if holders.management.Some? {
      HolderKnows(holders.management.value, side, true);
    }
    hide HolderBasis, BasisOf, Knows;
    assert !Knows(None, side, false) && !Knows(None, side, true) by {
      NobodyKnows(side);
    }
  }

  lemma NobodyKnows(side: Side)
    ensures !Knows(None, side, false) && !Knows(None, side, true)
  {
  }

  lemma HolderKnows(holder: Holder, side: Side, useTrigger: bool)
    ensures Knows(Some(holder), side, useTrigger) <==> HolderBasis(holder, side, useTrigger).Some?
    ensures Knows(Some(holder), side, useTrigger) ==> BasisOf(holder, HolderBasis(holder, side, useTrigger))
  {
  }

  // ---------- what an execution does to the basis ----------

  predicate Opens(action: Action) {
    action == GoLong || action == GoShort || action == ReverseToLong || action == ReverseToShort
  }

  predicate Adds(action: Action) {
    action == AddToLong || action == AddToShort
  }

  function SideNow(position: Position): Side {
    if position.size > 0.0 then Long else if position.size < 0.0 then Short else OtherSide
  }

  /** A rejected execution changes nothing; a flat position clears; opening starts afresh with full validity. */
  lemma OpeningResetsBasis(holders: Holders, managed: Managed, trigger: Option<real>, before: Position, after: Position,
                           accepted: bool)
    ensures var next := Updated(holders, managed, trigger, before, after, accepted);
      && (!accepted ==> next == holders)
      && (accepted && after.size == 0.0 ==>
            next.agent.raw == None && (next.risk.Some? ==> next.risk.value.raw == None)
            && (next.management.Some? ==> next.management.value.raw == None))
      && (accepted && after.size != 0.0 && (Opens(managed.action) || Adds(managed.action)) && trigger == None ==> next == holders)
      && (accepted && after.size != 0.0 && Opens(managed.action) && trigger.Some? ==>
            next.agent.side == SideNow(after) && next.agent.validity == Some(1.0) && next.agent.raw.Some?
            && NearestUnit(trigger.value, next.agent.raw.value))
      && (accepted && after.size != 0.0 && managed.action == OtherAction ==> next == holders)
  {
    hide CurrentBasis, Weighted, DecayedValidity;
  }

  /** The position's size in money before and after, whatever its sign. */
  function Size(position: Position): real {
    if position.notional < 0.0 then -position.notional else position.notional
  }

  /** Adding to a known basis keeps its validity and weighs the confidences by size; otherwise it starts afresh. */
  lemma AddingWeighsBasis(holders: Holders, managed: Managed, trigger: real, before: Position, after: Position)
    requires Adds(managed.action) && after.size != 0.0
    ensures var prior := CurrentBasis(holders, SideNow(after));
      var next := Updated(holders, managed, Some(trigger), before, after, true).agent;
      var added := Size(after) - Size(before);
      && next.side == SideNow(after) && next.raw.Some?
      && (if prior.Some? && Size(before) > 0.0 && added > 0.0 then
            && next.validity == Some(prior.value.validity)
            && (Size(after) >= 0.000000000001 && 0.0 <= trigger <= 1.0 ==>
                  Balances(next.raw.value, Size(after), prior.value.raw, Size(before), trigger, added))
          else next.validity == Some(1.0) && NearestUnit(trigger, next.raw.value))
  {
    AddingStores(holders, managed, trigger, before, after);
    var prior := CurrentBasis(holders, SideNow(after));
    var added := Size(after) - Size(before);
    if prior.Some? && Size(before) > 0.0 && added > 0.0 {
      CurrentBasisInUnit(holders, SideNow(after));
      hide CurrentBasis, Weighted, Updated, ClampTo, Balances;
      if Size(after) >= 0.000000000001 && 0.0 <= trigger <= 1.0 {
        WeightedBalances(prior.value, Size(before), added, trigger, Size(after));
      }
    }
  }

  /** One confidence over the whole weighs as much as the two over their parts. */
  predicate Balances(whole: real, total: real, a: real, first: real, b: real, second: real) {
    whole * total == a * first + b * second
  }

  lemma WeightedBalances(prior: Basis, before: real, added: real, raw: real, total: real)
    requires before > 0.0 && added > 0.0 && total == before + added >= 0.000000000001
    requires 0.0 <= prior.raw <= 1.0 && 0.0 <= raw <= 1.0
    ensures Balances(Unit(Weighted(prior, before, added, raw)), total, prior.raw, before, raw, added)
  {
    WeightedLiesBetween(prior, before, added, raw);
    WeightedSums(prior, before, added, raw);
    hide Weighted, ClampTo;
  }

  lemma AddingStores(holders: Holders, managed: Managed, trigger: real, before: Position, after: Position)
    requires Adds(managed.action) && after.size != 0.0
    ensures var prior := CurrentBasis(holders, SideNow(after));
      var next := Updated(holders, managed, Some(trigger), before, after, true).agent;
      var added := Size(after) - Size(before);
      && next.side == SideNow(after)
      && (if prior.Some? && Size(before) > 0.0 && added > 0.0 then
            next.raw == Some(Unit(Weighted(prior.value, Size(before), added, trigger)))
            && next.validity == Some(Unit(prior.value.validity))
          else next.validity == Some(1.0) && next.raw == Some(Unit(trigger)))
  {
    hide CurrentBasis, Weighted, ClampTo;
  }

  lemma WeightedSums(prior: Basis, before: real, added: real, raw: real)
    requires before > 0.0 && added > 0.0 && before + added >= 0.000000000001
    ensures Weighted(prior, before, added, raw) * (before + added) == prior.raw * before + raw * added
  {
  }

  /** The validity a trim leaves is the old one less its decayed share of the part closed. */
  lemma DecayIsExact(validity: real, decay: real, closeFraction: real)
    requires 0.0 <= validity <= 1.0 && 0.0 <= decay <= 1.0 && 0.0 <= closeFraction <= 1.0
    ensures DecayedValidity(validity, decay, closeFraction) == validity - validity * decay * closeFraction
  {
    ValidityShrinks(validity, decay, closeFraction);
    RemainingShrinks(validity, decay, closeFraction);
    DecayedShare(validity, decay, closeFraction);
  }

  lemma DecayedShare(v: real, d: real, c: real)
    ensures v * (1.0 - d * c) == v - v * d * c
  {
  }

  lemma EffectShrinks(raw: real, smaller: real, larger: real)
    requires 0.0 <= raw && smaller <= larger
    ensures raw * smaller <= raw * larger
  {
    assert raw * (larger - smaller) >= 0.0;
    assert raw * (larger - smaller) == raw * larger - raw * smaller;
  }

  /** The trim that answers an opposing event, as executed. */
  function TrimOf(settings: Settings, decision: Decision): Managed {
    Managed(TrimPosition, decision.closeFraction, Some(settings.validityDecay))
  }

  /** The weaker basis a trim leaves behind. */
  function Trimmed(prior: Basis, managed: Managed): Basis
    requires managed.oppositeDecay.Some?
  {
    Basis(prior.raw, DecayedValidity(prior.validity, managed.oppositeDecay.value, managed.closeFraction))
  }

  lemma TrimmedIsWeaker(prior: Basis, managed: Managed)
    requires managed.oppositeDecay.Some?
    requires 0.0 <= prior.raw <= 1.0 && 0.0 <= prior.validity <= 1.0
    ensures 0.0 <= Trimmed(prior, managed).validity <= prior.validity
    ensures Trimmed(prior, managed).Effective() <= prior.Effective()
  {
    ValidityShrinks(prior.validity, managed.oppositeDecay.value, managed.closeFraction);
    EffectShrinks(prior.raw, Trimmed(prior, managed).validity, prior.validity);
  }

  /** A trim of a position that stays on its side keeps the raw confidence and decays its validity. */
  lemma TrimDecaysBasis(holders: Holders, managed: Managed, trigger: Option<real>, before: Position, after: Position)
    requires managed.action == TrimPosition && managed.oppositeDecay.Some?
    requires IsPosition(SideOf(before)) && SideOf(after) == SideOf(before)
    ensures
      var prior := CurrentBasis(holders, SideOf(before));
      CurrentBasis(Updated(holders, managed, trigger, before, after, true), SideOf(after)) ==
      if prior == None then None else Some(Trimmed(prior.value, managed))
  {
    var side := SideOf(before);
    var prior := CurrentBasis(holders, side);
    if prior.Some? {
      CurrentBasisInUnit(holders, side);
      StoredBasisIsCurrent(holders, side, prior.value.raw, Trimmed(prior.value, managed).validity);
      hide CurrentBasis, WithBasis;
    }
  }

  /** After an accepted trim the same confidence never gets a milder answer. */
  lemma RepeatIsNeverMilder(settings: Settings, holders: Holders, managed: Managed, trigger: Option<real>,
                            before: Position, after: Position, confidence: Option<real>)
    requires managed.action == TrimPosition && managed.oppositeDecay.Some?
    requires IsPosition(SideOf(before)) && SideOf(after) == SideOf(before)
    ensures
      var next := Updated(holders, managed, trigger, before, after, true);
      AtLeast(Decide(settings, EffectiveBasis(next, SideOf(after)), confidence),
              Decide(settings, EffectiveBasis(holders, SideOf(before)), confidence))
  {
    TrimDecaysBasis(holders, managed, trigger, before, after);
    var prior := CurrentBasis(holders, SideOf(before));
    if prior.Some? {
      CurrentBasisInUnit(holders, SideOf(before));
      TrimmedIsWeaker(prior.value, managed);
      hide CurrentBasis, Updated, Decide, Basis.Effective, Trimmed;
      WeakerBasisIsNeverMilder(settings, Trimmed(prior.value, managed).Effective(), prior.value.Effective(), confidence);
    }
  }

  /** The basis after answering the same confidence n times, while the answer is an accepted trim. */
  function Repeated(settings: Settings, holders: Holders, position: Position, confidence: real, n: nat): Holders {
    if n == 0 then holders
    else
      var before := Repeated(settings, holders, position, confidence, n - 1);
      var decision := Decide(settings, EffectiveBasis(before, SideOf(position)), Some(confidence));
      if decision.kind == Trim then Updated(before, TrimOf(settings, decision), None, position, position, true)
      else before
  }

  /** However often the same signal is repeated, later answers are at least as severe as earlier ones. */
  lemma {:induction false} RepetitionEscalates(settings: Settings, holders: Holders, position: Position,
                                               confidence: real, m: nat, n: nat)
    requires IsPosition(SideOf(position)) && m <= n
    ensures
      var side := SideOf(position);
      AtLeast(Decide(settings, EffectiveBasis(Repeated(settings, holders, position, confidence, n), side), Some(confidence)),
              Decide(settings, EffectiveBasis(Repeated(settings, holders, position, confidence, m), side), Some(confidence)))
  {
    hide Updated, Decide, EffectiveBasis;
    if m < n {
      RepetitionEscalates(settings, holders, position, confidence, m, n - 1);
      var before := Repeated(settings, holders, position, confidence, n - 1);
      var decision := Decide(settings, EffectiveBasis(before, SideOf(position)), Some(confidence));
      RepeatIsNeverMilder(settings, before, TrimOf(settings, decision), None, position, position, Some(confidence));
    }
  }

  // ---------- adding to a position ----------

  /** Adding to a position gives a basis between the old confidence and the new one. */
  lemma WeightedLiesBetween(prior: Basis, before: real, added: real, raw: real)
    requires before > 0.0 && added > 0.0 && before + added >= 0.000000000001
    ensures prior.raw <= raw ==> prior.raw <= Weighted(prior, before, added, raw) <= raw
    ensures raw <= prior.raw ==> raw <= Weighted(prior, before, added, raw) <= prior.raw
  {
    var total := before + added;
    var w := Weighted(prior, before, added, raw);
    assert w * total == prior.raw * before + raw * added;
    Between(prior.raw, raw, before, added, w);
  }

  lemma Between(a: real, b: real, u: real, v: real, w: real)
    requires u > 0.0 && v > 0.0 && w * (u + v) == a * u + b * v
    ensures a <= b ==> a <= w <= b
    ensures b <= a ==> b <= w <= a
  {
    var total := u + v;
    assert (w - a) * total == (b - a) * v;
    assert (b - w) * total == (b - a) * u;
    SignOf(w - a, total, b - a, v);
    SignOf(b - w, total, b - a, u);
  }

  lemma SignOf(x: real, p: real, y: real, q: real)
    requires p > 0.0 && q > 0.0 && x * p == y * q
    ensures y >= 0.0 ==> x >= 0.0
    ensures y <= 0.0 ==> x <= 0.0
  {
    if y >= 0.0 {
      assert y * q >= 0.0;
    }
    if y <= 0.0 {
      assert y * q <= 0.0;
    }
  }
}

/** Market impact and the participation cap: an order moves the price by a temporary term that grows with the
    square root of its share of average daily volume (ADV), plus half the spread and a slippage buffer. */
module Impact {
  import opened Numbers

  const BPS: real := 10000.0

  datatype ImpactConfig = ImpactConfig(
    impactK: real,
    maxAdvParticipation: real,
    slippageBufferBps: real,
    assumedSpreadBps: real)
  {
    predicate Valid() {
      0.0 <= impactK && 0.0 <= maxAdvParticipation && 0.0 <= slippageBufferBps && 0.0 <= assumedSpreadBps
    }

    /** The part of the impact fraction that does not depend on volume. */
    function FlatFraction(): real {
      assumedSpreadBps / BPS * 0.5 + slippageBufferBps / BPS
    }
  }

  datatype ImpactResult = ImpactResult(participation: real, impactFraction: real, cost: real)

  /** Missing or non-positive ADV means "unknown". */
  predicate KnownAdv(adv: Option<real>) {
    adv.Some? && adv.value > 0.0
  }

  function ComputeImpact(
    quantity: real, price: real, adv: Option<real>, vol: Option<real>, cfg: ImpactConfig, sqrt: real -> real)
    : ImpactResult
  {
    var qty := Abs(quantity);
    var participation := if KnownAdv(adv) then qty / adv.value else 0.0;
    var temporary := cfg.impactK * vol.GetOr(0.0) * sqrt(participation);
    var fraction := temporary + cfg.assumedSpreadBps / BPS * 0.5 + cfg.slippageBufferBps / BPS;
    ImpactResult(participation, fraction, fraction * qty * price)
  }

  /** One lane of the array form. */
  function ImpactCost(
    quantity: real, price: real, adv: Option<real>, vol: Option<real>, cfg: ImpactConfig, sqrt: real -> real): real
  {
    var qty := Abs(quantity);
    var ok := KnownAdv(adv);
    var participation := if ok then qty / (if ok then adv.value else 1.0) else 0.0;
    var temporary := cfg.impactK * vol.GetOr(0.0) * sqrt(participation);
    var spread := cfg.assumedSpreadBps / BPS * 0.5;
    var slippage := cfg.slippageBufferBps / BPS;
    (temporary + spread + slippage) * qty * price
  }

  /** Clip an order to its share of ADV, keeping its sign; no cap when ADV is unknown. */
  function CapQuantity(desired: real, adv: Option<real>, maxParticipation: real): real {
    if !KnownAdv(adv) then
      desired
    else
      var magnitude := Abs(Min(Abs(desired), maxParticipation * adv.value));
      if desired < 0.0 then -magnitude else magnitude
  }

  /** One lane of the array form: an infinite cap stands for "no cap". */
  function CapLane(desired: real, adv: Option<real>, maxParticipation: real): real {
    var magnitude := if KnownAdv(adv) then Min(Abs(desired), maxParticipation * adv.value) else Abs(desired);
    Sign(desired) as real * magnitude
  }

  /** The capped order keeps its direction, is never larger than asked for, obeys the cap, and is cut only
      when the cap binds. */
  lemma CapLaneContract(desired: real, adv: Option<real>, maxParticipation: real)
    requires maxParticipation >= 0.0
    ensures
      var filled := CapLane(desired, adv, maxParticipation);
      && (desired >= 0.0 ==> 0.0 <= filled <= desired)
      && (desired <= 0.0 ==> desired <= filled <= 0.0)
      && (KnownAdv(adv) ==> Abs(filled) <= maxParticipation * adv.value)
      && (filled == desired <==> !KnownAdv(adv) || Abs(desired) <= maxParticipation * adv.value)
  {
    if KnownAdv(adv) {
      MulNonNegative(maxParticipation, adv.value);
    }
  }

  /** The scalar and array forms of the cap agree exactly when the cap, if there is one, is not negative. */
  lemma CapFormsAgree(desired: real, adv: Option<real>, maxParticipation: real)
    ensures CapQuantity(desired, adv, maxParticipation) == CapLane(desired, adv, maxParticipation)
       <==> (KnownAdv(adv) ==> maxParticipation >= 0.0)
  {
    if KnownAdv(adv) {
      if maxParticipation >= 0.0 {
        MulNonNegative(maxParticipation, adv.value);
      } else {
        assert maxParticipation * adv.value < 0.0;
      }
    }
  }

  /** With zero volume and zero volatility, as the broker passes them, only the flat fraction is left. */
  lemma NoVolumeLeavesFlatFraction(quantity: real, price: real, cfg: ImpactConfig, sqrt: real -> real)
    ensures ComputeImpact(quantity, price, Some(0.0), Some(0.0), cfg, sqrt).impactFraction == cfg.FlatFraction()
  {
    assert cfg.impactK * 0.0 * sqrt(0.0) == 0.0;
  }

  /** The square-root law: beyond half the spread and the buffer, the squared impact times the volume is the squared
      scaled volatility times the quantity; with an unknown volume only the flat part is left. The cost is the impact on
      the traded value. */
  lemma SquareRootLaw(
    quantity: real, price: real, adv: Option<real>, vol: Option<real>, cfg: ImpactConfig, sqrt: real -> real)
    requires sqrt(0.0) == 0.0
    requires KnownAdv(adv) ==>
      var share := Abs(quantity) / adv.value;
      sqrt(share) >= 0.0 && sqrt(share) * sqrt(share) == share
    ensures
      var r := ComputeImpact(quantity, price, adv, vol, cfg, sqrt);
      var beyond := r.impactFraction - (cfg.assumedSpreadBps / 2.0 + cfg.slippageBufferBps) / 10000.0;
      && r.cost == r.impactFraction * (Abs(quantity) * price)
      && (vol.None? || !KnownAdv(adv) ==> beyond == 0.0)
      && (KnownAdv(adv) ==> r.participation * adv.value == Abs(quantity))
      && (KnownAdv(adv) && vol.Some? ==>
            && (cfg.impactK >= 0.0 && vol.value >= 0.0 ==> beyond >= 0.0)
            && beyond * beyond * adv.value == (cfg.impactK * vol.value) * (cfg.impactK * vol.value) * Abs(quantity))
  {
    var r := ComputeImpact(quantity, price, adv, vol, cfg, sqrt);
    var qty := Abs(quantity);
    assert r.impactFraction * qty * price == r.impactFraction * (qty * price);
    FlatPart(cfg);
    if KnownAdv(adv) {
      var root := sqrt(qty / adv.value);
      assert qty / adv.value * adv.value == qty;
      if vol.Some? {
        SquaredImpact(cfg.impactK * vol.value, root, qty / adv.value, adv.value);
        if cfg.impactK >= 0.0 && vol.value >= 0.0 {
          MulNonNegative(cfg.impactK, vol.value);
          MulNonNegative(cfg.impactK * vol.value, root);
        }
      } else {
        assert cfg.impactK * 0.0 * root == 0.0;
      }
    } else {
      assert cfg.impactK * vol.GetOr(0.0) * 0.0 == 0.0;
    }
  }

  lemma FlatPart(cfg: ImpactConfig)
    ensures cfg.assumedSpreadBps / BPS * 0.5 + cfg.slippageBufferBps / BPS
         == (cfg.assumedSpreadBps / 2.0 + cfg.slippageBufferBps) / 10000.0
    ensures cfg.FlatFraction() == (cfg.assumedSpreadBps / 2.0 + cfg.slippageBufferBps) / 10000.0
  {
  }

  lemma SquaredImpact(scale: real, root: real, share: real, adv: real)
    requires root * root == share
    ensures (scale * root) * (scale * root) * adv == scale * scale * (share * adv)
  {
    assert (scale * root) * (scale * root) == scale * scale * (root * root);
  }

  /** On a known price the array form charges what the scalar form charges. */
  lemma ImpactFormsAgree(
    quantity: real, price: real, adv: Option<real>, vol: Option<real>, cfg: ImpactConfig, sqrt: real -> real)
    ensures ImpactCost(quantity, price, adv, vol, cfg, sqrt) == ComputeImpact(quantity, price, adv, vol, cfg, sqrt).cost
  {
  }
}

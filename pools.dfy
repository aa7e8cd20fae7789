/** The per-record body of `PoolsGet` (go_hds_restapi.go:698-1026): the
    effective-free fallback, the first-match classification of a pool into
    one of five variants, and each variant's capacity and compression-ratio
    figures, before they are turned into text. */
module Pools {
  import opened Wrappers
  import opened Rounding

  /** MiB per GiB (`Mb2Gb`). */
  const Mb2Gb: real := 1024.0

  /** Decimal places used for every figure (`Parameters.RoundPrecision`). */
  const RoundPrecision: int := 2

  /** One element of the "data" array of the pools response, after decoding.
      Every field may be absent; the Go code reads them with type assertions
      that panic on an absent field, which is `MissingField` here. Capacities
      are in MiB. */
  datatype PoolRecord = PoolRecord(
    poolId: Option<real>,
    poolName: Option<string>,
    poolType: Option<string>,
    totalPoolCapacity: Option<real>,
    availableVolumeCapacity: Option<real>,
    totalPhysicalCapacity: Option<real>,
    usedPhysicalCapacity: Option<real>,
    availablePhysicalVolumeCapacity: Option<real>,
    usedFMCPoolVolumesCapacity: Option<real>,
    usedPhysicalFMCPoolVolumesCapacity: Option<real>,
    availablePhysicalFMCPoolVolumesCapacity: Option<real>)

  /** Why a record yields no figures: a field the branch reads is absent,
      or a ratio's denominator is zero. */
  datatype PoolError = MissingField(field: string) | DivisionByZero(field: string)

  /** The five pool variants, in the order the code tests for them. */
  datatype Variant = AllFlashCompressed | MixedCompressed | Tiered | ThinProvisioned | ThinImage {
    /** The two variants whose pools report FMC capacities. */
    predicate IsCompressed() {
      AllFlashCompressed? || MixedCompressed?
    }
  }

  /** A compression ratio, or the marker for a variant without one
      (rendered as "-1.00"). */
  datatype Ratio = NotApplicable | Computed(value: real)

  /** The figures of one classified pool, in GiB where they are capacities. */
  datatype PoolFigures = PoolFigures(
    poolId: real,
    poolName: string,
    variant: Variant,
    totalGB: real,
    usedGB: real,
    freeGB: real,
    fmcRatio: Ratio,
    totalRatio: Ratio,
    effectiveFreeGB: real)

  /** `RoundFloat64(x, p.RoundPrecision)`, the rounding applied to the
      total ratio before it scales the free capacity. */
  const RoundRatio: real -> real := x => RoundFloat64(x, RoundPrecision)

  /** Reads a field that the code type-asserts. */
  function Require<T>(field: Option<T>, name: string): (r: Result<T, PoolError>)
    ensures field.Some? ==> r == Success(field.value)
    ensures field.None? ==> r == Failure(MissingField(name))
  {
    match field
    case Some(v) => Success(v)
    case None => Failure(MissingField(name))
  }

  /** The free capacity in MiB: `availablePhysicalVolumeCapacity` when the
      record has it, else `availableVolumeCapacity`. */
  function EffectiveFree(r: PoolRecord): (free: Result<real, PoolError>)
  {
    if r.availablePhysicalVolumeCapacity.Some? then Success(r.availablePhysicalVolumeCapacity.value)
    else Require(r.availableVolumeCapacity, "availableVolumeCapacity")
  }

  /** First match wins: a record with `usedFMCPoolVolumesCapacity` is a
      compressed pool whatever its `poolType`; otherwise the type decides,
      and an unknown type is not classified (`None`). */
  function Classify(r: PoolRecord): (c: Result<Option<Variant>, PoolError>)
  {
    if r.usedFMCPoolVolumesCapacity.Some? then
      var total :- Require(r.totalPhysicalCapacity, "totalPhysicalCapacity");
      var fmcAvailable :- Require(r.availablePhysicalFMCPoolVolumesCapacity, "availablePhysicalFMCPoolVolumesCapacity");
      Success(Some(if total == fmcAvailable then AllFlashCompressed else MixedCompressed))
    else
      var poolType :- Require(r.poolType, "poolType");
      if poolType == "RT" || poolType == "HDT" then Success(Some(Tiered))
      else if poolType == "HDP" then Success(Some(ThinProvisioned))
      else if poolType == "HTI" then Success(Some(ThinImage))
      else Success(None)
  }

  /** The figures of both compressed variants (the all-flash branch at
      738-760 and the FMC-containing branch at 794-816 compute the same
      formulas). The fields are read in the code's order; a zero
      denominator is reported once all of them have been read. */
  function CompressedFigures(r: PoolRecord, id: real, name: string, v: Variant, eff: real): (f: Result<PoolFigures, PoolError>)
    requires v.IsCompressed()
  {
    var totalPhysical :- Require(r.totalPhysicalCapacity, "totalPhysicalCapacity");
    var usedPhysical :- Require(r.usedPhysicalCapacity, "usedPhysicalCapacity");
    var totalPool :- Require(r.totalPoolCapacity, "totalPoolCapacity");
    var usedFmc :- Require(r.usedFMCPoolVolumesCapacity, "usedFMCPoolVolumesCapacity");
    var usedPhysicalFmc :- Require(r.usedPhysicalFMCPoolVolumesCapacity, "usedPhysicalFMCPoolVolumesCapacity");
    if usedPhysical == 0.0 then Failure(DivisionByZero("usedPhysicalCapacity"))
    else if usedPhysicalFmc == 0.0 then Failure(DivisionByZero("usedPhysicalFMCPoolVolumesCapacity"))
    else
      var ratioTotal := (totalPool - eff) / usedPhysical;
      Success(PoolFigures(id, name, v,
        totalPhysical / Mb2Gb,
        usedPhysical / Mb2Gb,
        eff / Mb2Gb,
        Computed(usedFmc / usedPhysicalFmc),
        Computed(ratioTotal),
        (eff / Mb2Gb) * RoundRatio(ratioTotal)))
  }

  /** Tiered pools (RT/HDT, 869-883): used is the pool total minus the
      effective free capacity. */
  function TieredFigures(id: real, name: string, totalPool: real, eff: real): PoolFigures {
    PoolFigures(id, name, Tiered,
      totalPool / Mb2Gb,
      (totalPool - eff) / Mb2Gb,
      eff / Mb2Gb,
      NotApplicable,
      NotApplicable,
      eff / Mb2Gb)
  }

  /** Thin-provisioned and thin-image pools (HDP 918-947, HTI 980-1009):
      used is the total in GiB minus the free in GiB. */
  function ThinFigures(id: real, name: string, v: Variant, totalPool: real, eff: real): PoolFigures {
    var total := totalPool / Mb2Gb;
    var free := eff / Mb2Gb;
    PoolFigures(id, name, v, total, total - free, free, NotApplicable, NotApplicable, free)
  }

  /** One iteration of the pools loop: `Success(None)` for a pool whose type
      is not classified (no rows), the figures of a classified pool, or the
      error that stops the run. */
  function Derive(r: PoolRecord): (d: Result<Option<PoolFigures>, PoolError>)
  {
    var id :- Require(r.poolId, "poolId");
    var name :- Require(r.poolName, "poolName");
    var eff :- EffectiveFree(r);
    var variant :- Classify(r);
    match variant
    case None => Success(None)
    case Some(v) =>
      if v.IsCompressed() then
        var f :- CompressedFigures(r, id, name, v, eff);
        Success(Some(f))
      else
        var totalPool :- Require(r.totalPoolCapacity, "totalPoolCapacity");
        Success(Some(if v == Tiered then TieredFigures(id, name, totalPool, eff)
                     else ThinFigures(id, name, v, totalPool, eff)))
  }

  /** All capacities the record carries are non-negative. */
  predicate NonNegative(r: PoolRecord) {
    && (r.totalPoolCapacity.Some? ==> r.totalPoolCapacity.value >= 0.0)
    && (r.availableVolumeCapacity.Some? ==> r.availableVolumeCapacity.value >= 0.0)
    && (r.totalPhysicalCapacity.Some? ==> r.totalPhysicalCapacity.value >= 0.0)
    && (r.usedPhysicalCapacity.Some? ==> r.usedPhysicalCapacity.value >= 0.0)
    && (r.availablePhysicalVolumeCapacity.Some? ==> r.availablePhysicalVolumeCapacity.value >= 0.0)
    && (r.usedFMCPoolVolumesCapacity.Some? ==> r.usedFMCPoolVolumesCapacity.value >= 0.0)
    && (r.usedPhysicalFMCPoolVolumesCapacity.Some? ==> r.usedPhysicalFMCPoolVolumesCapacity.value >= 0.0)
    && (r.availablePhysicalFMCPoolVolumesCapacity.Some? ==> r.availablePhysicalFMCPoolVolumesCapacity.value >= 0.0)
  }

  // ---------------------------------------------------------------------
  // Properties
  // ---------------------------------------------------------------------

  /** The one effective-free value feeds the free figure of every variant:
      it is the physical free capacity when present, else the virtual one. */
  lemma FreeFigureUsesFallback(r: PoolRecord)
    requires Derive(r).Success? && Derive(r).value.Some?
    ensures var f := Derive(r).value.value;
            f.freeGB * Mb2Gb == (if r.availablePhysicalVolumeCapacity.Some? then r.availablePhysicalVolumeCapacity.value
                                 else r.availableVolumeCapacity.value)
  {
    var eff := EffectiveFree(r).value;
    assert (eff / Mb2Gb) * Mb2Gb == eff;
  }

  /** When `usedFMCPoolVolumesCapacity` is present, `poolType` plays no part
      in the classification, and the pool is all-flash exactly when its
      physical total equals its FMC physical capacity. */
  lemma CompressedClassificationIgnoresType(r: PoolRecord, otherType: Option<string>)
    requires r.usedFMCPoolVolumesCapacity.Some?
    requires r.totalPhysicalCapacity.Some? && r.availablePhysicalFMCPoolVolumesCapacity.Some?
    ensures Classify(r) == Classify(r.(poolType := otherType))
    ensures Classify(r) == Success(Some(AllFlashCompressed))
            <==> r.totalPhysicalCapacity.value == r.availablePhysicalFMCPoolVolumesCapacity.value
    ensures Classify(r).Success? && Classify(r).value.Some? && Classify(r).value.value.IsCompressed()
  {
  }

  /** Without FMC capacities the type string decides, and any type other
      than RT, HDT, HDP and HTI yields no figures at all. */
  lemma TypeClassification(r: PoolRecord)
    requires r.usedFMCPoolVolumesCapacity.None? && r.poolType.Some?
    ensures var t := r.poolType.value;
            Classify(r) == Success(if t == "RT" || t == "HDT" then Some(Tiered)
                                   else if t == "HDP" then Some(ThinProvisioned)
                                   else if t == "HTI" then Some(ThinImage)
                                   else None)
    ensures Classify(r).Success? && Classify(r).value.Some? ==> !Classify(r).value.value.IsCompressed()
  {
  }

  /** A pool of an unknown type is skipped: no error and no figures. */
  lemma UnknownTypeIsSkipped(r: PoolRecord)
    requires r.poolId.Some? && r.poolName.Some?
    requires r.availablePhysicalVolumeCapacity.Some? || r.availableVolumeCapacity.Some?
    requires r.usedFMCPoolVolumesCapacity.None? && r.poolType.Some?
    requires r.poolType.value !in {"RT", "HDT", "HDP", "HTI"}
    ensures Derive(r) == Success(None)
  {
  }

  /** The figures keep the variant the classifier chose. */
  lemma DeriveKeepsVariant(r: PoolRecord)
    requires Derive(r).Success? && Derive(r).value.Some?
    ensures Classify(r).Success? && Classify(r).value == Some(Derive(r).value.value.variant)
  {
  }

  /** Tiered, thin and thin-image pools: both ratios are the "-1.00"
      marker, the effective free figure is the free figure, and used plus
      free is exactly the total. */
  lemma UncompressedFigures(r: PoolRecord)
    requires Derive(r).Success? && Derive(r).value.Some?
    requires !Derive(r).value.value.variant.IsCompressed()
    ensures var f := Derive(r).value.value;
            && f.fmcRatio == NotApplicable && f.totalRatio == NotApplicable
            && f.effectiveFreeGB == f.freeGB
            && f.usedGB + f.freeGB == f.totalGB
            && f.totalGB * Mb2Gb == r.totalPoolCapacity.value
  {
  }

  /** Compressed pools: both ratios are computed, and used plus free equals
      the total only when the record's used and effective free capacities
      add up to its physical total, which the code does not ensure. */
  lemma CompressedBalance(r: PoolRecord)
    requires Derive(r).Success? && Derive(r).value.Some?
    requires Derive(r).value.value.variant.IsCompressed()
    ensures var f := Derive(r).value.value;
            && f.fmcRatio.Computed? && f.totalRatio.Computed?
            && (f.usedGB + f.freeGB == f.totalGB
                <==> r.usedPhysicalCapacity.value + EffectiveFree(r).value == r.totalPhysicalCapacity.value)
  {
    var f := Derive(r).value.value;
    var eff := EffectiveFree(r).value;
    var total := r.totalPhysicalCapacity.value;
    var used := r.usedPhysicalCapacity.value;
    assert f.usedGB + f.freeGB == (used + eff) / Mb2Gb;
    assert f.totalGB == total / Mb2Gb;
  }

  /** A compressed pool's figures are those of `CompressedFigures`. */
  lemma DeriveCompressed(r: PoolRecord)
    requires Derive(r).Success? && Derive(r).value.Some?
    requires Derive(r).value.value.variant.IsCompressed()
    ensures r.poolId.Some? && r.poolName.Some? && EffectiveFree(r).Success?
    ensures var v := Derive(r).value.value.variant;
            v.IsCompressed() &&
            CompressedFigures(r, r.poolId.value, r.poolName.value, v, EffectiveFree(r).value) == Success(Derive(r).value.value)
  {
  }

  /** The compressed formulas, spelled out on the record's own fields. */
  lemma CompressedFormulas(r: PoolRecord, id: real, name: string, v: Variant, eff: real)
    requires v.IsCompressed() && CompressedFigures(r, id, name, v, eff).Success?
    ensures r.usedPhysicalCapacity.Some? && r.usedPhysicalCapacity.value != 0.0
    ensures r.usedFMCPoolVolumesCapacity.Some? && r.totalPoolCapacity.Some?
    ensures r.usedPhysicalFMCPoolVolumesCapacity.Some? && r.usedPhysicalFMCPoolVolumesCapacity.value != 0.0
    ensures var f := CompressedFigures(r, id, name, v, eff).value;
            var ratio := (r.totalPoolCapacity.value - eff) / r.usedPhysicalCapacity.value;
            && f.fmcRatio == Computed(r.usedFMCPoolVolumesCapacity.value / r.usedPhysicalFMCPoolVolumesCapacity.value)
            && f.totalRatio == Computed(ratio)
            && f.freeGB == eff / Mb2Gb
            && f.effectiveFreeGB == f.freeGB * RoundFloat64(f.totalRatio.value, RoundPrecision)
  {
  }

  /** Compressed pools: the ratios are the two quotients of the source,
      the FMC ratio is never negative, and the total ratio is negative
      exactly when more is free than the pool holds. */
  lemma CompressedRatios(r: PoolRecord, id: real, name: string, v: Variant, eff: real)
    requires NonNegative(r) && eff >= 0.0
    requires v.IsCompressed() && CompressedFigures(r, id, name, v, eff).Success?
    ensures var f := CompressedFigures(r, id, name, v, eff).value;
            && f.fmcRatio.Computed? && f.totalRatio.Computed?
            && f.fmcRatio.value * r.usedPhysicalFMCPoolVolumesCapacity.value == r.usedFMCPoolVolumesCapacity.value
            && f.totalRatio.value * r.usedPhysicalCapacity.value == r.totalPoolCapacity.value - eff
            && f.fmcRatio.value >= 0.0
            && (f.totalRatio.value >= 0.0 <==> r.totalPoolCapacity.value >= eff)
  {
    var f := CompressedFigures(r, id, name, v, eff).value;
    CompressedFormulas(r, id, name, v, eff);
    QuotientSign(r.usedFMCPoolVolumesCapacity.value, r.usedPhysicalFMCPoolVolumesCapacity.value);
    QuotientSign(r.totalPoolCapacity.value - eff, r.usedPhysicalCapacity.value);
  }

  /** Compressed pools: the effective free figure is the free figure times
      the total ratio rounded half-up to two places, so for a non-negative
      ratio it is within half a hundredth of the free figure of the exact
      product. */
  lemma CompressedEffectiveFree(r: PoolRecord, id: real, name: string, v: Variant, eff: real)
    requires eff >= 0.0
    requires v.IsCompressed() && CompressedFigures(r, id, name, v, eff).Success?
    ensures var f := CompressedFigures(r, id, name, v, eff).value;
            && f.totalRatio.Computed?
            && f.freeGB * Mb2Gb == eff
            && f.effectiveFreeGB == f.freeGB * RoundFloat64(f.totalRatio.value, RoundPrecision)
            && (f.totalRatio.value >= 0.0 ==>
                  -0.5 * f.freeGB <= 100.0 * (f.effectiveFreeGB - f.freeGB * f.totalRatio.value) <= 0.5 * f.freeGB)
  {
    var f := CompressedFigures(r, id, name, v, eff).value;
    CompressedFormulas(r, id, name, v, eff);
    EffectiveFreeError(f.freeGB, f.totalRatio.value, f.effectiveFreeGB);
  }

  /** Multiplying a non-negative free figure by a ratio rounded to two
      places misses the exact product by at most half a hundredth of the
      free figure. */
  lemma EffectiveFreeError(free: real, ratio: real, effective: real)
    requires free >= 0.0
    requires effective == free * RoundFloat64(ratio, RoundPrecision)
    ensures ratio >= 0.0 ==> -0.5 * free <= 100.0 * (effective - free * ratio) <= 0.5 * free
  {
    if ratio >= 0.0 {
      RoundErrorBound(ratio, RoundPrecision);
      assert Pow10(RoundPrecision) == 100.0 by { assert Exp10(2) == 100; }
      var rounded := RoundFloat64(ratio, RoundPrecision);
      var e := 100.0 * rounded - 100.0 * ratio;
      assert -0.5 <= e <= 0.5;
      ScaledBound(free, e);
      ScaledDifference(free, rounded, ratio);
      assert 100.0 * (effective - free * ratio) == free * e;
    }
  }

  /** The quotient by a positive number times that number is the
      dividend, and has the dividend's sign. */
  lemma QuotientSign(a: real, b: real)
    requires b > 0.0
    ensures (a / b) * b == a
    ensures a / b >= 0.0 <==> a >= 0.0
  {
  }

  /** Distributing a factor over a scaled difference. */
  lemma ScaledDifference(free: real, rounded: real, ratio: real)
    ensures 100.0 * (free * rounded - free * ratio) == free * (100.0 * rounded - 100.0 * ratio)
  {
  }

  /** A bound of one half scaled by a non-negative factor. */
  lemma ScaledBound(factor: real, e: real)
    requires factor >= 0.0 && -0.5 <= e <= 0.5
    ensures -0.5 * factor <= factor * e <= 0.5 * factor
  {
  }

  /** A zero `usedPhysicalCapacity` in a compressed pool is reported as a
      division by zero instead of an infinite ratio. */
  lemma ZeroUsedPhysicalIsReported(r: PoolRecord)
    requires r.poolId.Some? && r.poolName.Some? && r.availablePhysicalVolumeCapacity.Some?
    requires r.usedFMCPoolVolumesCapacity.Some? && r.totalPhysicalCapacity.Some?
    requires r.availablePhysicalFMCPoolVolumesCapacity.Some? && r.totalPoolCapacity.Some?
    requires r.usedPhysicalFMCPoolVolumesCapacity.Some?
    requires r.usedPhysicalCapacity == Some(0.0)
    ensures Derive(r) == Failure(DivisionByZero("usedPhysicalCapacity"))
  {
  }

  /** The first absent field in the code's reading order is the one
      reported: `poolId` before everything else. */
  lemma MissingPoolIdIsReportedFirst(r: PoolRecord)
    requires r.poolId.None?
    ensures Derive(r) == Failure(MissingField("poolId"))
  {
  }

  /** The pool of the sample response with `poolType` "RT" and FMC
      capacities (pool 22) is classified as an FMC-containing pool. */
  lemma SamplePool22IsCompressed()
    ensures var r := PoolRecord(Some(22.0), Some("FMC_HDT"), Some("RT"), Some(12560520.0), Some(12181134.0),
                                Some(7404558.0), Some(80136.0), Some(7324422.0), Some(379293.0), Some(80118.0),
                                Some(4910262.0));
            Classify(r) == Success(Some(MixedCompressed))
  {
  }

    /** Pool 20 of the sample response, an all-flash pool: its record and
      the exact figures it yields. */
  lemma AllFlashDerivation()
    ensures var r := PoolRecord(Some(20.0), Some("FMC_HDP"), Some("HDP"), Some(10062024.0), Some(8838690.0),
                                Some(4910262.0), Some(316512.0), Some(4593750.0), Some(1223334.0), Some(316498.0),
                                Some(4910262.0));
            Derive(r) == Success(Some(PoolFigures(20.0, "FMC_HDP", AllFlashCompressed,
              4910262.0 / 1024.0, 316512.0 / 1024.0, 4593750.0 / 1024.0,
              Computed(1223334.0 / 316498.0), Computed(5468274.0 / 316512.0),
              (4593750.0 / 1024.0) * 17.28)))
  {
    var r := PoolRecord(Some(20.0), Some("FMC_HDP"), Some("HDP"), Some(10062024.0), Some(8838690.0),
                        Some(4910262.0), Some(316512.0), Some(4593750.0), Some(1223334.0), Some(316498.0),
                        Some(4910262.0));
    assert EffectiveFree(r) == Success(4593750.0);
    assert Classify(r) == Success(Some(AllFlashCompressed));
    assert RoundRatio(5468274.0 / 316512.0) == 17.28 by {
      RoundTwoPlaces(5468274.0 / 316512.0, 1728);
    }
    assert (10062024.0 - 4593750.0) / 316512.0 == 5468274.0 / 316512.0;
    assert CompressedFigures(r, 20.0, "FMC_HDP", AllFlashCompressed, 4593750.0)
        == Success(PoolFigures(20.0, "FMC_HDP", AllFlashCompressed,
             4910262.0 / 1024.0, 316512.0 / 1024.0, 4593750.0 / 1024.0,
             Computed(1223334.0 / 316498.0), Computed(5468274.0 / 316512.0),
             (4593750.0 / 1024.0) * 17.28));
  }

  /** The all-flash example: classification and its figures at two places. */
  lemma AllFlashScenario()
    ensures var r := PoolRecord(Some(20.0), Some("FMC_HDP"), Some("HDP"), Some(10062024.0), Some(8838690.0),
                                Some(4910262.0), Some(316512.0), Some(4593750.0), Some(1223334.0), Some(316498.0),
                                Some(4910262.0));
            var d := Derive(r);
            && d.Success? && d.value.Some?
            && d.value.value.variant == AllFlashCompressed
            && RoundFloat64(d.value.value.totalGB, 2) == 4795.18
            && RoundFloat64(d.value.value.usedGB, 2) == 309.09
            && RoundFloat64(d.value.value.freeGB, 2) == 4486.08
            && RoundFloat64(d.value.value.totalRatio.value, 2) == 17.28
            && RoundFloat64(d.value.value.fmcRatio.value, 2) == 3.87
            && RoundFloat64(d.value.value.effectiveFreeGB, 2) == 77519.53
  {
    AllFlashDerivation();
    assert RoundFloat64(4910262.0 / 1024.0, 2) == 4795.18 by {
      RoundTwoPlaces(4910262.0 / 1024.0, 479518);
    }
    assert RoundFloat64(316512.0 / 1024.0, 2) == 309.09 by {
      RoundTwoPlaces(316512.0 / 1024.0, 30909);
    }
    assert RoundFloat64(4593750.0 / 1024.0, 2) == 4486.08 by {
      RoundTwoPlaces(4593750.0 / 1024.0, 448608);
    }
    assert RoundFloat64(5468274.0 / 316512.0, 2) == 17.28 by {
      RoundTwoPlaces(5468274.0 / 316512.0, 1728);
    }
    assert RoundFloat64(1223334.0 / 316498.0, 2) == 3.87 by {
      RoundTwoPlaces(1223334.0 / 316498.0, 387);
    }
    assert RoundFloat64((4593750.0 / 1024.0) * 17.28, 2) == 77519.53 by {
      RoundTwoPlaces((4593750.0 / 1024.0) * 17.28, 7751953);
    }
  }

  /** The all-flash pool with its whole virtual free capacity available
      physically: the free figure is then the virtual one, and the rounded
      total ratio 3.87 scales it. */
  lemma ScenarioADerivation()
    ensures var r := PoolRecord(Some(20.0), Some("FMC_HDP"), Some("HDP"), Some(10062024.0), Some(8838690.0),
                                Some(4910262.0), Some(316512.0), Some(8838690.0), Some(1223334.0), Some(316498.0),
                                Some(4910262.0));
            Derive(r) == Success(Some(PoolFigures(20.0, "FMC_HDP", AllFlashCompressed,
              4910262.0 / 1024.0, 316512.0 / 1024.0, 8838690.0 / 1024.0,
              Computed(1223334.0 / 316498.0), Computed(1223334.0 / 316512.0),
              (8838690.0 / 1024.0) * 3.87)))
  {
    var r := PoolRecord(Some(20.0), Some("FMC_HDP"), Some("HDP"), Some(10062024.0), Some(8838690.0),
                        Some(4910262.0), Some(316512.0), Some(8838690.0), Some(1223334.0), Some(316498.0),
                        Some(4910262.0));
    assert EffectiveFree(r) == Success(8838690.0);
    assert Classify(r) == Success(Some(AllFlashCompressed));
    assert RoundRatio(1223334.0 / 316512.0) == 3.87 by {
      RoundTwoPlaces(1223334.0 / 316512.0, 387);
    }
    assert (10062024.0 - 8838690.0) / 316512.0 == 1223334.0 / 316512.0;
    assert CompressedFigures(r, 20.0, "FMC_HDP", AllFlashCompressed, 8838690.0)
        == Success(PoolFigures(20.0, "FMC_HDP", AllFlashCompressed,
             4910262.0 / 1024.0, 316512.0 / 1024.0, 8838690.0 / 1024.0,
             Computed(1223334.0 / 316498.0), Computed(1223334.0 / 316512.0),
             (8838690.0 / 1024.0) * 3.87));
  }

  /** That pool's figures at two places. */
  lemma ScenarioA()
    ensures var r := PoolRecord(Some(20.0), Some("FMC_HDP"), Some("HDP"), Some(10062024.0), Some(8838690.0),
                                Some(4910262.0), Some(316512.0), Some(8838690.0), Some(1223334.0), Some(316498.0),
                                Some(4910262.0));
            var d := Derive(r);
            && d.Success? && d.value.Some?
            && d.value.value.variant == AllFlashCompressed
            && RoundFloat64(d.value.value.totalGB, 2) == 4795.18
            && RoundFloat64(d.value.value.usedGB, 2) == 309.09
            && RoundFloat64(d.value.value.freeGB, 2) == 8631.53
            && RoundFloat64(d.value.value.totalRatio.value, 2) == 3.87
            && RoundFloat64(d.value.value.fmcRatio.value, 2) == 3.87
            && RoundFloat64(d.value.value.effectiveFreeGB, 2) == 33404.03
  {
    ScenarioADerivation();
    assert RoundFloat64(4910262.0 / 1024.0, 2) == 4795.18 by {
      RoundTwoPlaces(4910262.0 / 1024.0, 479518);
    }
    assert RoundFloat64(316512.0 / 1024.0, 2) == 309.09 by {
      RoundTwoPlaces(316512.0 / 1024.0, 30909);
    }
    assert RoundFloat64(8838690.0 / 1024.0, 2) == 8631.53 by {
      RoundTwoPlaces(8838690.0 / 1024.0, 863153);
    }
    assert RoundFloat64(1223334.0 / 316512.0, 2) == 3.87 by {
      RoundTwoPlaces(1223334.0 / 316512.0, 387);
    }
    assert RoundFloat64(1223334.0 / 316498.0, 2) == 3.87 by {
      RoundTwoPlaces(1223334.0 / 316498.0, 387);
    }
    assert RoundFloat64((8838690.0 / 1024.0) * 3.87, 2) == 33404.03 by {
      RoundTwoPlaces((8838690.0 / 1024.0) * 3.87, 3340403);
    }
  }

  /** A tiered pool without compression fields. */
  lemma TieredScenario()
    ensures var r := PoolRecord(Some(1.0), Some("Tier"), Some("RT"), Some(10000000.0), Some(4000000.0),
                                None, None, None, None, None, None);
            Derive(r) == Success(Some(PoolFigures(1.0, "Tier", Tiered, 9765.625, 5859.375, 3906.25,
                                                  NotApplicable, NotApplicable, 3906.25)))
            && RoundFloat64(9765.625, 2) == 9765.63 && RoundFloat64(5859.375, 2) == 5859.38
  {
    var r := PoolRecord(Some(1.0), Some("Tier"), Some("RT"), Some(10000000.0), Some(4000000.0),
                        None, None, None, None, None, None);
    assert EffectiveFree(r) == Success(4000000.0);
    assert Classify(r) == Success(Some(Tiered));
    assert RoundFloat64(9765.625, 2) == 9765.63 by {
      RoundTwoPlaces(9765.625, 976563);
    }
    assert RoundFloat64(5859.375, 2) == 5859.38 by {
      RoundTwoPlaces(5859.375, 585938);
    }
  }
}

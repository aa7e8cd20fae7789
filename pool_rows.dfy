/** The text form of a pool (`PoolInfo`) and the two row builders
    `PoolInfoFormatTable` and `PoolInfoFormatCSV`
    (go_hds_restapi.go:1153-1269), which frame a pool's eight
    (label, value) rows with a start and an end marker row. */
module PoolRows {
  import opened Pools

  /** The marker rows that open and close one pool's block. */
  const ElementStringStart: string := "Lacsap-Hitachi-Start"
  const ElementStringEnd: string := "Lacsap-Hitachi-End"

  /** The text of a ratio that does not apply to the pool's variant. */
  const NotApplicableText: string := "-1.00"

  /** Fixed-point rendering of a number with the given count of decimals,
      as `strconv.FormatFloat(x, 'f', precision, 64)`. */
  type Formatter = (real, int) -> string

  /** The Go struct `PoolInfo`: every field is text. Only eight of them are
      ever written or shown; the rest stay as they were declared. */
  datatype PoolInfo = PoolInfo(
    poolId: string,
    poolType: string,
    poolName: string,
    usedPhysicalCapacityRate: string,
    totalPhysicalCapacity: string,
    usedPhysicalCapacity: string,
    availablePhysicalVolumeCapacity: string,
    availableVolumeCapacity: string,
    overallSavings: string,
    fmcCompressionRatio: string,
    physFmcPoolVolCapTotal: string,
    physFmcPoolVolCapFree: string,
    physFmcPoolVolCapUsed: string,
    effectiveGbFree: string,
    compressionRatioTotal: string)

  /** The zero value of the struct, before the first pool. */
  const EmptyPoolInfo: PoolInfo := PoolInfo("", "", "", "", "", "", "", "", "", "", "", "", "", "", "")

  /** The text of a ratio: the "-1.00" literal, or the formatted value. */
  function RatioText(ratio: Ratio, format: Formatter): (text: string)
  {
    match ratio
    case NotApplicable => NotApplicableText
    case Computed(value) => format(value, RoundPrecision)
  }

  /** What every classified branch of the pools loop does to the reused
      struct: it overwrites the eight shown fields and nothing else. */
  function Fill(element: PoolInfo, f: PoolFigures, format: Formatter): (e: PoolInfo)
    ensures e.poolType == element.poolType
    ensures e.usedPhysicalCapacityRate == element.usedPhysicalCapacityRate
    ensures e.availableVolumeCapacity == element.availableVolumeCapacity
    ensures e.overallSavings == element.overallSavings
    ensures e.physFmcPoolVolCapTotal == element.physFmcPoolVolCapTotal
    ensures e.physFmcPoolVolCapFree == element.physFmcPoolVolCapFree
    ensures e.physFmcPoolVolCapUsed == element.physFmcPoolVolCapUsed
  {
    element.(
      poolId := format(f.poolId, 0),
      poolName := f.poolName,
      totalPhysicalCapacity := format(f.totalGB, RoundPrecision),
      usedPhysicalCapacity := format(f.usedGB, RoundPrecision),
      availablePhysicalVolumeCapacity := format(f.freeGB, RoundPrecision),
      compressionRatioTotal := RatioText(f.totalRatio, format),
      fmcCompressionRatio := RatioText(f.fmcRatio, format),
      effectiveGbFree := format(f.effectiveFreeGB, RoundPrecision))
  }

  /** The eight shown fields, in row order. */
  function Values(e: PoolInfo): (values: seq<string>)
    ensures |values| == 8
  {
    [e.poolId, e.poolName, e.totalPhysicalCapacity, e.usedPhysicalCapacity,
     e.availablePhysicalVolumeCapacity, e.fmcCompressionRatio, e.compressionRatioTotal,
     e.effectiveGbFree]
  }

  /** Row labels of the console table. */
  const TableLabels: seq<string> := [
    "Pool ID", "Pool name", "Total physical capacity [GB]", "Used physical capacity [GB]",
    "Free physical capacity [GB]", "Compression ratio FMC", "Compression ratio total",
    "Effective total GB free [GB]"]

  /** Row labels of the CSV output, which carry a type suffix. */
  const CsvLabels: seq<string> := [
    "Pool ID(string)", "Pool name(string)", "Total physical capacity [GB](float64)",
    "Used physical capacity [GB](float64)", "Free physical capacity [GB](float64)",
    "Compression ratio FMC", "Compression ratio total(string)",
    "Effective total GB free [GB](float64)"]

  /** Pairs each label with the value at the same position. */
  function LabelledRows(labels: seq<string>, values: seq<string>): (rows: seq<seq<string>>)
    requires |labels| == |values|
    ensures |rows| == |labels|
    ensures forall i :: 0 <= i < |rows| ==> rows[i] == [labels[i], values[i]]
  {
    if labels == [] then []
    else [[labels[0], values[0]]] + LabelledRows(labels[1..], values[1..])
  }

  /** One pool's block: the start marker, the eight labelled rows, the end
      marker. */
  function Block(labels: seq<string>, e: PoolInfo): (rows: seq<seq<string>>)
    requires |labels| == 8
    ensures |rows| == 10
    ensures rows[0] == [ElementStringStart] && rows[9] == [ElementStringEnd]
    ensures forall i :: 1 <= i <= 8 ==> rows[i] == [labels[i - 1], Values(e)[i - 1]]
  {
    [[ElementStringStart]] + LabelledRows(labels, Values(e)) + [[ElementStringEnd]]
  }

  /** `PoolInfoFormatTable`: a fresh ten-row block with the table labels. */
  method PoolInfoFormatTable(e: PoolInfo) returns (outData: seq<seq<string>>)
    ensures outData == Block(TableLabels, e)
  {
    outData := [];
    outData := outData + [[ElementStringStart]];
    outData := outData + [["Pool ID", e.poolId]];
    outData := outData + [["Pool name", e.poolName]];
    outData := outData + [["Total physical capacity [GB]", e.totalPhysicalCapacity]];
    outData := outData + [["Used physical capacity [GB]", e.usedPhysicalCapacity]];
    outData := outData + [["Free physical capacity [GB]", e.availablePhysicalVolumeCapacity]];
    outData := outData + [["Compression ratio FMC", e.fmcCompressionRatio]];
    outData := outData + [["Compression ratio total", e.compressionRatioTotal]];
    outData := outData + [["Effective total GB free [GB]", e.effectiveGbFree]];
    outData := outData + [[ElementStringEnd]];
    assert outData == Block(TableLabels, e);
  }

  /** `PoolInfoFormatCSV`: the rows given, unchanged, followed by a
      ten-row block with the CSV labels. */
  method PoolInfoFormatCSV(outData: seq<seq<string>>, e: PoolInfo) returns (tempData: seq<seq<string>>)
    ensures tempData == outData + Block(CsvLabels, e)
  {
    tempData := outData;
    tempData := tempData + [[ElementStringStart]];
    tempData := tempData + [["Pool ID(string)", e.poolId]];
    tempData := tempData + [["Pool name(string)", e.poolName]];
    tempData := tempData + [["Total physical capacity [GB](float64)", e.totalPhysicalCapacity]];
    tempData := tempData + [["Used physical capacity [GB](float64)", e.usedPhysicalCapacity]];
    tempData := tempData + [["Free physical capacity [GB](float64)", e.availablePhysicalVolumeCapacity]];
    tempData := tempData + [["Compression ratio FMC", e.fmcCompressionRatio]];
    tempData := tempData + [["Compression ratio total(string)", e.compressionRatioTotal]];
    tempData := tempData + [["Effective total GB free [GB](float64)", e.effectiveGbFree]];
    tempData := tempData + [[ElementStringEnd]];
    assert tempData[|outData|..] == Block(CsvLabels, e);
  }

  // ---------------------------------------------------------------------
  // Properties
  // ---------------------------------------------------------------------

  /** The struct is reused from pool to pool, but every branch overwrites
      all eight shown fields, so a pool's block depends only on that pool's
      figures and never on what the previous pool left behind. */
  lemma BlockIgnoresPreviousPool(previous: PoolInfo, other: PoolInfo, f: PoolFigures, format: Formatter, labels: seq<string>)
    requires |labels| == 8
    ensures Block(labels, Fill(previous, f, format)) == Block(labels, Fill(other, f, format))
    ensures Values(Fill(previous, f, format)) == Values(Fill(EmptyPoolInfo, f, format))
  {
  }

  /** Uncompressed pools show "-1.00" for both ratios and the free figure's
      text as the effective free figure; compressed pools show formatted
      ratios. */
  lemma RatioTexts(r: PoolRecord, element: PoolInfo, format: Formatter)
    requires Derive(r).Success? && Derive(r).value.Some?
    ensures var f := Derive(r).value.value;
            var values := Values(Fill(element, f, format));
            && (!f.variant.IsCompressed() ==>
                  values[5] == NotApplicableText && values[6] == NotApplicableText && values[7] == values[4])
            && (f.variant.IsCompressed() ==>
                  values[5] == format(f.fmcRatio.value, RoundPrecision)
                  && values[6] == format(f.totalRatio.value, RoundPrecision))
  {
    var f := Derive(r).value.value;
    if f.variant.IsCompressed() {
      DeriveCompressed(r);
      CompressedFormulas(r, r.poolId.value, r.poolName.value, f.variant, EffectiveFree(r).value);
    } else {
      UncompressedFigures(r);
    }
  }

  /** No label starts with the 'L' that both marker texts start with, so
      no labelled row is taken for a marker. */
  predicate PlainLabels(labels: seq<string>)
  {
    forall i :: 0 <= i < |labels| ==> |labels[i]| >= 1 && labels[i][0] != 'L'
  }

  /** Both label sets are free of marker texts, and the two markers differ. */
  lemma LabelsArePlain()
    ensures PlainLabels(TableLabels) && PlainLabels(CsvLabels)
    ensures ElementStringStart[0] == 'L' && ElementStringEnd[0] == 'L'
    ensures ElementStringStart != ElementStringEnd
  {
    assert |ElementStringStart| == 20 && |ElementStringEnd| == 18;
  }
}

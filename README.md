# HiCHPoolInfo pool report, modelled in Dafny

HiCHPoolInfo reads the capacity pools of a Hitachi storage system through its
REST API and prints one report row set per pool. It prints either a console
table per pool or one CSV text for all pools. This project models the part of
`go_hds_restapi.go` that turns decoded pool records into that report, and
proves what the report contains. The modelled parts are:

- `Rounding`: `RoundFloat64`, which rounds half up on the fraction that `math.Modf` returns.
- `Pools`: the work `PoolsGet` does for one record.
  - It falls back from `availablePhysicalVolumeCapacity` to `availableVolumeCapacity`.
  - It classifies the pool, first match wins. A pool with FMC capacities is all-flash or mixed compressed. Otherwise the type decides: `RT`/`HDT` tiered, `HDP` thin, `HTI` thin image. Any other type is skipped.
  - It computes each variant's capacities in GiB, its two compression ratios and its effective free capacity.
  - A field the code type-asserts but the record lacks becomes a `MissingField` error, in the order the code reads the fields.
- `PoolRows`: the reused `PoolInfo` struct, and `PoolInfoFormatTable` / `PoolInfoFormatCSV`. They frame a pool's eight labelled rows between the `Lacsap-Hitachi-Start` and `Lacsap-Hitachi-End` marker rows.
- `Output`: `OutputTable`, which drops the marker rows, and `OutputCSV`.
  - `OutputCSV` prints a header from the first pool's labels, then one line per end marker: the timestamp and that pool's values.
- `PoolListing`: the loop of `PoolsGet` over the records, and `OutputStandardFormat`.
  - In console mode each pool's table is printed as soon as it is built.
  - In CSV mode the blocks accumulate and are printed once, after the loop.
- `VersionCheck`: `CheckVersion` against the minimum REST API version `1.5.0`.
  - The `os.Exit` calls become typed errors with their exit codes: a slice panic exits with 2, a part that does not convert with 203, a version that is too old with 204.
- `LunFormat`: the per-LUN text of `LunsGetReserve`.
  - The LDEV id becomes lower-case hex, zero-padded to four digits by a loop, with a colon before the last two digits.
  - The reservation text lists the flags that are set.
  - Both go into the log line.

Capacities are mathematical reals. Number-to-text conversion
(`strconv.FormatFloat`) is a parameter `format: (real, int) -> string`. The
time of a CSV run is a parameter `timestamp`.

Two behaviours of the code are kept as they are, although they look
unintended:
- a version without a dot, or with a single dot after a first part that converts, makes a Go slice expression panic (exit code 2); it is not reported as a version that does not convert (a single-dot version whose first part does not convert, such as "x.5", still exits with 203 first);
- a pool without FMC capacities whose type is not `RT`, `HDT`, `HDP` or `HTI` is skipped silently, with no row and no error.

## Model

| member | source | states |
|---|---|---|
| Rounding.Modf | go_hds_restapi.go:2470 | `math.Modf` splits a value into an integer part truncated toward zero and a fraction with the value's sign, and the two add back to the value |
| Rounding.Pow10 | go_hds_restapi.go:2468 | `math.Pow(10, places)` is positive, and at least 1 for non-negative places |
| Rounding.RoundFloat64Scaled | go_hds_restapi.go:2458-2478 | the result times 10^places is the integer picked for the scaled value: the ceiling when the Modf fraction is at least 0.5, the floor otherwise |
| Rounding.RoundScaledHalfUp | go_hds_restapi.go:2470-2474 | on a non-negative scaled value the picked integer is floor(x + 1/2) |
| Rounding.RoundIsOnGrid | go_hds_restapi.go:2458-2478 | every result is a whole multiple of 10^-places |
| Rounding.RoundHalfUp | go_hds_restapi.go:2458-2478 | for non-negative values the function equals the textbook half-up rule floor(x*10^p + 1/2)/10^p |
| Rounding.RoundErrorBound | go_hds_restapi.go:2458-2478 | for non-negative values the error is at most half a unit in the last kept place, and an exact tie rounds up |
| Rounding.RoundScaledNegative | go_hds_restapi.go:2470-2474 | on a negative scaled value the Modf fraction is never at least 0.5, so the floor is taken |
| Rounding.RoundNegativeFloors | go_hds_restapi.go:2458-2478 | a negative value is always rounded down, never to nearest |
| Rounding.RoundScaledIntegral | go_hds_restapi.go:2470-2474 | an integral scaled value is kept |
| Rounding.RoundKeepsGridValue | go_hds_restapi.go:2458-2478 | a value already on the 10^-places grid is returned unchanged |
| Rounding.RoundIdempotent | go_hds_restapi.go:2458-2478 | rounding a rounded value changes nothing |
| Rounding.RoundTwoPlacesExamples | go_hds_restapi.go:2458-2478 | at two places 3.005 gives 3.01, 3.004 gives 3.0, 9765.625 gives 9765.63, and -3.005 gives -3.01 |
| Pools.FreeFigureUsesFallback | go_hds_restapi.go:698-707 | every variant's free figure is `availablePhysicalVolumeCapacity`/1024 when present, otherwise `availableVolumeCapacity`/1024 |
| Pools.CompressedClassificationIgnoresType | go_hds_restapi.go:709-714 | with FMC capacities present, the pool type plays no part: total physical equal to available physical FMC gives all-flash, anything else gives mixed |
| Pools.TypeClassification | go_hds_restapi.go:832-965 | without FMC capacities, `RT` or `HDT` gives tiered, `HDP` thin, `HTI` thin image, and no uncompressed variant is compressed |
| Pools.UnknownTypeIsSkipped | go_hds_restapi.go:840-1026 | a pool with no FMC capacities and a type outside the four known ones yields no figures and no error |
| Pools.DeriveKeepsVariant | go_hds_restapi.go:709-1026 | the figures carry the variant the classifier chose |
| Pools.UncompressedFigures | go_hds_restapi.go:869-1009 | tiered, thin and thin-image pools have no ratio (shown as "-1.00"); their effective free figure is their free figure; used plus free is their total; the total is `totalPoolCapacity`/1024 |
| Pools.CompressedBalance | go_hds_restapi.go:736-760 | a compressed pool has both ratios computed; its used plus free equals its total exactly when the record's used physical capacity plus the free capacity equals its physical total, which the code does not ensure |
| Pools.DeriveCompressed | go_hds_restapi.go:709-832 | a compressed pool's figures are exactly those of the compressed formulas on its id, name, variant and effective free capacity |
| Pools.CompressedFormulas | go_hds_restapi.go:736-760 | a compressed pool that yields figures has a non-zero used physical capacity and used physical FMC capacity; its ratios are their two quotients; its free figure is the free capacity/1024; its effective free figure is free times the total ratio rounded to two places |
| Pools.CompressedRatios | go_hds_restapi.go:745-753 | the total ratio times used physical is total pool minus free, and the FMC ratio times used physical FMC is used FMC; the FMC ratio is never negative; the total ratio is negative exactly when more is free than the pool holds |
| Pools.CompressedEffectiveFree | go_hds_restapi.go:759-760 | effective free is the free figure times the total ratio rounded half up to two places, so for a non-negative ratio it is within half a hundredth of the free figure of the exact product |
| Pools.EffectiveFreeError | go_hds_restapi.go:759-760 | multiplying by the rounded ratio moves the effective free figure by at most half a hundredth of the free figure |
| Pools.ZeroUsedPhysicalIsReported | go_hds_restapi.go:746 | a compressed pool with zero used physical capacity is reported as a division by zero, not given a ratio |
| Pools.MissingPoolIdIsReportedFirst | go_hds_restapi.go:686 | a record without `poolId` fails on that field first, whatever else it lacks |
| Pools.SamplePool22IsCompressed | go_hds_restapi.go:654 | pool 22 of the sample response, of type `RT` but with FMC capacities, is classified mixed compressed |
| Pools.AllFlashDerivation | go_hds_restapi.go:712-760 | pool 20 of the sample response is all-flash, and its exact figures are the ones the formulas give |
| Pools.AllFlashScenario | go_hds_restapi.go:712-760 | the same pool at two places: total 4795.18 GiB, used 309.09 GiB, free 4486.08 GiB, total ratio 17.28, FMC ratio 3.87, effective free 77519.53 GiB |
| Pools.ScenarioADerivation | go_hds_restapi.go:712-760 | the all-flash pool with 8838690 MiB available physically is classified all-flash, and its free figure is that capacity with the rounded total ratio 3.87 applied |
| Pools.ScenarioA | go_hds_restapi.go:712-760 | that pool at two places: total 4795.18 GiB, used 309.09 GiB, free 8631.53 GiB, both ratios 3.87, effective free 33404.03 GiB |
| Pools.TieredScenario | go_hds_restapi.go:840-883 | a tiered pool's total, used and free figures and its "-1.00" ratios |
| PoolRows.Fill | go_hds_restapi.go:724-760 | each branch writes the eight shown fields into the reused struct and leaves the other seven as they were |
| PoolRows.Block | go_hds_restapi.go:1153-1210 | a block is ten rows: the start marker, the eight (label, value) rows in order, the end marker |
| PoolRows.PoolInfoFormatTable | go_hds_restapi.go:1153-1210 | the table rows are one block with the console labels |
| PoolRows.PoolInfoFormatCSV | go_hds_restapi.go:1213-1269 | the result is the rows given, unchanged, followed by one block with the CSV labels |
| PoolRows.BlockIgnoresPreviousPool | go_hds_restapi.go:635-760 | although the struct is reused across pools, a pool's block depends only on its own figures |
| PoolRows.RatioTexts | go_hds_restapi.go:877-883 | uncompressed pools show "-1.00" for both ratios and the free text as effective free; compressed pools show the formatted ratios |
| PoolRows.LabelsArePlain | go_hds_restapi.go:1153-1269 | no label can be taken for a marker, and the two markers differ |
| Output.TableRows | go_hds_restapi.go:1335-1349 | the table keeps every row that is not a marker, in order |
| Output.OutputTable | go_hds_restapi.go:1308-1361 | no table at all exactly when the data is empty, otherwise the rows without the markers |
| Output.EndIndex | go_hds_restapi.go:1386-1400 | the header loop stops at the first end marker, or runs to the end when there is none |
| Output.CsvHeader | go_hds_restapi.go:1389-1407 | the header is the time label followed by the labels of the plain rows before the first end marker |
| Output.CsvValues | go_hds_restapi.go:1409-1430 | each end marker prints the line built since the previous one, which then restarts from the timestamp; start markers add nothing |
| Output.OutputCSV | go_hds_restapi.go:1366-1436 | the lines printed are the header line followed by one value line per end marker; nothing for empty data |
| Output.ValueLinesPerEnd | go_hds_restapi.go:1404-1425 | one value line per end marker; rows after the last end marker are never printed |
| Output.TableShowsLabelledRows | go_hds_restapi.go:1335-1349 | the console table of one pool shows exactly its eight labelled rows |
| Output.BlockIsWellFormed | go_hds_restapi.go:1386-1425 | every block gives both loops the cells they index, so they cannot panic |
| Output.ValueStateOfBlocks | go_hds_restapi.go:1404-1425 | over the blocks of several pools the values loop prints one line per pool: the timestamp and its eight values |
| Output.HeaderOfBlocks | go_hds_restapi.go:1386-1402 | the header is the time label and the CSV labels, once, however many pools there are |
| Output.CsvOfBlocks | go_hds_restapi.go:1366-1436 | the CSV output of the pools is nothing for no pool, otherwise the header and one line per pool in order |
| Output.JoinedAfterNonEmpty | go_hds_restapi.go:1390-1395 | after a non-empty start every field is preceded by the separator |
| PoolListing.OutputStandardFormat | go_hds_restapi.go:1273-1306 | console style prints the table of the data, CSV style its CSV lines |
| PoolListing.Scan | go_hds_restapi.go:680-1031 | the loop shows at most one pool per record |
| PoolListing.ShowPool | go_hds_restapi.go:1013-1023 | a classified pool is written over the reused struct, then its table is printed (console) or its rows appended to the CSV data |
| PoolListing.ShowPools | go_hds_restapi.go:680-1031 | the loop reports the scan's failure; console mode has printed one table per classified pool, CSV mode nothing, with the rows of every classified pool accumulated |
| PoolListing.CsvTextOfData | go_hds_restapi.go:1036-1041 | the accumulated CSV data is well formed and prints as the header and one value line per pool |
| PoolListing.PoolsGet | go_hds_restapi.go:680-1041 | the run reports the scan's failure; console mode prints one table per classified pool; CSV mode prints all pools once when no record failed and nothing otherwise |
| PoolListing.OutputStep | go_hds_restapi.go:764-773 | one more classified pool adds one table, or one CSV block, whatever the reused struct held |
| PoolListing.ScanKeepsFailure | go_hds_restapi.go:680-1031 | once a record fails, later records change nothing |
| PoolListing.ScanCompletesIffAllDerive | go_hds_restapi.go:680-1031 | the run completes exactly when every record yields figures or is skipped |
| PoolListing.ScanReportsFirstFailure | go_hds_restapi.go:680-1031 | a failing run reports the error of its first failing record, and every earlier record succeeded |
| PoolListing.ScanShowsOnlyClassified | go_hds_restapi.go:680-1031 | every pool shown comes from a record that yields its figures |
| PoolListing.ScanShowsEveryClassified | go_hds_restapi.go:680-1031 | a completed run shows every record that yields figures |
| PoolListing.SkippedRecordAddsNothing | go_hds_restapi.go:840-1026 | a pool of unknown type changes neither the pools shown nor the outcome |
| VersionCheck.IndexOf | go_hds_restapi.go:2304 | `strings.Index` is -1 exactly when the dot is absent, otherwise the first dot |
| VersionCheck.LastIndexOf | go_hds_restapi.go:2310 | `strings.LastIndex` is -1 exactly when the dot is absent, otherwise the last dot |
| VersionCheck.ConvertSignedNumeral | go_hds_restapi.go:2304-2309 | a part written as an optional sign and a rest converts exactly when the rest is decimal digits whose value is in the signed 64-bit range, and then to the signed value; otherwise it fails with `NotConvertible` (exit code 203) |
| VersionCheck.ConvertExamples | go_hds_restapi.go:2304-2309 | "+5" converts to 5, "-0" to 0 and "007" to 7 |
| VersionCheck.ParseIntAccepts | go_hds_restapi.go:2304 | an accepted part is an optional sign followed by at least one decimal digit, within the signed 64-bit range |
| VersionCheck.CompareIsLexOrder | go_hds_restapi.go:2342-2362 | the three nested tests pass exactly when the actual version is lexicographically at least the minimum, and otherwise fail with `TooOld` |
| VersionCheck.ActualErrorsFirst | go_hds_restapi.go:2304-2339 | an error in the actual version is reported before one in the minimum, and the comparison happens only when both parse |
| VersionCheck.FewerThanTwoDotsPanic | go_hds_restapi.go:2304-2316 | a version without a dot, or with a single dot after a first part that converts, panics on a slice |
| VersionCheck.DecimalParses | go_hds_restapi.go:2304 | a decimal numeral within the 64-bit range parses back to its number and has no dot |
| VersionCheck.VersionTextParses | go_hds_restapi.go:2304-2321 | "major.mid.minor" written in decimal parses back to its three numbers |
| VersionCheck.MinimumParses | go_hds_restapi.go:214 | the minimum "1.5.0" parses to (1, 5, 0) |
| VersionCheck.SupportedVersions | go_hds_restapi.go:2298-2371 | a well-formed version passes exactly when it is at least 1.5.0 in the order of its three numbers |
| VersionCheck.NewerVersionPasses | go_hds_restapi.go:2298-2371 | "1.11.2" passes, although "11" sorts before "5" as text |
| VersionCheck.MinimumVersionPasses | go_hds_restapi.go:2298-2371 | the minimum itself passes |
| VersionCheck.OlderVersionFails | go_hds_restapi.go:2342-2362 | "1.4.9" is too old, exit code 204 |
| VersionCheck.NotConvertibleExample | go_hds_restapi.go:2310-2314 | "1.x.0" fails on its middle part with exit code 203 |
| VersionCheck.TwoPartVersionPanics | go_hds_restapi.go:2310 | "1.5" panics on the middle slice |
| LunFormat.Numeral | go_hds_restapi.go:578 | `strconv.FormatInt` of a non-negative number writes only digits of the base and has no leading zero |
| LunFormat.FormatHexReadsBack | go_hds_restapi.go:578 | the hex text starts with a minus sign exactly when the id is negative, and the hex digits after it read back as the id's magnitude |
| LunFormat.ZeroPadded | go_hds_restapi.go:580-585 | padding gives at least the width in characters, ends with the numeral and adds only zeros in front of it |
| LunFormat.ColonForm | go_hds_restapi.go:588 | the colon stands third from the end, and removing it gives back the padded numeral |
| LunFormat.PutZeros | go_hds_restapi.go:580-585 | putting one zero at a time in front of a numeral shorter than four characters yields it zero-padded to four |
| LunFormat.LdevString | go_hds_restapi.go:576-588 | the padding loop and the colon build exactly the LDEV text of the id |
| LunFormat.NumeralRoundTrip | go_hds_restapi.go:578 | the hex (or decimal) digits read back as the number they were written from |
| LunFormat.LdevReadsBack | go_hds_restapi.go:576-588 | the LDEV text has at least five characters and the colon third from the end; without the colon it reads back as the id; it has exactly five characters for ids below 0x10000 |
| LunFormat.SampleLdev | go_hds_restapi.go:543-588 | LDEV 13312 of the sample LUN shows as "34:00" |
| LunFormat.ShortLdev | go_hds_restapi.go:576-588 | LDEV 5 shows as "00:05" |
| LunFormat.ReserveText | go_hds_restapi.go:559-574 | reservations are marked set exactly when some flag is true, and the text lists the set flags in walk order, then ")" |
| LunFormat.SetKeysAreSetFlags | go_hds_restapi.go:563-572 | the listed names are exactly the names of the flags that are true |
| LunFormat.SetKeysEmptyIffNoneSet | go_hds_restapi.go:563-572 | some name is listed exactly when some flag is true |
| LunFormat.ListingIsJoined | go_hds_restapi.go:565-571 | the listing is "(" followed by the "name=true" entries joined by "; " |
| LunFormat.ReservationTextShape | go_hds_restapi.go:590-596 | the log line says "none" exactly when no flag is set, otherwise the parenthesised joined entries |
| LunFormat.LunReport | go_hds_restapi.go:559-596 | the log line of a LUN: its number zero-padded to four digits, its LDEV text and its reservation text |
| LunFormat.FirstLunNumber | go_hds_restapi.go:592 | LUN 1 shows as "0001" |
| LunFormat.SampleFlags | go_hds_restapi.go:545-551 | the five flags of the sample LUN, all false, show as "none" |
| LunFormat.OneSetFlag | go_hds_restapi.go:563-573 | a single set flag among unset ones shows as "(pgrKey=true)" |
| LunFormat.TwoSetFlags | go_hds_restapi.go:563-573 | two set flags show as "(pgrKey=true; mainframe=true)" in walk order |

## Left out

- Fetching the pools and LUNs over HTTP, the session handling, JSON decoding and the interactive storage selection. The model starts from decoded records, whose fields are optional values.
- `LdevCapSumGet`: it is network-bound and its call in `PoolsGet` is commented out.
- `main`, flag parsing, logging and timing. Debug, verbose and info log lines other than the LUN line are not modelled, and neither is the empty `Info.Println("")` between console tables.
- IEEE-754 floating point. Capacities and ratios are exact reals, so `RoundFloat64(1.005, 2)` is 1.01 here, while in 64-bit floats 100 * 1.005 is 100.49999999999999 and Go gives 1.0.
- `strconv.FormatFloat`: it is the `format` parameter.
- The JSON numbers `poolId`, `lun` and `ldevId`: they are taken as whole numbers. The float-to-int64 conversion of `ldevId` is not modelled, nor is `%04.f` of a negative or fractional LUN number.
- `time.Now`: it is the `timestamp` parameter of `OutputCSV`.
- Go's walk order over the `luHostReserve` map is random. The flags are a sequence in whatever order the walk visits them, and no lemma depends on that order.
- The tablewriter rendering: the console table is modelled as its list of rows, not as drawn text.
- The per-pool records decoded as Go maps: a field present with a wrong JSON type would also panic in Go. The model has only "present with the right type" and "absent".
- Pools.Derive: a zero denominator in a ratio gives +Inf or NaN in Go, and the text "+Inf" or "NaN" would be printed. The model reports `DivisionByZero` instead, after all fields are read, so a missing field still takes precedence. Because that error ends the run like a missing field does, the model then stops where Go goes on: in console mode the tables of later pools are not shown, and in CSV mode nothing is printed, while Go prints every pool, the one with +Inf or NaN included.
- VersionCheck.ParseInt: versions are compared character by character, not as UTF-8 bytes, so a non-ASCII character counts as one position in the slice indices.
- The loop over all LUNs of a host group: only the formatting of one LUN is modelled.
- `LunsGetReserve`: the decoding of each LUN element and its panics on absent fields are not modelled.

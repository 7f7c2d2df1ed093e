/** From raw meter values to charging periods (00_Base/src/mapper/SessionMapper.ts; sections 9
    and 10 of OCPI 2.2.1). Timestamps are integer milliseconds, volumes are reals. */
module Metering {
  import opened Wrappers

  /** The `value` of a sampled value: absent, null, text that is no number, or a number. */
  datatype Reading = Missing | Null | NotANumber | Number(n: real)

  datatype Measurand = EnergyActiveImportRegister | OtherMeasurand

  datatype SampledValue = SampledValue(
    measurand: Option<Measurand>,
    phase: Option<string>,
    value: Reading,
    unit: Option<string>,
    unitOfMeasure: Option<string>)

  datatype MeterValue = MeterValue(timestamp: int, sampledValue: seq<SampledValue>)

  datatype CdrDimensionType = ENERGY | PARKING_TIME | OTHER_DIMENSION

  datatype CdrDimension = CdrDimension(kind: CdrDimensionType, volume: real)

  datatype ChargingPeriod = ChargingPeriod(startDateTime: int, dimensions: seq<CdrDimension>, tariffId: string)

  // ---------- One meter value ----------

  /** A reading of the import register that belongs to no single phase. */
  predicate IsEnergyImport(sample: SampledValue) {
    sample.measurand == Some(EnergyActiveImportRegister) && sample.phase.GetOr("") == ""
  }

  function UnitOf(sample: SampledValue): Option<string> {
    if sample.unit.Some? then sample.unit else sample.unitOfMeasure
  }

  function ConvertToKwh(value: real, unit: Option<string>): real {
    if unit == Some("kWh") then value else value / 1000.0
  }

  /** JavaScript's `Number(x)`, with None for NaN; null counts as 0. */
  function ToNumber(reading: Reading): Option<real> {
    match reading
    case Number(n) => Some(n)
    case Null => Some(0.0)
    case _ => None
  }

  function FirstImport(samples: seq<SampledValue>): (sample: Option<SampledValue>)
    ensures sample.Some? ==> IsEnergyImport(sample.value)
  {
    if samples == [] then None
    else if IsEnergyImport(samples[0]) then Some(samples[0])
    else FirstImport(samples[1..])
  }

  /** The first import reading's value; null and undefined both count as none. */
  function GetEnergyImportForMeterValue(meterValue: Option<MeterValue>): Option<Reading> {
    if meterValue.None? then None
    else
      var sample := FirstImport(meterValue.value.sampledValue);
      if sample.None? || sample.value.value.Missing? || sample.value.value.Null? then None
      else Some(sample.value.value)
  }

  function PreviousNumber(previous: Option<MeterValue>): Option<real> {
    var reading := GetEnergyImportForMeterValue(previous);
    if reading.None? then None else ToNumber(reading.value)
  }

  /** What one sampled value contributes. */
  function SampleDimensions(sample: SampledValue, previous: Option<MeterValue>): seq<CdrDimension> {
    if IsEnergyImport(sample) && PreviousNumber(previous).Some? && ToNumber(sample.value).Some? then
      var delta := ToNumber(sample.value).value - PreviousNumber(previous).value;
      [CdrDimension(ENERGY, ConvertToKwh(delta, UnitOf(sample)))]
    else []
  }

  function Dimensions(samples: seq<SampledValue>, previous: Option<MeterValue>): seq<CdrDimension> {
    if samples == [] then []
    else SampleDimensions(samples[0], previous) + Dimensions(samples[1..], previous)
  }

  /** Sample `i` reads the import register, on no single phase. */
  ghost predicate ImportAt(samples: seq<SampledValue>, i: nat) {
    && i < |samples| && samples[i].measurand == Some(EnergyActiveImportRegister)
    && samples[i].phase in {None, Some("")}
  }

  ghost predicate FirstImportAt(samples: seq<SampledValue>, i: nat) {
    ImportAt(samples, i) && forall j: nat :: j < i ==> !ImportAt(samples, j)
  }

  lemma {:induction false} FirstImportIs(samples: seq<SampledValue>)
    ensures FirstImport(samples).Some? ==>
              exists i: nat :: FirstImportAt(samples, i) && FirstImport(samples) == Some(samples[i])
    ensures FirstImport(samples).None? ==> forall i: nat :: !ImportAt(samples, i)
  {
    if samples != [] {
      FirstImportIs(samples[1..]);
      assert forall i: nat :: ImportAt(samples[1..], i) <==> ImportAt(samples, i + 1);
      if IsEnergyImport(samples[0]) {
        assert FirstImportAt(samples, 0);
      } else if FirstImport(samples).Some? {
        var i: nat :| FirstImportAt(samples[1..], i) && FirstImport(samples) == Some(samples[1..][i]);
        assert forall j: nat :: j < i + 1 && ImportAt(samples, j) ==> j > 0 && ImportAt(samples[1..], j - 1);
        assert FirstImportAt(samples, i + 1);
      } else {
        forall i: nat ensures !ImportAt(samples, i) {
          assert i > 0 ==> !ImportAt(samples[1..], i - 1);
        }
      }
    }
  }

  /** The reading counts as a number; a null does, as zero. */
  predicate Counts(reading: Reading) {
    reading.Number? || reading.Null?
  }

  /** A sample contributes energy exactly when it reads the import register and counts as a number, and the first such
      sample of the previous meter value is a number. It is their difference, a thousandth of it unless the sample's
      own unit, or else its unit of measure, is kWh. */
  lemma SampleContributes(samples: seq<SampledValue>, k: nat, previous: MeterValue)
    requires k < |samples|
    ensures
      var d, earlier := SampleDimensions(samples[k], Some(previous)), previous.sampledValue;
      && (d != []
          <==> && ImportAt(samples, k) && Counts(samples[k].value)
               && exists i: nat :: FirstImportAt(earlier, i) && earlier[i].value.Number?)
      && forall i: nat :: d != [] && FirstImportAt(earlier, i) ==>
           && earlier[i].value.Number?
           && var delta := (if samples[k].value.Number? then samples[k].value.n else 0.0) - earlier[i].value.n;
           var unit := if samples[k].unit.Some? then samples[k].unit else samples[k].unitOfMeasure;
           d == [CdrDimension(ENERGY, if unit == Some("kWh") then delta else delta / 1000.0)]
    ensures SampleDimensions(samples[k], None) == []
  {
    FirstImportIs(previous.sampledValue);
    assert IsEnergyImport(samples[k]) <==> ImportAt(samples, k);
    hide FirstImport;
  }

  lemma DimensionsUnfold(samples: seq<SampledValue>, i: nat, previous: Option<MeterValue>, before: seq<CdrDimension>)
    requires i < |samples|
    ensures before + Dimensions(samples[i..], previous)
         == (before + SampleDimensions(samples[i], previous)) + Dimensions(samples[i + 1..], previous)
  {
    assert samples[i..][1..] == samples[i + 1..];
  }

  method GetCdrDimensions(meterValue: MeterValue, previous: Option<MeterValue>) returns (dimensions: seq<CdrDimension>)
    ensures dimensions == Dimensions(meterValue.sampledValue, previous)
  {
    dimensions := [];
    var samples := meterValue.sampledValue;
    for i := 0 to |samples|
      invariant dimensions + Dimensions(samples[i..], previous) == Dimensions(samples, previous)
    {
      var sample := samples[i];
      var pushed := [];
      if IsEnergyImport(sample) {
        var previousImport := GetEnergyImportForMeterValue(previous);
        if previousImport.Some? && ToNumber(previousImport.value).Some? && ToNumber(sample.value).Some? {
          var energyDelta := ToNumber(sample.value).value - ToNumber(previousImport.value).value;
          pushed := [CdrDimension(ENERGY, ConvertToKwh(energyDelta, UnitOf(sample)))];
        }
      }
      assert pushed == SampleDimensions(sample, previous);
      DimensionsUnfold(samples, i, previous, dimensions);
      dimensions := dimensions + pushed;
    }
    assert samples[|samples|..] == [] && dimensions + [] == dimensions;
  }

  // ---------- Sorting ----------

  ghost predicate SortedByTime(s: seq<MeterValue>) {
    forall i, j :: 0 <= i < j < |s| ==> s[i].timestamp <= s[j].timestamp
  }

  /** Put `x` behind everything that is not later. */
  function Insert(s: seq<MeterValue>, x: MeterValue): seq<MeterValue> {
    if s == [] || s[|s| - 1].timestamp <= x.timestamp then s + [x]
    else Insert(s[..|s| - 1], x) + [s[|s| - 1]]
  }

  /** The stable sort by timestamp. */
  function SortByTime(s: seq<MeterValue>): seq<MeterValue> {
    if s == [] then [] else Insert(SortByTime(s[..|s| - 1]), s[|s| - 1])
  }

  /** The meter values of one instant, in order of arrival. */
  function AtTime(s: seq<MeterValue>, t: int): seq<MeterValue> {
    if s == [] then []
    else AtTime(s[..|s| - 1], t) + (if s[|s| - 1].timestamp == t then [s[|s| - 1]] else [])
  }

  lemma AtTimeAppend(s: seq<MeterValue>, x: MeterValue, t: int)
    ensures AtTime(s + [x], t) == AtTime(s, t) + (if x.timestamp == t then [x] else [])
  {
    assert (s + [x])[..|s|] == s;
  }

  lemma AtTimeMembers(s: seq<MeterValue>, t: int)
    ensures forall x :: x in AtTime(s, t) <==> x in s && x.timestamp == t
  {
    if s != [] {
      var n := |s| - 1;
      AtTimeMembers(s[..n], t);
      assert s == s[..n] + [s[n]];
    }
  }

  lemma {:induction false} InsertPermutes(s: seq<MeterValue>, x: MeterValue)
    ensures multiset(Insert(s, x)) == multiset(s) + multiset{x}
    ensures forall y :: y in Insert(s, x) ==> y == x || y in s
  {
    if s != [] && x.timestamp < s[|s| - 1].timestamp {
      var n := |s| - 1;
      InsertPermutes(s[..n], x);
      assert s == s[..n] + [s[n]];
      assert Insert(s, x) == Insert(s[..n], x) + [s[n]];
      hide Insert;
    }
  }

  lemma {:induction false} InsertSorted(s: seq<MeterValue>, x: MeterValue)
    requires SortedByTime(s)
    ensures SortedByTime(Insert(s, x))
  {
    if s != [] && x.timestamp < s[|s| - 1].timestamp {
      var n := |s| - 1;
      InsertSorted(s[..n], x);
      InsertPermutes(s[..n], x);
      forall y | y in Insert(s[..n], x) ensures y.timestamp <= s[n].timestamp {
        if y != x {
          var i :| 0 <= i < n && s[i] == y;
        }
      }
    }
  }

  lemma InsertAtTime(s: seq<MeterValue>, x: MeterValue, t: int)
    ensures AtTime(Insert(s, x), t) == AtTime(s, t) + (if x.timestamp == t then [x] else [])
  {
    if s == [] || s[|s| - 1].timestamp <= x.timestamp {
      AtTimeAppend(s, x, t);
    } else {
      var n := |s| - 1;
      InsertAtTime(s[..n], x, t);
      AtTimeAppend(Insert(s[..n], x), s[n], t);
    }
  }

  /** The two sequences agree on every instant. */
  ghost predicate SameInstants(s: seq<MeterValue>, s': seq<MeterValue>) {
    forall t :: AtTime(s, t) == AtTime(s', t)
  }

  /** The sort is a stable, sorted permutation. */
  lemma {:induction false} SortByTimeCorrect(s: seq<MeterValue>)
    ensures SortedByTime(SortByTime(s))
    ensures multiset(SortByTime(s)) == multiset(s)
    ensures |SortByTime(s)| == |s|
    ensures SameInstants(SortByTime(s), s)
  {
    if s != [] {
      var n := |s| - 1;
      SortByTimeCorrect(s[..n]);
      InsertSorted(SortByTime(s[..n]), s[n]);
      InsertPermutes(SortByTime(s[..n]), s[n]);
      assert s == s[..n] + [s[n]];
      forall t ensures AtTime(SortByTime(s), t) == AtTime(s, t) {
        InsertAtTime(SortByTime(s[..n]), s[n], t);
        assert AtTime(SortByTime(s[..n]), t) == AtTime(s[..n], t);
      }
    }
    assert |multiset(SortByTime(s))| == |SortByTime(s)|;
    assert |multiset(s)| == |s|;
  }

  lemma SameInstantsMembers(s: seq<MeterValue>, s': seq<MeterValue>, x: MeterValue)
    requires SameInstants(s, s') && x in s
    ensures x in s'
  {
    AtTimeMembers(s, x.timestamp);
    AtTimeMembers(s', x.timestamp);
    assert AtTime(s, x.timestamp) == AtTime(s', x.timestamp);
  }

  lemma LastInstant(s: seq<MeterValue>, s': seq<MeterValue>)
    requires s != [] && s' != [] && SortedByTime(s) && SortedByTime(s') && SameInstants(s, s')
    ensures s[|s| - 1] == s'[|s'| - 1]
  {
    var x, x' := s[|s| - 1], s'[|s'| - 1];
    SameInstantsMembers(s, s', x);
    SameInstantsMembers(s', s, x');
    assert x.timestamp == x'.timestamp;
    var t := x.timestamp;
    assert AtTime(s, t)[|AtTime(s, t)| - 1] == x;
    assert AtTime(s', t)[|AtTime(s', t)| - 1] == x';
  }

  lemma DropLastInstants(s: seq<MeterValue>, s': seq<MeterValue>, u: int)
    requires s != [] && s' != [] && s[|s| - 1] == s'[|s'| - 1] && AtTime(s, u) == AtTime(s', u)
    ensures AtTime(s[..|s| - 1], u) == AtTime(s'[..|s'| - 1], u)
  {
    var x := s[|s| - 1];
    SameTail(AtTime(s[..|s| - 1], u), AtTime(s'[..|s'| - 1], u), if x.timestamp == u then [x] else []);
  }

  lemma SameTail<T>(a: seq<T>, a': seq<T>, tail: seq<T>)
    requires a + tail == a' + tail
    ensures a == a'
  {
    assert |a + tail| == |a| + |tail| && |a' + tail| == |a'| + |tail|;
    assert a == (a + tail)[..|a|] && a' == (a' + tail)[..|a|];
  }

  /** A sorted sequence is determined by what happened at each instant. */
  lemma {:induction false} SortedUnique(s: seq<MeterValue>, s': seq<MeterValue>)
    requires SortedByTime(s) && SortedByTime(s') && SameInstants(s, s')
    ensures s == s'
    decreases |s|
  {
    if s == [] {
      if s' != [] {
        SameInstantsMembers(s', s, s'[0]);
      }
    } else if s' == [] {
      SameInstantsMembers(s, s', s[0]);
    } else {
      var n, n' := |s| - 1, |s'| - 1;
      LastInstant(s, s');
      forall u ensures AtTime(s[..n], u) == AtTime(s'[..n'], u) {
        DropLastInstants(s, s', u);
      }
      SortedUnique(s[..n], s'[..n']);
      assert s == s[..n] + [s[n]] && s' == s'[..n'] + [s'[n']];
    }
  }

  /** Two arrival orders sort alike exactly when they agree on each instant. */
  lemma SortAgreesIff(s: seq<MeterValue>, s': seq<MeterValue>)
    ensures SortByTime(s) == SortByTime(s') <==> SameInstants(s, s')
  {
    SortByTimeCorrect(s);
    SortByTimeCorrect(s');
    var r, r' := SortByTime(s), SortByTime(s');
    if SameInstants(s, s') {
      forall t ensures AtTime(r, t) == AtTime(r', t) {
        assert AtTime(r, t) == AtTime(s, t) && AtTime(r', t) == AtTime(s', t);
      }
      SortedUnique(r, r');
    } else {
      var t :| AtTime(s, t) != AtTime(s', t);
      assert AtTime(r, t) == AtTime(s, t) && AtTime(r', t) == AtTime(s', t);
    }
  }

  ghost predicate DistinctTimes(s: seq<MeterValue>) {
    forall i, j :: 0 <= i < j < |s| ==> s[i].timestamp != s[j].timestamp
  }

  lemma NoneAtTime(s: seq<MeterValue>, t: int)
    requires forall x :: x in s ==> x.timestamp != t
    ensures AtTime(s, t) == []
  {
  }

  lemma AtTimeDistinct(s: seq<MeterValue>, x: MeterValue)
    requires DistinctTimes(s) && x in s
    ensures AtTime(s, x.timestamp) == [x]
  {
    var n := |s| - 1;
    if s[n] == x {
      NoneAtTime(s[..n], x.timestamp);
    } else {
      assert s == s[..n] + [s[n]];
      AtTimeDistinct(s[..n], x);
      var i :| 0 <= i < n && s[i] == x;
      assert s[i].timestamp != s[n].timestamp;
    }
  }

  lemma SameMembersSameInstants(s: seq<MeterValue>, s': seq<MeterValue>)
    requires DistinctTimes(s) && DistinctTimes(s')
    requires forall x :: x in s <==> x in s'
    ensures SameInstants(s, s')
  {
    forall t ensures AtTime(s, t) == AtTime(s', t) {
      AtTimeMembers(s, t);
      AtTimeMembers(s', t);
      var a, a' := AtTime(s, t), AtTime(s', t);
      if a != [] {
        assert a[0] in a;
        AtTimeDistinct(s, a[0]);
        AtTimeDistinct(s', a[0]);
      } else {
        forall x | x in s' ensures x.timestamp != t {
          assert x !in a;
        }
        NoneAtTime(s', t);
      }
    }
  }

  /** With distinct timestamps the order of arrival does not matter. */
  lemma ArrivalOrderIrrelevant(s: seq<MeterValue>, s': seq<MeterValue>, tariffId: string)
    requires multiset(s) == multiset(s') && DistinctTimes(s) && DistinctTimes(s')
    ensures Periods(s, tariffId) == Periods(s', tariffId)
  {
    forall x ensures x in s <==> x in s' {
      assert x in s <==> x in multiset(s);
      assert x in s' <==> x in multiset(s');
    }
    SameMembersSameInstants(s, s');
    SortAgreesIff(s, s');
  }

  // ---------- Charging periods ----------

  function PeriodsAfter(previous: Option<MeterValue>, s: seq<MeterValue>,
                        tariffId: string): (periods: seq<ChargingPeriod>)
    ensures |periods| == |s|
    ensures forall i :: 0 <= i < |s| ==> periods[i].startDateTime == s[i].timestamp
    decreases |s|
  {
    if s == [] then []
    else
      [ChargingPeriod(s[0].timestamp, Dimensions(s[0].sampledValue, previous), tariffId)]
      + PeriodsAfter(Some(s[0]), s[1..], tariffId)
  }

  /** The charging periods of meter values in any order of arrival. */
  function Periods(meterValues: seq<MeterValue>, tariffId: string): seq<ChargingPeriod> {
    PeriodsAfter(None, SortByTime(meterValues), tariffId)
  }

  lemma PeriodsUnfold(previous: Option<MeterValue>, s: seq<MeterValue>, i: nat, tariffId: string,
                      before: seq<ChargingPeriod>)
    requires i < |s|
    ensures before + PeriodsAfter(previous, s[i..], tariffId)
         == (before + [ChargingPeriod(s[i].timestamp, Dimensions(s[i].sampledValue, previous), tariffId)])
            + PeriodsAfter(Some(s[i]), s[i + 1..], tariffId)
  {
    assert s[i..][1..] == s[i + 1..];
  }

  /** The in-place sort of the caller's array. */
  method SortInPlace(meterValues: array<MeterValue>)
    modifies meterValues
    ensures meterValues[..] == SortByTime(old(meterValues[..]))
  {
    var sorted := SortByTime(meterValues[..]);
    SortByTimeCorrect(meterValues[..]);
    forall i | 0 <= i < meterValues.Length {
      meterValues[i] := sorted[i];
    }
  }

  /** Sorts the caller's array in place, then maps it; without an array there are no periods. */
  method GetChargingPeriods(meterValues: array?<MeterValue>, tariffId: string) returns (periods: seq<ChargingPeriod>)
    modifies if meterValues == null then {} else {meterValues}
    ensures meterValues == null ==> periods == []
    ensures meterValues != null ==>
            meterValues[..] == SortByTime(old(meterValues[..]))
            && periods == Periods(old(meterValues[..]), tariffId)
  {
    hide Dimensions, SortByTime;
    periods := [];
    if meterValues == null {
      return;
    }
    SortInPlace(meterValues);
    ghost var sorted := meterValues[..];
    var previous: Option<MeterValue> := None;
    for i := 0 to meterValues.Length
      invariant meterValues[..] == sorted
      invariant periods + PeriodsAfter(previous, sorted[i..], tariffId) == PeriodsAfter(None, sorted, tariffId)
    {
      var meterValue := meterValues[i];
      PeriodsUnfold(previous, sorted, i, tariffId, periods);
      var dimensions := GetCdrDimensions(meterValue, previous);
      periods := periods + [ChargingPeriod(meterValue.timestamp, dimensions, tariffId)];
      previous := Some(meterValue);
    }
    assert sorted[meterValues.Length..] == [];
  }

  /** One period for each meter value, in time order; and sorting what is already sorted, as a
      second call does, gives the same periods. */
  lemma PeriodsInTimeOrder(meterValues: seq<MeterValue>, tariffId: string)
    ensures
      var periods := Periods(meterValues, tariffId);
      && |periods| == |meterValues|
      && (forall i, j :: 0 <= i < j < |periods| ==> periods[i].startDateTime <= periods[j].startDateTime)
      && Periods(SortByTime(meterValues), tariffId) == periods
      && multiset(SortByTime(meterValues)) == multiset(meterValues)
  {
    SortByTimeCorrect(meterValues);
    SortByTimeCorrect(SortByTime(meterValues));
    SortAgreesIff(SortByTime(meterValues), meterValues);
  }

  // ---------- Conservation of energy ----------

  function EnergyOf(dimensions: seq<CdrDimension>): real {
    if dimensions == [] then 0.0
    else (if dimensions[0].kind == ENERGY then dimensions[0].volume else 0.0) + EnergyOf(dimensions[1..])
  }

  function TotalEnergy(periods: seq<ChargingPeriod>): real {
    if periods == [] then 0.0 else EnergyOf(periods[0].dimensions) + TotalEnergy(periods[1..])
  }

  function ImportCount(samples: seq<SampledValue>): nat {
    if samples == [] then 0 else (if IsEnergyImport(samples[0]) then 1 else 0) + ImportCount(samples[1..])
  }

  /** At most one import reading, not null, in kWh or not as `inKwh` says. */
  ghost predicate Regular(meterValue: MeterValue, inKwh: bool) {
    && ImportCount(meterValue.sampledValue) <= 1
    && var sample := FirstImport(meterValue.sampledValue);
       sample.Some? ==> !sample.value.value.Null? && (UnitOf(sample.value) == Some("kWh") <==> inKwh)
  }

  /** The meter value's register reading, if it has a numeric one. */
  function RegisterReading(meterValue: MeterValue): Option<real> {
    PreviousNumber(Some(meterValue))
  }

  function RegisterReadings(s: seq<MeterValue>): (readings: seq<Option<real>>)
    ensures |readings| == |s|
  {
    seq(|s|, i requires 0 <= i < |s| => RegisterReading(s[i]))
  }

  /** How many readings follow without a gap from the start. */
  function RunLength(readings: seq<Option<real>>): (n: nat)
    ensures n <= |readings|
    ensures forall i :: 0 <= i < n ==> readings[i].Some?
    ensures n < |readings| ==> readings[n].None?
  {
    if readings == [] || readings[0].None? then 0 else 1 + RunLength(readings[1..])
  }

  /** The sum, over the maximal runs without a gap, of last minus first. */
  function RunsTotal(readings: seq<Option<real>>): real
    decreases |readings|
  {
    if readings == [] then 0.0
    else if readings[0].None? then RunsTotal(readings[1..])
    else
      var n := RunLength(readings);
      (readings[n - 1].value - readings[0].value) + RunsTotal(readings[n..])
  }

  /** The sum of the differences between neighbours that both have a reading. */
  function DeltaSum(readings: seq<Option<real>>): real {
    if |readings| < 2 then 0.0
    else
      (if readings[0].Some? && readings[1].Some? then readings[1].value - readings[0].value else 0.0)
      + DeltaSum(readings[1..])
  }

  lemma {:induction false} DeltaSumTelescopes(readings: seq<Option<real>>)
    requires readings != [] && readings[0].Some?
    ensures
      var n := RunLength(readings);
      DeltaSum(readings) == readings[n - 1].value - readings[0].value + DeltaSum(readings[n..])
    decreases |readings|
  {
    var n := RunLength(readings);
    var rest := readings[1..];
    if n == 1 {
      if |readings| > 1 {
        assert DeltaSum(readings) == DeltaSum(rest);
      }
    } else {
      DeltaSumTelescopes(rest);
      assert rest[n - 1..] == readings[n..];
    }
  }

  lemma {:induction false} DeltaSumIsRunsTotal(readings: seq<Option<real>>)
    ensures DeltaSum(readings) == RunsTotal(readings)
    decreases |readings|
  {
    if readings == [] {
    } else if readings[0].None? {
      DeltaSumIsRunsTotal(readings[1..]);
    } else {
      DeltaSumTelescopes(readings);
      DeltaSumIsRunsTotal(readings[RunLength(readings)..]);
    }
  }

  lemma {:induction false} DimensionsOfRegular(samples: seq<SampledValue>, previous: Option<MeterValue>)
    requires ImportCount(samples) <= 1
    ensures Dimensions(samples, previous)
         == var sample := FirstImport(samples); if sample.Some? then SampleDimensions(sample.value, previous) else []
  {
    if samples != [] {
      if IsEnergyImport(samples[0]) {
        NoImports(samples[1..], previous);
      } else {
        DimensionsOfRegular(samples[1..], previous);
      }
    }
  }

  lemma NoImports(samples: seq<SampledValue>, previous: Option<MeterValue>)
    requires ImportCount(samples) == 0
    ensures Dimensions(samples, previous) == []
  {
  }

  function InKwh(value: real, inKwh: bool): real {
    if inKwh then value else value / 1000.0
  }

  lemma EnergyOfRegular(meterValue: MeterValue, previous: MeterValue, inKwh: bool)
    requires Regular(meterValue, inKwh) && Regular(previous, inKwh)
    ensures EnergyOf(Dimensions(meterValue.sampledValue, Some(previous)))
         == if RegisterReading(previous).Some? && RegisterReading(meterValue).Some?
            then InKwh(RegisterReading(meterValue).value - RegisterReading(previous).value, inKwh)
            else 0.0
  {
    DimensionsOfRegular(meterValue.sampledValue, Some(previous));
    EnergyOfFew(Dimensions(meterValue.sampledValue, Some(previous)));
  }

  lemma EnergyOfFew(dimensions: seq<CdrDimension>)
    requires |dimensions| <= 1
    ensures EnergyOf(dimensions)
            == if dimensions != [] && dimensions[0].kind == ENERGY then dimensions[0].volume else 0.0
  {
  }

  lemma {:induction false} EnergyAfter(previous: MeterValue, s: seq<MeterValue>, tariffId: string, inKwh: bool)
    requires Regular(previous, inKwh) && forall mv :: mv in s ==> Regular(mv, inKwh)
    ensures TotalEnergy(PeriodsAfter(Some(previous), s, tariffId))
            == InKwh(DeltaSum(RegisterReadings([previous] + s)), inKwh)
    decreases |s|
  {
    hide Dimensions, EnergyOf, Regular, RegisterReading;
    var readings := RegisterReadings([previous] + s);
    if s != [] {
      EnergyAfter(s[0], s[1..], tariffId, inKwh);
      assert [s[0]] + s[1..] == s;
      assert readings[1..] == RegisterReadings(s);
      EnergyOfRegular(s[0], previous, inKwh);
    }
  }

  /** Conservation with gaps: the energy of all periods is, over the maximal runs of meter
      values with a numeric reading, the sum of last minus first, in kWh. */
  lemma EnergyConserved(meterValues: seq<MeterValue>, tariffId: string, inKwh: bool)
    requires forall mv :: mv in meterValues ==> Regular(mv, inKwh)
    ensures TotalEnergy(Periods(meterValues, tariffId))
            == InKwh(RunsTotal(RegisterReadings(SortByTime(meterValues))), inKwh)
  {
    SortByTimeCorrect(meterValues);
    var sorted := SortByTime(meterValues);
    var readings := RegisterReadings(sorted);
    forall mv | mv in sorted ensures Regular(mv, inKwh) {
      assert mv in multiset(sorted);
    }
    DeltaSumIsRunsTotal(readings);
    if sorted != [] {
      EnergyAfter(sorted[0], sorted[1..], tariffId, inKwh);
      assert [sorted[0]] + sorted[1..] == sorted;
      FirstPeriodEmpty(sorted[0].sampledValue);
    }
  }

  lemma FirstPeriodEmpty(samples: seq<SampledValue>)
    ensures Dimensions(samples, None) == []
  {
  }

  /** Without gaps this is the last reading minus the first. */
  lemma EnergyConservedWithoutGaps(meterValues: seq<MeterValue>, tariffId: string, inKwh: bool)
    requires meterValues != []
    requires forall mv :: mv in meterValues ==> Regular(mv, inKwh) && RegisterReading(mv).Some?
    ensures |SortByTime(meterValues)| == |meterValues|
    ensures
      var sorted := SortByTime(meterValues);
      var first, last := RegisterReading(sorted[0]), RegisterReading(sorted[|sorted| - 1]);
      first.Some? && last.Some? && TotalEnergy(Periods(meterValues, tariffId)) == InKwh(last.value - first.value, inKwh)
  {
    hide Periods, TotalEnergy, Regular, SortByTime, RunsTotal, SameInstants, SortedByTime;
    SortByTimeCorrect(meterValues);
    EnergyConserved(meterValues, tariffId, inKwh);
    var sorted := SortByTime(meterValues);
    forall mv | mv in sorted ensures RegisterReading(mv).Some? {
      assert mv in multiset(sorted);
    }
    RunsTotalWithoutGaps(RegisterReadings(sorted));
  }

  lemma RunsTotalWithoutGaps(readings: seq<Option<real>>)
    requires readings != [] && forall i :: 0 <= i < |readings| ==> readings[i].Some?
    ensures RunsTotal(readings) == readings[|readings| - 1].value - readings[0].value
  {
    assert RunLength(readings) == |readings|;
    assert readings[|readings|..] == [];
  }

  function Import(value: Reading, unit: string): SampledValue {
    SampledValue(Some(EnergyActiveImportRegister), None, value, Some(unit), None)
  }

  // ---------- Exactly when energy is conserved ----------

  /** A meter value's reading in its own unit. */
  function KwhReading(meterValue: MeterValue): Option<real> {
    var reading := RegisterReading(meterValue);
    if reading.Some? then Some(ConvertToKwh(reading.value, UnitOf(FirstImport(meterValue.sampledValue).value)))
      else None
  }

  function KwhReadings(s: seq<MeterValue>): (readings: seq<Option<real>>)
    ensures |readings| == |s|
  {
    seq(|s|, i requires 0 <= i < |s| => KwhReading(s[i]))
  }

  /** What import readings count for when measured from `first`, each in its own unit. */
  function CountedFrom(samples: seq<SampledValue>, first: real): real {
    if samples == [] then 0.0
    else
      (if IsEnergyImport(samples[0]) && ToNumber(samples[0].value).Some?
       then ConvertToKwh(ToNumber(samples[0].value).value - first, UnitOf(samples[0])) else 0.0)
      + CountedFrom(samples[1..], first)
  }

  function BehindFirstImport(samples: seq<SampledValue>): seq<SampledValue> {
    if samples == [] then []
    else if IsEnergyImport(samples[0]) then samples[1..]
    else BehindFirstImport(samples[1..])
  }

  /** The earlier reading, converted once with its own unit and once with the later reading's; a
      later null makes the earlier reading count in full. */
  function UnitSlip(previous: MeterValue, sample: SampledValue): real {
    var own := if sample.value.Number? then KwhReading(previous).GetOr(0.0) else 0.0;
    if ToNumber(sample.value).Some? then own - ConvertToKwh(RegisterReading(previous).GetOr(0.0), UnitOf(sample))
      else 0.0
  }

  /** How far the energy between two neighbours is off: the slip of the reading, and readings behind
      the first one, which count as well. */
  function Slip(previous: MeterValue, meterValue: MeterValue): real {
    var sample := FirstImport(meterValue.sampledValue);
    if RegisterReading(previous).None? || sample.None? then 0.0
    else
      UnitSlip(previous, sample.value)
      + CountedFrom(BehindFirstImport(meterValue.sampledValue), RegisterReading(previous).value)
  }

  function SlipSum(s: seq<MeterValue>): real {
    if |s| < 2 then 0.0 else Slip(s[0], s[1]) + SlipSum(s[1..])
  }

  /** What can be read off two neighbours: nothing is counted, or the earlier reading is zero, or both
      are numbers with units that agree on being kWh. */
  predicate SlipFree(previous: MeterValue, meterValue: MeterValue) {
    var first, second := FirstImport(previous.sampledValue), FirstImport(meterValue.sampledValue);
    || RegisterReading(previous).None? || second.None? || ToNumber(second.value.value).None?
    || RegisterReading(previous) == Some(0.0)
    || (second.value.value.Number? && (UnitOf(first.value) == Some("kWh") <==> UnitOf(second.value) == Some("kWh")))
  }

  lemma {:induction false} EnergyIsCounted(samples: seq<SampledValue>, previous: MeterValue)
    ensures EnergyOf(Dimensions(samples, Some(previous)))
         == if RegisterReading(previous).Some? then CountedFrom(samples, RegisterReading(previous).value) else 0.0
  {
    if samples != [] {
      EnergyIsCounted(samples[1..], previous);
      var head, rest := SampleDimensions(samples[0], Some(previous)), Dimensions(samples[1..], Some(previous));
      if head != [] {
        assert (head + rest)[1..] == rest;
      } else {
        assert head + rest == rest;
      }
    }
  }

  lemma {:induction false} CountedByFirst(samples: seq<SampledValue>, first: real)
    ensures CountedFrom(samples, first)
         == var sample := FirstImport(samples);
            if sample.None? then 0.0
            else
              (if ToNumber(sample.value.value).Some? then ConvertToKwh(ToNumber(sample.value.value).value - first,
                UnitOf(sample.value)) else 0.0)
              + CountedFrom(BehindFirstImport(samples), first)
  {
    if samples != [] && !IsEnergyImport(samples[0]) {
      CountedByFirst(samples[1..], first);
    }
  }

  /** Two neighbours' energy is the difference of their readings in kWh, plus the slip. */
  lemma EnergyWithSlip(previous: MeterValue, meterValue: MeterValue)
    ensures EnergyOf(Dimensions(meterValue.sampledValue, Some(previous)))
         == DeltaSum([KwhReading(previous), KwhReading(meterValue)]) + Slip(previous, meterValue)
  {
    hide Dimensions, EnergyOf, CountedFrom, BehindFirstImport;
    EnergyIsCounted(meterValue.sampledValue, previous);
    if RegisterReading(previous).Some? {
      CountedByFirst(meterValue.sampledValue, RegisterReading(previous).value);
    }
    assert [KwhReading(previous), KwhReading(meterValue)][1..] == [KwhReading(meterValue)];
  }

  lemma {:induction false} NothingBehind(samples: seq<SampledValue>, first: real)
    requires ImportCount(samples) <= 1
    ensures CountedFrom(BehindFirstImport(samples), first) == 0.0
  {
    if samples == [] {
    } else if IsEnergyImport(samples[0]) {
      NothingCounted(samples[1..], first);
    } else {
      NothingBehind(samples[1..], first);
    }
  }

  lemma NothingCounted(samples: seq<SampledValue>, first: real)
    requires ImportCount(samples) == 0
    ensures CountedFrom(samples, first) == 0.0
  {
  }

  /** With one import reading at most, two neighbours' energy is the difference of their readings in
      kWh exactly when they are free of a slip. */
  lemma PairConservedIff(previous: MeterValue, meterValue: MeterValue)
    requires ImportCount(meterValue.sampledValue) <= 1
    ensures EnergyOf(Dimensions(meterValue.sampledValue, Some(previous)))
            == DeltaSum([KwhReading(previous), KwhReading(meterValue)])
       <==> SlipFree(previous, meterValue)
    ensures Slip(previous, meterValue) == 0.0 <==> SlipFree(previous, meterValue)
  {
    EnergyWithSlip(previous, meterValue);
    if RegisterReading(previous).Some? {
      NothingBehind(meterValue.sampledValue, RegisterReading(previous).value);
    }
  }

  lemma {:induction false} EnergyAfterWithSlips(previous: MeterValue, s: seq<MeterValue>, tariffId: string)
    ensures TotalEnergy(PeriodsAfter(Some(previous), s, tariffId))
            == DeltaSum(KwhReadings([previous] + s)) + SlipSum([previous] + s)
    decreases |s|
  {
    hide Dimensions, Slip, KwhReading, EnergyOf, KwhReadings, DeltaSum;
    var all := [previous] + s;
    if s == [] {
      ReadingsStep(previous, []);
    } else {
      EnergyAfterWithSlips(s[0], s[1..], tariffId);
      assert [s[0]] + s[1..] == s && all[1..] == s && all[1] == s[0];
      EnergyWithSlip(previous, s[0]);
      ReadingsStep(previous, s);
      var periods := PeriodsAfter(Some(previous), s, tariffId);
      assert periods[1..] == PeriodsAfter(Some(s[0]), s[1..], tariffId);
    }
  }

  /** The differences in kWh from a meter value on: the one to its neighbour, then the rest. */
  lemma ReadingsStep(previous: MeterValue, s: seq<MeterValue>)
    ensures DeltaSum(KwhReadings([previous] + s))
         == if s == [] then 0.0 else DeltaSum([KwhReading(previous), KwhReading(s[0])]) + DeltaSum(KwhReadings(s))
  {
    hide KwhReading;
    var readings := KwhReadings([previous] + s);
    if s != [] {
      assert readings[0] == KwhReading(previous) && readings[1] == KwhReading(s[0]) && readings[1..] == KwhReadings(s);
      assert [readings[0], readings[1]][1..] == [readings[1]];
    }
  }

  /** For all meter values: the energy of all periods is, over the maximal runs of meter values with a
      numeric reading, the sum of last minus first in kWh, plus the slips between neighbours. So it is
      conserved exactly when the slips cancel, and certainly when no neighbours have one. */
  lemma EnergyConservedIff(meterValues: seq<MeterValue>, tariffId: string)
    ensures
      var sorted := SortByTime(meterValues);
      var energy, runs := TotalEnergy(Periods(meterValues, tariffId)), RunsTotal(KwhReadings(sorted));
      && energy == runs + SlipSum(sorted)
      && (energy == runs <==> SlipSum(sorted) == 0.0)
      && ((forall i :: 0 < i < |sorted| ==>
            ImportCount(sorted[i].sampledValue) <= 1 && SlipFree(sorted[i - 1], sorted[i]))
          ==> energy == runs)
  {
    var sorted := SortByTime(meterValues);
    DeltaSumIsRunsTotal(KwhReadings(sorted));
    if sorted != [] {
      EnergyAfterWithSlips(sorted[0], sorted[1..], tariffId);
      assert [sorted[0]] + sorted[1..] == sorted;
      FirstPeriodEmpty(sorted[0].sampledValue);
    }
    if forall i :: 0 < i < |sorted| ==> ImportCount(sorted[i].sampledValue) <= 1 && SlipFree(sorted[i - 1], sorted[i]) {
      NoSlips(sorted);
    }
  }

  lemma {:induction false} NoSlips(s: seq<MeterValue>)
    requires forall i :: 0 < i < |s| ==> ImportCount(s[i].sampledValue) <= 1 && SlipFree(s[i - 1], s[i])
    ensures SlipSum(s) == 0.0
  {
    if |s| >= 2 {
      PairConservedIff(s[0], s[1]);
      NoSlips(s[1..]);
    }
  }

  /** For instance, 1000 Wh followed by 2 kWh counts as -998 kWh, and 1 kWh followed by null as -1 kWh. */
  lemma MixedUnitsAndNullBreakConservation(tariffId: string)
    ensures
      var mixed := [MeterValue(0, [Import(Number(1000.0), "Wh")]), MeterValue(1, [Import(Number(2.0), "kWh")])];
      var nulled := [MeterValue(0, [Import(Number(1.0), "kWh")]), MeterValue(1, [Import(Null, "kWh")])];
      TotalEnergy(PeriodsAfter(None, mixed, tariffId)) == -998.0
        && TotalEnergy(PeriodsAfter(None, nulled, tariffId)) == -1.0
  {
    TwoReadings(Number(1000.0), "Wh", Number(2.0), "kWh", tariffId);
    TwoReadings(Number(1.0), "kWh", Null, "kWh", tariffId);
  }

  lemma TwoReadings(first: Reading, firstUnit: string, second: Reading, secondUnit: string, tariffId: string)
    requires first.Number? && (second.Number? || second.Null?)
    ensures
      var s := [MeterValue(0, [Import(first, firstUnit)]), MeterValue(1, [Import(second, secondUnit)])];
      TotalEnergy(PeriodsAfter(None, s, tariffId)) == ConvertToKwh(ToNumber(second).value - first.n, Some(secondUnit))
  {
    var a, b := MeterValue(0, [Import(first, firstUnit)]), MeterValue(1, [Import(second, secondUnit)]);
    hide PeriodsAfter, TotalEnergy;
    FirstPeriodEmpty(a.sampledValue);
    DimensionsOfRegular(b.sampledValue, Some(a));
    EnergyOfFew(Dimensions(b.sampledValue, Some(a)));
    TotalOfTwo(a, b, tariffId);
  }

  lemma TotalOfTwo(a: MeterValue, b: MeterValue, tariffId: string)
    ensures TotalEnergy(PeriodsAfter(None, [a, b], tariffId))
         == EnergyOf(Dimensions(a.sampledValue, None)) + EnergyOf(Dimensions(b.sampledValue, Some(a)))
  {
    assert [a, b][1..] == [b] && [b][1..] == [];
    var periods := PeriodsAfter(None, [a, b], tariffId);
    assert periods[1..] == PeriodsAfter(Some(a), [b], tariffId);
    assert periods[1..][1..] == [];
    assert TotalEnergy(periods[1..]) == EnergyOf(periods[1].dimensions) + TotalEnergy([]);
  }

  // ---------- Parking time ----------

  function ParkingOf(dimensions: seq<CdrDimension>): real {
    if dimensions == [] then 0.0
    else
      ParkingOf(dimensions[..|dimensions| - 1])
      + (if dimensions[|dimensions| - 1].kind == PARKING_TIME then dimensions[|dimensions| - 1].volume else 0.0)
  }

  function TotalParking(periods: seq<ChargingPeriod>): real {
    if periods == [] then 0.0
    else TotalParking(periods[..|periods| - 1]) + ParkingOf(periods[|periods| - 1].dimensions)
  }

  method CalculateTotalParkingTimeFromPeriods(periods: seq<ChargingPeriod>) returns (totalHours: real)
    ensures totalHours == TotalParking(periods)
  {
    totalHours := 0.0;
    for i := 0 to |periods|
      invariant totalHours == TotalParking(periods[..i])
    {
      var dimensions := periods[i].dimensions;
      for j := 0 to |dimensions|
        invariant totalHours == TotalParking(periods[..i]) + ParkingOf(dimensions[..j])
      {
        assert dimensions[..j + 1][..j] == dimensions[..j];
        if dimensions[j].kind == PARKING_TIME {
          totalHours := totalHours + dimensions[j].volume;
        }
      }
      assert dimensions[..|dimensions|] == dimensions;
      assert periods[..i + 1][..i] == periods[..i];
    }
    assert periods[..|periods|] == periods;
  }

  lemma {:induction false} ParkingOfSplit(a: seq<CdrDimension>, b: seq<CdrDimension>)
    ensures ParkingOf(a + b) == ParkingOf(a) + ParkingOf(b)
  {
    if b == [] {
      assert a + b == a;
    } else {
      var n := |b| - 1;
      assert (a + b)[..|a + b| - 1] == a + b[..n];
      ParkingOfSplit(a, b[..n]);
    }
  }

  lemma {:induction false} TotalParkingSplit(a: seq<ChargingPeriod>, b: seq<ChargingPeriod>)
    ensures TotalParking(a + b) == TotalParking(a) + TotalParking(b)
  {
    if b == [] {
      assert a + b == a;
    } else {
      var n := |b| - 1;
      assert (a + b)[..|a + b| - 1] == a + b[..n];
      TotalParkingSplit(a, b[..n]);
    }
  }

  lemma TotalParkingSingle(p: ChargingPeriod)
    ensures TotalParking([p]) == ParkingOf(p.dimensions)
  {
    assert [p][..0] == [];
  }

  /** Every parking dimension adds its volume to the total, wherever it stands; any other adds nothing. */
  lemma ParkingAdds(before: seq<ChargingPeriod>, p: ChargingPeriod, after: seq<ChargingPeriod>, k: nat)
    requires k < |p.dimensions|
    ensures
      var d := p.dimensions[k];
      var without := p.(dimensions := p.dimensions[..k] + p.dimensions[k + 1..]);
      TotalParking(before + [p] + after)
      == TotalParking(before + [without] + after) + (if d.kind == PARKING_TIME then d.volume else 0.0)
  {
    var d := p.dimensions[k];
    var without := p.(dimensions := p.dimensions[..k] + p.dimensions[k + 1..]);
    forall q ensures TotalParking(before + [q] + after)
      == TotalParking(before) + ParkingOf(q.dimensions) + TotalParking(after) {
      TotalParkingSplit(before + [q], after);
      TotalParkingSplit(before, [q]);
      TotalParkingSingle(q);
    }
    assert p.dimensions == p.dimensions[..k] + [d] + p.dimensions[k + 1..];
    ParkingOfSplit(p.dimensions[..k] + [d], p.dimensions[k + 1..]);
    ParkingOfSplit(p.dimensions[..k], [d]);
    ParkingOfSplit(p.dimensions[..k], p.dimensions[k + 1..]);
    assert [d][..0] == [] && ParkingOf([d]) == if d.kind == PARKING_TIME then d.volume else 0.0;
  }

  lemma OnlyEnergyDimensions(samples: seq<SampledValue>, previous: Option<MeterValue>)
    ensures forall d :: d in Dimensions(samples, previous) ==> d.kind == ENERGY
  {
  }

  lemma OnlyEnergyPeriods(previous: Option<MeterValue>, s: seq<MeterValue>, tariffId: string)
    ensures forall p, d :: p in PeriodsAfter(previous, s, tariffId) && d in p.dimensions ==> d.kind == ENERGY
    decreases |s|
  {
    if s != [] {
      OnlyEnergyDimensions(s[0].sampledValue, previous);
      OnlyEnergyPeriods(Some(s[0]), s[1..], tariffId);
    }
  }

  lemma NoParking(periods: seq<ChargingPeriod>)
    requires forall p, d :: p in periods && d in p.dimensions ==> d.kind == ENERGY
    ensures TotalParking(periods) == 0.0
  {
    if periods != [] {
      var last := periods[|periods| - 1];
      assert last in periods;
      NoParkingIn(last.dimensions);
    }
  }

  lemma NoParkingIn(dimensions: seq<CdrDimension>)
    requires forall d :: d in dimensions ==> d.kind == ENERGY
    ensures ParkingOf(dimensions) == 0.0
  {
  }

  /** Sessions carry no parking dimension, so a record's parking time is always zero. */
  lemma ParkingTimeIsZero(meterValues: seq<MeterValue>, tariffId: string)
    ensures TotalParking(Periods(meterValues, tariffId)) == 0.0
  {
    OnlyEnergyPeriods(None, SortByTime(meterValues), tariffId);
    NoParking(Periods(meterValues, tariffId));
  }
}

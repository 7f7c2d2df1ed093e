/** Pricing a charge detail record, and the live session's total (OCPI 2.2.1, sections 9 and 10).
    Amounts are reals; `Math.round(x)` is the floor of x + 0.5. */
module CdrPricing {
  import opened Wrappers

  const MINUTES_IN_HOUR := 60.0

  datatype Tariff = Tariff(
    id: nat,
    currency: string,
    pricePerKwh: Option<real>,
    pricePerMin: Option<real>,
    pricePerSession: Option<real>,
    taxRate: Option<real>)

  datatype Price = Price(exclVat: real, inclVat: Option<real>)

  /** A product, named so that equal factors give equal terms. */
  function Times(x: real, y: real): real {
    x * y
  }

  /** A number that is present and not zero. */
  predicate Truthy(x: Option<real>) {
    x.Some? && x.value != 0.0
  }

  function Round(x: real): int {
    (x + 0.5).Floor
  }

  function Round4(value: real): real {
    Round(value * 10000.0) as real / 10000.0
  }

  function BuildPrice(exclVat: real, taxRate: Option<real>): Price {
    if Truthy(taxRate) then Price(exclVat, Some(Round4(Times(exclVat, 1.0 + taxRate.value))))
    else Price(exclVat, None)
  }

  function ComputeFixedCost(tariff: Tariff): Option<Price> {
    if !Truthy(tariff.pricePerSession) then None
    else Some(BuildPrice(Round4(tariff.pricePerSession.value), tariff.taxRate))
  }

  function ComputeEnergyCost(totalKwh: real, tariff: Tariff): Option<Price> {
    if !Truthy(tariff.pricePerKwh) then None
    else Some(BuildPrice(Round4(Times(totalKwh, tariff.pricePerKwh.value)), tariff.taxRate))
  }

  function ComputeTimeCost(totalTimeHours: real, tariff: Tariff): Option<Price> {
    if !Truthy(tariff.pricePerMin) then None
    else
      var pricePerHour := tariff.pricePerMin.value * MINUTES_IN_HOUR;
      Some(BuildPrice(Round4(Times(totalTimeHours, pricePerHour)), tariff.taxRate))
  }

  function ExclVat(cost: Option<Price>): real {
    if cost.Some? then cost.value.exclVat else 0.0
  }

  function InclVat(cost: Option<Price>): real {
    if cost.Some? then cost.value.inclVat.GetOr(0.0) else 0.0
  }

  function SumExclVat(costs: seq<Option<Price>>): real {
    if costs == [] then 0.0 else SumExclVat(costs[..|costs| - 1]) + ExclVat(costs[|costs| - 1])
  }

  function SumCosts(costs: seq<Option<Price>>, tariff: Tariff): Price {
    BuildPrice(Round4(SumExclVat(costs)), tariff.taxRate)
  }

  /** The components of a record, in the order they are summed. */
  function Components(kwh: real, hours: real, tariff: Tariff): (costs: seq<Option<Price>>)
    ensures |costs| == 3
  {
    [ComputeEnergyCost(kwh, tariff), ComputeTimeCost(hours, tariff), ComputeFixedCost(tariff)]
  }

  function TotalCost(kwh: real, hours: real, tariff: Tariff): Price {
    SumCosts(Components(kwh, hours, tariff), tariff)
  }

  /** The completed session's total: kWh price only, cut off at the cent. */
  function SessionTotalCost(totalKwh: real, tariffCost: real): Price {
    Price((Times(totalKwh, tariffCost) * 100.0).Floor as real / 100.0, None)
  }

  // ---------- Rounding ----------

  function TenThousandths(k: int): real {
    k as real / 10000.0
  }

  /** A multiple of one ten-thousandth. */
  ghost predicate FourDecimals(x: real) {
    exists k: int :: x == TenThousandths(k)
  }

  lemma Round4Is(x: real)
    ensures FourDecimals(Round4(x))
    ensures x - 0.00005 < Round4(x) <= x + 0.00005
  {
    assert Round4(x) == TenThousandths(Round(x * 10000.0));
  }

  lemma Round4Fixes(x: real)
    requires FourDecimals(x)
    ensures Round4(x) == x
  {
    var k: int :| x == TenThousandths(k);
    assert x * 10000.0 == k as real;
    assert (k as real + 0.5).Floor == k;
  }

  lemma Round4Monotone(x: real, y: real)
    requires x <= y
    ensures Round4(x) <= Round4(y)
  {
    FloorMonotone(x * 10000.0 + 0.5, y * 10000.0 + 0.5);
    TenThousandthsMonotone(Round(x * 10000.0), Round(y * 10000.0));
  }

  lemma FloorMonotone(x: real, y: real)
    requires x <= y
    ensures x.Floor <= y.Floor
  {
  }

  lemma TenThousandthsMonotone(j: int, k: int)
    requires j <= k
    ensures TenThousandths(j) <= TenThousandths(k)
  {
  }

  lemma FourDecimalsSum(x: real, y: real)
    requires FourDecimals(x) && FourDecimals(y)
    ensures FourDecimals(x + y)
  {
    var j: int :| x == TenThousandths(j);
    var k: int :| y == TenThousandths(k);
    assert x + y == TenThousandths(j + k);
  }

  /** The amounts of the three components before rounding. */
  function EnergyAmount(kwh: real, tariff: Tariff): real {
    Times(kwh, tariff.pricePerKwh.GetOr(0.0))
  }

  function TimeAmount(hours: real, tariff: Tariff): real {
    Times(hours, tariff.pricePerMin.GetOr(0.0) * MINUTES_IN_HOUR)
  }

  function FixedAmount(tariff: Tariff): real {
    tariff.pricePerSession.GetOr(0.0)
  }

  /** The price before any rounding. */
  function ExactPrice(kwh: real, hours: real, tariff: Tariff): real {
    EnergyAmount(kwh, tariff) + TimeAmount(hours, tariff) + FixedAmount(tariff)
  }

  /** The price carries VAT exactly when there is a tax rate, rounded to four decimals. */
  ghost predicate Taxed(price: Price, taxRate: Option<real>) {
    if taxRate.None? || taxRate.value == 0.0 then price.inclVat.None?
    else
      && price.inclVat.Some? && FourDecimals(price.inclVat.value)
      && -0.00005 < price.inclVat.value - price.exclVat * (1.0 + taxRate.value) <= 0.00005
  }

  /** A component is there exactly when its unit price is; it is then quantity times price to four decimals, with
      VAT. */
  ghost predicate Charged(cost: Option<Price>, quantity: real, unitPrice: Option<real>, taxRate: Option<real>) {
    if unitPrice.None? || unitPrice.value == 0.0 then cost.None?
    else
      && cost.Some? && FourDecimals(cost.value.exclVat)
      && -0.00005 < cost.value.exclVat - quantity * unitPrice.value <= 0.00005 && Taxed(cost.value, taxRate)
  }

  lemma BuildPriceTaxed(exclVat: real, taxRate: Option<real>)
    ensures BuildPrice(exclVat, taxRate).exclVat == exclVat && Taxed(BuildPrice(exclVat, taxRate), taxRate)
  {
    if Truthy(taxRate) {
      Round4Is(Times(exclVat, 1.0 + taxRate.value));
    }
  }

  lemma RoundedCharged(amount: real, quantity: real, unitPrice: Option<real>, taxRate: Option<real>)
    requires Truthy(unitPrice) && amount == quantity * unitPrice.value
    ensures Charged(Some(BuildPrice(Round4(amount), taxRate)), quantity, unitPrice, taxRate)
  {
    Round4Is(amount);
    hide Round4, FourDecimals;
    BuildPriceTaxed(Round4(amount), taxRate);
  }

  /** A session is charged its energy by the kWh, its duration by the minute and its fee once, each rounded on
      its own. */
  lemma ComponentsCharged(kwh: real, hours: real, tariff: Tariff)
    ensures Charged(ComputeEnergyCost(kwh, tariff), kwh, tariff.pricePerKwh, tariff.taxRate)
    ensures Charged(ComputeTimeCost(hours, tariff), hours * 60.0, tariff.pricePerMin, tariff.taxRate)
    ensures Charged(ComputeFixedCost(tariff), 1.0, tariff.pricePerSession, tariff.taxRate)
    ensures Taxed(TotalCost(kwh, hours, tariff), tariff.taxRate)
  {
    hide Round4, Taxed;
    if Truthy(tariff.pricePerKwh) {
      RoundedCharged(Times(kwh, tariff.pricePerKwh.value), kwh, tariff.pricePerKwh, tariff.taxRate);
    }
    if Truthy(tariff.pricePerMin) {
      var hourly := tariff.pricePerMin.value * MINUTES_IN_HOUR;
      RoundedCharged(Times(hours, hourly), hours * 60.0, tariff.pricePerMin, tariff.taxRate);
    }
    if Truthy(tariff.pricePerSession) {
      RoundedCharged(tariff.pricePerSession.value, 1.0, tariff.pricePerSession, tariff.taxRate);
    }
    BuildPriceTaxed(Round4(SumExclVat(Components(kwh, hours, tariff))), tariff.taxRate);
  }

  lemma ComponentsAreRounded(kwh: real, hours: real, tariff: Tariff)
    ensures ExclVat(ComputeEnergyCost(kwh, tariff)) == Round4(EnergyAmount(kwh, tariff))
    ensures ExclVat(ComputeTimeCost(hours, tariff)) == Round4(TimeAmount(hours, tariff))
    ensures ExclVat(ComputeFixedCost(tariff)) == Round4(FixedAmount(tariff))
  {
    assert Round4(0.0) == 0.0;
    TimesZero(kwh);
    TimesZero(hours);
    assert 0.0 * MINUTES_IN_HOUR == 0.0;
    assert !Truthy(tariff.pricePerKwh) ==> EnergyAmount(kwh, tariff) == 0.0;
    assert !Truthy(tariff.pricePerMin) ==> TimeAmount(hours, tariff) == 0.0;
  }

  lemma TimesZero(x: real)
    ensures Times(x, 0.0) == 0.0
  {
  }

  lemma SumUnfolds(kwh: real, hours: real, tariff: Tariff)
    ensures SumExclVat(Components(kwh, hours, tariff))
         == ExclVat(ComputeEnergyCost(kwh, tariff)) + ExclVat(ComputeTimeCost(hours, tariff))
           + ExclVat(ComputeFixedCost(tariff))
  {
    var cs := Components(kwh, hours, tariff);
    assert cs[..2][..1][..0] == [];
    assert cs[..2][..1] == cs[..1] && cs[..2][1] == cs[1] && cs[..1][0] == cs[0];
    assert SumExclVat(cs[..1]) == ExclVat(cs[0]);
    assert SumExclVat(cs[..2]) == SumExclVat(cs[..1]) + ExclVat(cs[1]);
  }

  lemma FourDecimalsComponents(kwh: real, hours: real, tariff: Tariff)
    ensures forall c :: c in Components(kwh, hours, tariff) ==> FourDecimals(ExclVat(c))
  {
    ComponentsAreRounded(kwh, hours, tariff);
    Round4Is(EnergyAmount(kwh, tariff));
    Round4Is(TimeAmount(hours, tariff));
    Round4Is(FixedAmount(tariff));
  }

  /** Rounding the sum again changes nothing: the total is the exact sum of the components. */
  lemma TotalIsExactSum(kwh: real, hours: real, tariff: Tariff)
    ensures TotalCost(kwh, hours, tariff).exclVat
         == ExclVat(ComputeEnergyCost(kwh, tariff)) + ExclVat(ComputeTimeCost(hours, tariff))
           + ExclVat(ComputeFixedCost(tariff))
  {
    var cs := Components(kwh, hours, tariff);
    FourDecimalsComponents(kwh, hours, tariff);
    assert cs[0] in cs && cs[1] in cs && cs[2] in cs;
    FourDecimalsSum(ExclVat(cs[0]), ExclVat(cs[1]));
    FourDecimalsSum(ExclVat(cs[0]) + ExclVat(cs[1]), ExclVat(cs[2]));
    SumUnfolds(kwh, hours, tariff);
    Round4Fixes(SumExclVat(cs));
  }

  /** The total is within 0.00015 of the unrounded price. */
  lemma TotalNearExact(kwh: real, hours: real, tariff: Tariff)
    ensures ExactPrice(kwh, hours, tariff) - 0.00015 < TotalCost(kwh, hours, tariff).exclVat <= ExactPrice(kwh, hours,
            tariff) + 0.00015
  {
    var e, t, f := EnergyAmount(kwh, tariff), TimeAmount(hours, tariff), FixedAmount(tariff);
    assert ExactPrice(kwh, hours, tariff) == e + t + f;
    hide *;
    TotalIsExactSum(kwh, hours, tariff);
    ComponentsAreRounded(kwh, hours, tariff);
    Round4Is(e);
    Round4Is(t);
    Round4Is(f);
  }

  /** That bound is reached: three halves of a ten-thousandth all round up. */
  lemma TotalBoundReached()
    ensures
      var t := Tariff(0, "EUR", Some(0.00005), Some(0.00005), Some(0.00005), None);
      TotalCost(1.0, 1.0 / 60.0, t).exclVat == ExactPrice(1.0, 1.0 / 60.0, t) + 0.00015
  {
    var t := Tariff(0, "EUR", Some(0.00005), Some(0.00005), Some(0.00005), None);
    TotalIsExactSum(1.0, 1.0 / 60.0, t);
    var h := (1.0 / 60.0) * (0.00005 * MINUTES_IN_HOUR);
    assert h == 0.00005;
    assert Round4(0.00005) == 0.0001;
    assert 1.0 * 0.00005 == 0.00005;
  }

  /** With a tax rate, the total with VAT is within 0.0002 of the sum of the components' VAT prices. */
  lemma TotalInclVatNearSum(kwh: real, hours: real, tariff: Tariff)
    requires Truthy(tariff.taxRate)
    ensures TotalCost(kwh, hours, tariff).inclVat.Some?
    ensures
      var sum := InclVat(ComputeEnergyCost(kwh, tariff)) + InclVat(ComputeTimeCost(hours, tariff))
        + InclVat(ComputeFixedCost(tariff));
      sum - 0.0002 < TotalCost(kwh, hours, tariff).inclVat.value < sum + 0.0002
  {
    var rate := 1.0 + tariff.taxRate.value;
    var e, t, f := ComputeEnergyCost(kwh, tariff), ComputeTimeCost(hours, tariff), ComputeFixedCost(tariff);
    var x, y, z, total := ExclVat(e), ExclVat(t), ExclVat(f), TotalCost(kwh, hours, tariff);
    assert total.inclVat == Some(Round4(Times(total.exclVat, rate))) by { TotalInclVat(kwh, hours, tariff); }
    InclVatIsRounded(e, rate, tariff.taxRate);
    InclVatIsRounded(t, rate, tariff.taxRate);
    InclVatIsRounded(f, rate, tariff.taxRate);
    hide *;
    TotalIsExactSum(kwh, hours, tariff);
    Distribute(x, y, z, rate);
    Round4Is(Times(x + y + z, rate));
    Round4Is(Times(x, rate));
    Round4Is(Times(y, rate));
    Round4Is(Times(z, rate));
  }

  lemma TotalInclVat(kwh: real, hours: real, tariff: Tariff)
    requires Truthy(tariff.taxRate)
    ensures TotalCost(kwh, hours, tariff).inclVat
            == Some(Round4(Times(TotalCost(kwh, hours, tariff).exclVat, 1.0 + tariff.taxRate.value)))
  {
  }

  lemma Distribute(x: real, y: real, z: real, rate: real)
    ensures Times(x + y + z, rate) == Times(x, rate) + Times(y, rate) + Times(z, rate)
  {
  }

  lemma InclVatIsRounded(cost: Option<Price>, rate: real, taxRate: Option<real>)
    requires Truthy(taxRate) && rate == 1.0 + taxRate.value
    requires cost.Some? ==> cost.value == BuildPrice(cost.value.exclVat, taxRate)
    ensures InclVat(cost) == Round4(Times(ExclVat(cost), rate))
  {
    assert Round4(0.0) == 0.0;
    assert Times(0.0, rate) == 0.0;
  }

  /** With non-negative rates, more energy or more time never costs less. */
  lemma TotalMonotone(kwh: real, hours: real, kwh': real, hours': real, tariff: Tariff)
    requires kwh <= kwh' && hours <= hours'
    requires tariff.pricePerKwh.GetOr(0.0) >= 0.0 && tariff.pricePerMin.GetOr(0.0) >= 0.0
    ensures TotalCost(kwh, hours, tariff).exclVat <= TotalCost(kwh', hours', tariff).exclVat
  {
    ScaleMonotone(kwh, kwh', tariff.pricePerKwh.GetOr(0.0));
    ScaleMonotone(hours, hours', tariff.pricePerMin.GetOr(0.0) * MINUTES_IN_HOUR);
    assert EnergyAmount(kwh, tariff) <= EnergyAmount(kwh', tariff);
    assert TimeAmount(hours, tariff) <= TimeAmount(hours', tariff);
    hide *;
    TotalIsExactSum(kwh, hours, tariff);
    TotalIsExactSum(kwh', hours', tariff);
    ComponentsAreRounded(kwh, hours, tariff);
    ComponentsAreRounded(kwh', hours', tariff);
    Round4Monotone(EnergyAmount(kwh, tariff), EnergyAmount(kwh', tariff));
    Round4Monotone(TimeAmount(hours, tariff), TimeAmount(hours', tariff));
  }

  lemma ScaleMonotone(x: real, y: real, factor: real)
    requires x <= y && factor >= 0.0
    ensures Times(x, factor) <= Times(y, factor)
  {
    assert (y - x) * factor >= 0.0;
  }

  // ---------- Live session against record ----------

  /** The session's total never exceeds the record's energy cost, and lags it by at most a cent. */
  lemma SessionBelowCdr(kwh: real, tariff: Tariff)
    requires Truthy(tariff.pricePerKwh)
    ensures
      var session := SessionTotalCost(kwh, tariff.pricePerKwh.value).exclVat;
      var cdr := ExclVat(ComputeEnergyCost(kwh, tariff));
      session <= cdr <= session + 0.01
  {
    ComponentsAreRounded(kwh, 0.0, tariff);
    FloorBelowRound(EnergyAmount(kwh, tariff));
  }

  function Hundredths(k: int): real {
    k as real / 100.0
  }

  /** The session's total is the energy amount cut off at the cent, without VAT. */
  lemma SessionTotalIs(kwh: real, price: real)
    ensures
      var total := SessionTotalCost(kwh, price);
      && total.inclVat.None? && 0.0 <= kwh * price - total.exclVat < 0.01
      && exists cents: int :: total.exclVat == Hundredths(cents)
  {
    var amount := Times(kwh, price);
    var cents := (amount * 100.0).Floor;
    assert cents as real <= amount * 100.0 < cents as real + 1.0;
    assert SessionTotalCost(kwh, price).exclVat == Hundredths(cents);
  }

  lemma FloorBelowRound(x: real)
    ensures
      var floor := (x * 100.0).Floor as real / 100.0;
      floor <= Round4(x) <= floor + 0.01
  {
    var cents := (x * 100.0).Floor;
    var floor := cents as real / 100.0;
    assert floor <= x <= floor + 0.01;
    assert TenThousandths(100 * cents) == floor;
    assert TenThousandths(100 * cents + 100) == floor + 0.01;
    Round4Fixes(floor);
    Round4Fixes(floor + 0.01);
    Round4Monotone(floor, x);
    Round4Monotone(x, floor + 0.01);
  }

  /** A full cent apart: 0.00999 floors to 0 but rounds to 0.01. */
  lemma SessionGapReached()
    ensures SessionTotalCost(1.0, 0.00999).exclVat == 0.0
    ensures ExclVat(ComputeEnergyCost(1.0, Tariff(0, "EUR", Some(0.00999), None, None, None))) == 0.01
  {
    assert 1.0 * 0.00999 == 0.00999;
    assert Round4(0.00999) == 0.01;
  }
}

/** The same tariff in OCPI form (OCPI 2.2.1, section 11). */
module TariffPublishing {
  import opened Wrappers
  import opened CdrPricing

  datatype DimensionType = ENERGY | FLAT | PARKING_TIME | TIME

  datatype PriceComponent = PriceComponent(kind: DimensionType, price: real, vat: real, stepSize: nat)

  /** A component is published only for a non-zero rate. */
  function Component(kind: DimensionType, rate: Option<real>, price: real, taxRate: Option<real>): seq<PriceComponent> {
    if Truthy(rate) then [PriceComponent(kind, price, taxRate.GetOr(0.0), 1)] else []
  }

  function EnergyComponent(tariff: Tariff): seq<PriceComponent> {
    Component(ENERGY, tariff.pricePerKwh, tariff.pricePerKwh.GetOr(0.0), tariff.taxRate)
  }

  function TimeComponent(tariff: Tariff): seq<PriceComponent> {
    Component(TIME, tariff.pricePerMin, tariff.pricePerMin.GetOr(0.0) * MINUTES_IN_HOUR, tariff.taxRate)
  }

  function FlatComponent(tariff: Tariff): seq<PriceComponent> {
    Component(FLAT, tariff.pricePerSession, tariff.pricePerSession.GetOr(0.0), tariff.taxRate)
  }

  function GetTariffElement(tariff: Tariff): seq<PriceComponent> {
    EnergyComponent(tariff) + TimeComponent(tariff) + FlatComponent(tariff)
  }

  // ---------- Back to a tariff row ----------

  /** The first component of a kind. */
  function FindKind(components: seq<PriceComponent>, kind: DimensionType): Option<PriceComponent> {
    if components == [] then None
    else if components[0].kind == kind then Some(components[0])
    else FindKind(components[1..], kind)
  }

  /** The first component with a VAT rate. */
  function FindVat(components: seq<PriceComponent>): Option<PriceComponent> {
    if components == [] then None
    else if components[0].vat != 0.0 then Some(components[0])
    else FindVat(components[1..])
  }

  function PriceOf(component: Option<PriceComponent>): real {
    if component.Some? then component.value.price else 0.0
  }

  datatype CoreTariff = CoreTariff(pricePerKwh: real, pricePerMin: real, pricePerSession: real, taxRate: real)

  function MapTariffElementToCoreTariff(components: seq<PriceComponent>): CoreTariff {
    CoreTariff(
      PriceOf(FindKind(components, ENERGY)),
      PriceOf(FindKind(components, TIME)) / MINUTES_IN_HOUR,
      PriceOf(FindKind(components, FLAT)),
      var withVat := FindVat(components); if withVat.Some? then withVat.value.vat else 0.0)
  }

  predicate Priced(tariff: Tariff) {
    Truthy(tariff.pricePerKwh) || Truthy(tariff.pricePerMin) || Truthy(tariff.pricePerSession)
  }

  /** The published element gives back every price; it gives back the tax rate exactly when
      some price is non-zero or there is no tax to lose. */
  lemma PublishedTariffRoundTrip(tariff: Tariff)
    ensures
      var core := MapTariffElementToCoreTariff(GetTariffElement(tariff));
      && core.pricePerKwh == tariff.pricePerKwh.GetOr(0.0)
      && core.pricePerMin == tariff.pricePerMin.GetOr(0.0)
      && core.pricePerSession == tariff.pricePerSession.GetOr(0.0)
      && (core.taxRate == tariff.taxRate.GetOr(0.0) <==> Priced(tariff) || !Truthy(tariff.taxRate))
  {
    ElementVat(tariff);
    var e, t, f := EnergyComponent(tariff), TimeComponent(tariff), FlatComponent(tariff);
    FindAppend(e + t, f);
    FindAppend(e, t);
    FindSingle(e);
    FindSingle(t);
    FindSingle(f);
  }

  lemma FindSingle(components: seq<PriceComponent>)
    requires |components| <= 1
    ensures forall kind ::
            FindKind(components, kind)
            == if components != [] && components[0].kind == kind then Some(components[0]) else None
  {
  }

  /** The tax rate an element carries is the tariff's, unless there is no component to carry it. */
  lemma ElementVat(tariff: Tariff)
    ensures
      var withVat := FindVat(GetTariffElement(tariff));
      if Priced(tariff) && Truthy(tariff.taxRate) then withVat.Some? && Some(withVat.value.vat) == tariff.taxRate
      else withVat.None?
    ensures forall c :: c in GetTariffElement(tariff) ==> c.vat == tariff.taxRate.GetOr(0.0) && c.stepSize == 1
  {
    var e, t, f := EnergyComponent(tariff), TimeComponent(tariff), FlatComponent(tariff);
    FindAppend(e + t, f);
    FindAppend(e, t);
  }

  /** Searching a concatenation: the left part first. */
  lemma FindAppend(left: seq<PriceComponent>, right: seq<PriceComponent>)
    ensures forall kind ::
            FindKind(left + right, kind)
            == if FindKind(left, kind).Some? then FindKind(left, kind) else FindKind(right, kind)
    ensures FindVat(left + right) == if FindVat(left).Some? then FindVat(left) else FindVat(right)
  {
    if left == [] {
      assert left + right == right;
    } else {
      assert (left + right)[1..] == left[1..] + right;
      FindAppend(left[1..], right);
    }
  }

  // ---------- Pricing by the published element ----------

  /** What one component charges for a session, before VAT. */
  function Charge(component: PriceComponent, kwh: real, hours: real): real {
    match component.kind
    case ENERGY => Round4(Times(kwh, component.price))
    case TIME => Round4(Times(hours, component.price))
    case FLAT => Round4(component.price)
    case PARKING_TIME => 0.0
  }

  function Charges(components: seq<PriceComponent>, kwh: real, hours: real): real {
    if components == [] then 0.0
    else Charges(components[..|components| - 1], kwh, hours) + Charge(components[|components| - 1], kwh, hours)
  }

  /** A receiver's price: the component charges, with the VAT the components carry. */
  function PriceByElement(components: seq<PriceComponent>, kwh: real, hours: real): Price {
    var withVat := FindVat(components);
    BuildPrice(Round4(Charges(components, kwh, hours)), if withVat.Some? then Some(withVat.value.vat) else None)
  }

  lemma ChargesAppend(left: seq<PriceComponent>, right: seq<PriceComponent>, kwh: real, hours: real)
    ensures Charges(left + right, kwh, hours) == Charges(left, kwh, hours) + Charges(right, kwh, hours)
  {
    if right == [] {
      assert left + right == left;
    } else {
      var n := |right| - 1;
      assert (left + right)[..|left| + n] == left + right[..n];
      ChargesAppend(left, right[..n], kwh, hours);
    }
  }

  /** Pricing by the published element gives the record's total: always before VAT, and with
      VAT exactly when some price is non-zero or the tariff has no tax. */
  lemma PublishedPriceIsCdrTotal(tariff: Tariff, kwh: real, hours: real)
    ensures
      var published := PriceByElement(GetTariffElement(tariff), kwh, hours);
      var cdr := TotalCost(kwh, hours, tariff);
      && published.exclVat == cdr.exclVat
      && (published == cdr <==> Priced(tariff) || !Truthy(tariff.taxRate))
  {
    PublishedCharges(tariff, kwh, hours);
    SumUnfolds(kwh, hours, tariff);
    ElementVat(tariff);
  }

  lemma PublishedCharges(tariff: Tariff, kwh: real, hours: real)
    ensures Charges(GetTariffElement(tariff), kwh, hours)
         == ExclVat(ComputeEnergyCost(kwh, tariff)) + ExclVat(ComputeTimeCost(hours, tariff))
           + ExclVat(ComputeFixedCost(tariff))
  {
    var e, t, f := EnergyComponent(tariff), TimeComponent(tariff), FlatComponent(tariff);
    ChargesAppend(e + t, f, kwh, hours);
    ChargesAppend(e, t, kwh, hours);
    ChargesSingle(e, kwh, hours);
    ChargesSingle(t, kwh, hours);
    ChargesSingle(f, kwh, hours);
  }

  lemma ChargesSingle(components: seq<PriceComponent>, kwh: real, hours: real)
    requires |components| <= 1
    ensures Charges(components, kwh, hours) == if components == [] then 0.0 else Charge(components[0], kwh, hours)
  {
  }
}

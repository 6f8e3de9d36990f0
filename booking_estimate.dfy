/** The booking page's live price estimate: a nightly rate resolved from the package
    label or the destination, a night count from the two dates, a 20% surcharge for
    more than two guests, a promo-code discount, the total in cents, and the text shown
    in the estimate box. */
module BookingEstimate {
  import opened Wrappers
  import opened JsText

  /** The value of a date field as `new Date(value)` reads it: an empty field, a
      non-empty value that does not parse (the time is NaN), or a time in milliseconds. */
  datatype DateValue = Blank | Unparsable | Parsed(time: int)

  /** The result of `Number(value)`: NaN or a finite number. */
  datatype NumberValue = NaN | Num(value: real)

  /** The booking form as the handlers read it; None is an element missing from the page. */
  datatype BookingForm = BookingForm(
    checkIn: Option<DateValue>,
    checkOut: Option<DateValue>,
    guests: Option<NumberValue>,
    promoCode: Option<string>,
    package: Option<string>,
    destination: Option<string>,
    name: Option<string>,
    email: Option<bool>)

  /** Nightly rates by exact package label. */
  const PackagePrices: map<string, nat> := map[
    "Beach Paradise" := 1200,
    "Romantic Getaway" := 1500,
    "Luxury Escape" := 1100,
    "Cultural Journey" := 1700]

  /** The destination words, in the order they are tried, and their rates. */
  const DestinationWords: seq<string> := ["bali", "paris", "dubai", "tokyo"]
  const DestinationRates: seq<nat> := [1200, 1500, 1100, 1700]

  const FallbackRate: nat := 1000

  /** The position of the first word of `words`, from position `from` on, that occurs
      in `dest` ignoring case; |words| when none does. */
  function FirstMatch(dest: string, words: seq<string>, from: nat): (k: nat)
    requires from <= |words|
    ensures from <= k <= |words|
    ensures forall j :: from <= j < k ==> !TestIgnoreCase(dest, words[j])
    ensures k < |words| ==> TestIgnoreCase(dest, words[k])
    decreases |words| - from
  {
    if from == |words| then from
    else if TestIgnoreCase(dest, words[from]) then from
    else FirstMatch(dest, words, from + 1)
  }

  /** The rate for a destination: the rate of the first destination word it contains,
      or the fallback rate. */
  function DestinationRate(dest: string): (r: nat)
    ensures var k := FirstMatch(dest, DestinationWords, 0);
      r == if k < |DestinationWords| then DestinationRates[k] else FallbackRate
  {
    if TestIgnoreCase(dest, "bali") then 1200
    else if TestIgnoreCase(dest, "paris") then 1500
    else if TestIgnoreCase(dest, "dubai") then 1100
    else if TestIgnoreCase(dest, "tokyo") then 1700
    else FallbackRate
  }

  /** getSelectedBasePrice: the trimmed package label wins when it is in the table;
      otherwise the destination decides. */
  function SelectedBasePrice(package: string, destination: string): (r: nat)
    ensures Trim(package) in PackagePrices ==> r == PackagePrices[Trim(package)]
    ensures Trim(package) !in PackagePrices ==> r == DestinationRate(destination)
    ensures r in {1000, 1100, 1200, 1500, 1700}
  {
    var key := Trim(package);
    if key in PackagePrices then PackagePrices[key] else DestinationRate(destination)
  }

  /** Without a known label, a destination that names none of the four places gets the
      fallback rate, and one that names a place gets that place's rate unless an
      earlier place in the order is also named. */
  lemma DestinationOrder(package: string, destination: string, i: nat)
    requires Trim(package) !in PackagePrices
    requires i < |DestinationWords| && TestIgnoreCase(destination, DestinationWords[i])
    requires forall j :: 0 <= j < i ==> !TestIgnoreCase(destination, DestinationWords[j])
    ensures SelectedBasePrice(package, destination) == DestinationRates[i]
  {
  }

  lemma NoDestinationFallsBack(package: string, destination: string)
    requires Trim(package) !in PackagePrices
    requires forall j :: 0 <= j < |DestinationWords| ==> !TestIgnoreCase(destination, DestinationWords[j])
    ensures SelectedBasePrice(package, destination) == FallbackRate
  {
  }

  const MsPerDay: int := 1000 * 60 * 60 * 24

  /** The night count: the floor of the whole days between the two dates, never
      negative, and 0 when either date is empty or does not parse. */
  function Nights(checkIn: DateValue, checkOut: DateValue): (n: nat)
    ensures n > 0 <==> checkIn.Parsed? && checkOut.Parsed? && checkOut.time - checkIn.time >= MsPerDay
    ensures checkIn.Parsed? && checkOut.Parsed? && checkOut.time >= checkIn.time ==>
      n * MsPerDay <= checkOut.time - checkIn.time < (n + 1) * MsPerDay
  {
    if checkIn == Blank || checkOut == Blank then 0
    else if !checkIn.Parsed? || !checkOut.Parsed? then 0
    else
      var nights := (checkOut.time - checkIn.time) / MsPerDay;
      if nights < 0 then 0 else nights
  }

  /** For dates at midnight (what a date input gives), the night count is the
      difference of the day numbers, or 0 when check-out is not after check-in. */
  lemma {:induction false} NightsOfDays(inDay: int, outDay: int)
    ensures Nights(Parsed(inDay * MsPerDay), Parsed(outDay * MsPerDay)) == if outDay > inDay then outDay - inDay else 0
  {
  }

  /** The night count the form's two dates give; an absent field reads as empty. */
  function FormNights(f: BookingForm): nat {
    Nights(f.checkIn.GetOr(Blank), f.checkOut.GetOr(Blank))
  }

  /** The guest count the form gives; an absent field reads as 1. */
  function Guests(f: BookingForm): NumberValue {
    f.guests.GetOr(Num(1.0))
  }

  /** The guest multiplier: 1.2 exactly when the count is a number above 2. */
  function GuestFactor(guests: NumberValue): (g: real)
    ensures g == 1.2 <==> guests.Num? && guests.value > 2.0
    ensures g == 1.0 <==> !(guests.Num? && guests.value > 2.0)
  {
    if guests.Num? && guests.value > 2.0 then 1.2 else 1.0
  }

  /** The promo code as it is looked up: trimmed, then upper-cased, so that no small
      letter is left. */
  function NormalizePromo(raw: string): (code: string)
    ensures |Trim(raw)| <= |code| <= 3 * |Trim(raw)|
    ensures forall i :: 0 <= i < |code| ==> !('a' <= code[i] <= 'z')
  {
    UpperCaseHasNoSmallLetter(Trim(raw));
    UpperCase(Trim(raw))
  }

  /** The discount rate of a normalised promo code; unknown codes get none. */
  function PromoDiscount(code: string): (d: real)
    ensures 0.0 <= d <= 0.15
    ensures d == 0.10 <==> code == "EARLYBIRD"
    ensures d == 0.05 <==> code == "SUMMER"
    ensures d == 0.15 <==> code == "FALLSALE"
    ensures d == 0.0 <==> code !in {"EARLYBIRD", "SUMMER", "FALLSALE"}
  {
    match code
    case "EARLYBIRD" => 0.10
    case "SUMMER" => 0.05
    case "FALLSALE" => 0.15
    case _ => 0.0
  }

  /** For an ASCII entry, a code is found exactly when the trimmed entry is that code in
      any case. */
  lemma PromoIgnoresCase(raw: string)
    requires IsAscii(raw)
    ensures PromoDiscount(NormalizePromo(raw)) == 0.10 <==> EqualIgnoringAsciiCase(Trim(raw), "EARLYBIRD")
    ensures PromoDiscount(NormalizePromo(raw)) == 0.05 <==> EqualIgnoringAsciiCase(Trim(raw), "SUMMER")
    ensures PromoDiscount(NormalizePromo(raw)) == 0.15 <==> EqualIgnoringAsciiCase(Trim(raw), "FALLSALE")
  {
    var t := Trim(raw);
    TrimSpec(raw);
    assert IsAscii(t) by {
      var i := |raw| - |TrimStart(raw)|;
      assert forall k :: 0 <= k < |t| ==> t[k] == raw[i + k];
    }
    UpperCaseEqualsIff(t, "EARLYBIRD");
    UpperCaseEqualsIff(t, "SUMMER");
    UpperCaseEqualsIff(t, "FALLSALE");
  }

  lemma TrimmedEarlybird()
    ensures Trim(" earlybird ") == "earlybird"
  {
  }

  lemma UpperCasedEarlybird()
    ensures UpperCase("earlybird") == "EARLYBIRD"
  {
    UpperCaseOfAsciiIs("earlybird", "EARLYBIRD");
  }

  lemma UpperCasedSummer()
    ensures UpperCase("Summer") == "SUMMER"
  {
    UpperCaseOfAsciiIs("Summer", "SUMMER");
  }

  lemma UpperCasedSpaced()
    ensures UpperCase("early bird") == "EARLY BIRD"
  {
    UpperCaseOfAsciiIs("early bird", "EARLY BIRD");
  }

  lemma NormalizedCodes()
    ensures NormalizePromo(" earlybird ") == "EARLYBIRD"
    ensures NormalizePromo("Summer") == "SUMMER"
    ensures NormalizePromo("early bird") == "EARLY BIRD"
  {
    TrimmedEarlybird();
    TrimUnpadded("Summer");
    TrimUnpadded("early bird");
    UpperCasedEarlybird();
    UpperCasedSummer();
    UpperCasedSpaced();
  }

  /** Codes are found whatever their case and surrounding spaces, but not when spelled
      with other inner spacing. */
  lemma PromoExamples()
    ensures PromoDiscount(NormalizePromo(" earlybird ")) == 0.10
    ensures PromoDiscount(NormalizePromo("Summer")) == 0.05
    ensures PromoDiscount(NormalizePromo("early bird")) == 0.0
  {
    NormalizedCodes();
  }

  function BasePrice(f: BookingForm): nat {
    SelectedBasePrice(f.package.GetOr(""), f.destination.GetOr(""))
  }

  function Discount(f: BookingForm): real {
    PromoDiscount(NormalizePromo(f.promoCode.GetOr("")))
  }

  function Max(a: int, b: int): int {
    if a < b then b else a
  }

  /** The total before the promo discount: the rate times the nights, at least one
      night charged, with the guest multiplier. */
  function PreDiscount(rate: nat, nights: nat, guests: NumberValue): (total: real)
    ensures (rate * Max(1, nights)) as real <= total <= 1.2 * (rate * Max(1, nights)) as real
  {
    (rate * Max(1, nights)) as real * GuestFactor(guests)
  }

  /** A total with a discount rate taken off. */
  function Discounted(total: real, discount: real): real {
    total * (1.0 - discount)
  }

  /** The whole number of cents one dollar of rate-times-nights becomes under a
      guest multiplier and a discount: every combination is a whole number. */
  function CentsPerUnit(g: real, d: real): nat {
    if g == 1.0 then
      (if d == 0.10 then 90 else if d == 0.05 then 95 else if d == 0.15 then 85 else 100)
    else
      (if d == 0.10 then 108 else if d == 0.05 then 114 else if d == 0.15 then 102 else 120)
  }

  lemma WholeCents(units: nat, g: real, d: real)
    requires g == 1.0 || g == 1.2
    requires d == 0.0 || d == 0.05 || d == 0.10 || d == 0.15
    ensures 100.0 * Discounted(units as real * g, d) == (units * CentsPerUnit(g, d)) as real
  {
  }

  /** Taking the discount off is the multiplication the estimate performs. */
  lemma DiscountStep(total: real, discount: real, discounted: real)
    requires discounted == total * (1.0 - discount)
    ensures discounted == Discounted(total, discount)
  {
  }

  /** A discount of at most 15% keeps at least 85% of a non-negative total. */
  lemma DiscountBounds(total: real, discount: real)
    requires 0.0 <= total && 0.0 <= discount <= 0.15
    ensures 0.85 * total <= Discounted(total, discount) <= total
  {
    assert Discounted(total, discount) == total - total * discount;
    assert 0.0 <= total * discount <= total * 0.15;
  }

  /** The exact total after the promo discount, in dollars. */
  function ExactTotal(f: BookingForm): (total: real)
    ensures 0.85 * PreDiscount(BasePrice(f), FormNights(f), Guests(f)) <= total
    ensures total <= PreDiscount(BasePrice(f), FormNights(f), Guests(f))
  {
    var total := PreDiscount(BasePrice(f), FormNights(f), Guests(f));
    DiscountBounds(total, Discount(f));
    Discounted(total, Discount(f))
  }

  /** The total rounded to cents. Every rate is a whole number of dollars and every
      factor turns a dollar into a whole number of cents, so the rounding never moves
      the exact total; the discount never raises it and never makes it negative. */
  function TotalCents(f: BookingForm): (cents: nat)
    ensures cents as real == 100.0 * ExactTotal(f)
    ensures cents as real <= 100.0 * PreDiscount(BasePrice(f), FormNights(f), Guests(f))
  {
    var units := BasePrice(f) * Max(1, FormNights(f));
    var g := GuestFactor(Guests(f));
    var d := Discount(f);
    WholeCents(units, g, d);
    var k := units * CentsPerUnit(g, d);
    assert 100.0 * ExactTotal(f) == k as real;
    assert MathRound(k as real) == k;
    MathRound(100.0 * ExactTotal(f))
  }

  /** At least one night is charged: the total is never below one night at the base
      rate with the guest and promo factors applied. */
  lemma ChargesAtLeastOneNight(rate: nat, nights: nat, guests: NumberValue, discount: real)
    requires 0.0 <= discount < 1.0
    ensures Discounted(PreDiscount(rate, nights, guests), discount)
      >= Discounted(PreDiscount(rate, 1, guests), discount)
    ensures nights == 0 ==>
      Discounted(PreDiscount(rate, nights, guests), discount) == Discounted(PreDiscount(rate, 1, guests), discount)
  {
    var m := Max(1, nights);
    var g := GuestFactor(guests);
    var d := 1.0 - discount;
    var x := rate as real * g * d;
    assert g > 0.0 && d > 0.0;
    assert x >= 0.0;
    assert (rate * m) as real == rate as real * m as real;
    assert Discounted(PreDiscount(rate, nights, guests), discount) == x * m as real;
    assert Discounted(PreDiscount(rate, 1, guests), discount) == x;
    assert x * m as real >= x * 1.0;
  }

  const Placeholder: string := "Estimated total: \U{2014}"

  /** "<n> night" or "<n> nights": the word is plural exactly when there is more than
      one night. */
  function NightsLabel(n: nat): (l: string)
    ensures |l| > 6 && (l[|l| - 1] == 's' <==> n > 1)
  {
    NatToDecimal(n) + " night" + (if n > 1 then "s" else "")
  }

  /** What a figure text shows: the total in cents and the number of nights. */
  datatype Figure = Figure(cents: nat, nights: nat)

  const FigurePrefix: string := "Estimated total: $"

  /** Reads "<n> night)" or "<n> nights)" back as n. */
  function ReadNights(count: string): Option<nat> {
    var m := LeadingDigits(count);
    if m == 0 || count[m..] !in {" night)", " nights)"} then None
    else Some(DecimalValue(count[..m]))
  }

  /** Reads "<dollars>.<cents> (<n> night[s])" back. None when the text does not have
      that form. */
  function ReadAmount(amount: string): Option<Figure> {
    var k := LeadingDigits(amount);
    if k == 0 || |amount| < k + 5 || amount[k] != '.' || !IsDigit(amount[k + 1])
      || !IsDigit(amount[k + 2]) || amount[k + 3..k + 5] != " (" then None
    else
      match ReadNights(amount[k + 5..])
      case None => None
      case Some(nights) =>
        Some(Figure(100 * DecimalValue(amount[..k]) + DecimalValue(amount[k + 1..k + 3]), nights))
  }

  /** Reads an estimate text back: the prefix, then the amount and the nights. None when
      the text does not have that form. */
  function ReadFigure(text: string): Option<Figure> {
    if |text| < |FigurePrefix| || text[..|FigurePrefix|] != FigurePrefix then None
    else ReadAmount(text[|FigurePrefix|..])
  }

  /** The night label, closed by a parenthesis, reads back as the nights. */
  lemma NightsReadBack(nights: nat)
    ensures ReadNights(NightsLabel(nights) + ")") == Some(nights)
  {
    var digits := NatToDecimal(nights);
    var word := " night" + (if nights > 1 then "s" else "") + ")";
    var count := NightsLabel(nights) + ")";
    assert count == digits + word;
    LeadingDigitsOf(digits, word);
    assert count[..|digits|] == digits;
    assert count[|digits|..] == word;
    if nights > 1 {
      assert word == " nights)";
    } else {
      assert word == " night)";
    }
    NatToDecimalRoundTrip(nights);
  }

  /** toFixed(2) of the cents, followed by " (", reads back as the cents: the digits up
      to the point and the two after it. */
  lemma AmountReadsBack(cents: nat, rest: string)
    requires |rest| >= 2 && rest[..2] == " ("
    ensures var amount := FixedTwo(cents) + rest;
      var k := LeadingDigits(amount);
      && k == |FixedTwo(cents)| - 3 && k > 0 && |amount| >= k + 5
      && amount[k] == '.' && IsDigit(amount[k + 1]) && IsDigit(amount[k + 2])
      && amount[k + 3..k + 5] == " (" && amount[k + 5..] == rest[2..]
      && 100 * DecimalValue(amount[..k]) + DecimalValue(amount[k + 1..k + 3]) == cents
  {
    var fixed := FixedTwo(cents);
    var amount := fixed + rest;
    var k := |fixed| - 3;
    assert amount == fixed[..k] + amount[k..];
    LeadingDigitsOf(fixed[..k], amount[k..]);
    assert amount[..k] == fixed[..k];
    assert amount[k + 1..k + 3] == fixed[|fixed| - 2..];
    assert amount[k + 3..k + 5] == rest[..2];
    FixedTwoRoundTrip(cents);
  }

  /** The figure the estimate box shows: the total with two decimals and the night label. */
  function FigureText(cents: nat, nights: nat): (text: string)
    ensures |text| > 18 && text[17] == '$'
  {
    FigurePrefix + FixedTwo(cents) + " (" + NightsLabel(nights) + ")"
  }

  /** The amount and the night label read back as the cents and the nights. */
  lemma AmountAndNightsReadBack(cents: nat, nights: nat)
    ensures ReadAmount(FixedTwo(cents) + (" (" + NightsLabel(nights) + ")")) == Some(Figure(cents, nights))
  {
    var rest := " (" + NightsLabel(nights) + ")";
    AmountReadsBack(cents, rest);
    assert rest[2..] == NightsLabel(nights) + ")";
    NightsReadBack(nights);
  }

  /** A figure reads back as exactly the cents and the nights it was made from. */
  lemma FigureReadsBack(cents: nat, nights: nat)
    ensures ReadFigure(FigureText(cents, nights)) == Some(Figure(cents, nights))
  {
    var amount := FixedTwo(cents) + (" (" + NightsLabel(nights) + ")");
    var text := FigureText(cents, nights);
    assert text == FigurePrefix + amount;
    assert text[..|FigurePrefix|] == FigurePrefix;
    assert text[|FigurePrefix|..] == amount;
    AmountAndNightsReadBack(cents, nights);
  }

  /** The text of the estimate box: the figure when there is at least one night,
      otherwise the placeholder. */
  function EstimateText(f: BookingForm): (text: string)
    ensures text == Placeholder <==> FormNights(f) == 0
    ensures FormNights(f) > 0 ==> text == FigureText(TotalCents(f), FormNights(f))
  {
    var nights := FormNights(f);
    if nights > 0 then
      var text := FigureText(TotalCents(f), nights);
      assert text[17] != Placeholder[17];
      text
    else Placeholder
  }

  /** The estimate box reads back as the total in cents and the nights when there is at
      least one night, and as no figure at all otherwise. */
  lemma EstimateReadsBack(f: BookingForm)
    ensures ReadFigure(EstimateText(f)) ==
      if FormNights(f) > 0 then Some(Figure(TotalCents(f), FormNights(f))) else None
  {
    if FormNights(f) > 0 {
      FigureReadsBack(TotalCents(f), FormNights(f));
    } else {
      assert Placeholder[..|FigurePrefix|][17] != FigurePrefix[17];
    }
  }
}

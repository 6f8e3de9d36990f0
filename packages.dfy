/** The packages page: a fixed catalogue of trips whose final price is the base price
    scaled by a season multiplier and a 5% surcharge for trips of six days or more,
    rounded to cents, one table row per package. */
module Packages {
  import opened Wrappers
  import opened JsText

  /** A catalogue entry. A season that is absent is read as the empty string. */
  datatype Package = Package(id: int, destination: string, durationDays: int, basePrice: real, season: Option<string>)

  const Catalog: seq<Package> := [
    Package(1, "Bali, Indonesia", 7, 1200.0, Some("peak")),
    Package(2, "Paris, France", 5, 1500.0, Some("shoulder")),
    Package(3, "Dubai, UAE", 6, 1100.0, Some("off")),
    Package(4, "Tokyo, Japan", 8, 1700.0, Some("peak"))
  ]

  /** The season multiplier, looked up after lower-casing; any other season, and a missing one, is neutral. */
  function SeasonMultiplier(season: Option<string>): (m: real)
    ensures m == 1.25 <==> LowerCase(season.GetOr("")) == "peak"
    ensures m == 1.10 <==> LowerCase(season.GetOr("")) == "shoulder"
    ensures m == 0.90 <==> LowerCase(season.GetOr("")) == "off"
    ensures m == 1.0 <==> LowerCase(season.GetOr("")) !in {"peak", "shoulder", "off"}
  {
    match LowerCase(season.GetOr(""))
    case "peak" => 1.25
    case "shoulder" => 1.10
    case "off" => 0.90
    case _ => 1.0
  }

  /** An ASCII season is matched without regard to case: "Peak" and "PEAK" are peak. */
  lemma SeasonIgnoresCase(season: string)
    requires IsAscii(season)
    ensures SeasonMultiplier(Some(season)) == 1.25 <==> EqualIgnoringAsciiCase(season, "peak")
    ensures SeasonMultiplier(Some(season)) == 1.10 <==> EqualIgnoringAsciiCase(season, "shoulder")
    ensures SeasonMultiplier(Some(season)) == 0.90 <==> EqualIgnoringAsciiCase(season, "off")
  {
    LowerCaseEqualsIff(season, "peak");
    LowerCaseEqualsIff(season, "shoulder");
    LowerCaseEqualsIff(season, "off");
  }

  /** Capitalised seasons, and the Kelvin sign, which lower-cases to k, all count; a
      missing season is neutral. */
  lemma SeasonExamples()
    ensures SeasonMultiplier(Some("PEAK")) == 1.25
    ensures SeasonMultiplier(Some("Off")) == 0.90
    ensures SeasonMultiplier(Some("PEA\U{212A}")) == 1.25
    ensures SeasonMultiplier(None) == 1.0
  {
  }

  /** The "weekend" surcharge rate: 5% for trips of six days or more. */
  function WeekendSurcharge(durationDays: int): (rate: real)
    ensures rate == 0.05 <==> durationDays >= 6
    ensures rate == 0.0 <==> durationDays < 6
  {
    if durationDays >= 6 then 0.05 else 0.0
  }

  /** The unrounded final price in dollars. */
  function ExactFinalPrice(p: Package): real {
    p.basePrice * SeasonMultiplier(p.season) * (1.0 + WeekendSurcharge(p.durationDays))
  }

  /** computeFinalPrice, in cents: within half a cent of the exact price. */
  function FinalPriceCents(p: Package): (cents: int)
    ensures cents as real - 0.5 <= 100.0 * ExactFinalPrice(p) < cents as real + 0.5
  {
    MathRound(100.0 * ExactFinalPrice(p))
  }

  /** For a package that is not dearer than another in base price, a longer trip in the
      same season never costs less. */
  lemma LongerTripNeverCheaper(p: Package, q: Package)
    requires p.season == q.season && 0.0 <= p.basePrice <= q.basePrice
    requires p.durationDays <= q.durationDays
    ensures FinalPriceCents(p) <= FinalPriceCents(q)
  {
  }

  /** The four catalogue prices the table shows. */
  lemma CatalogFinalPrices()
    ensures FinalPriceCents(Catalog[0]) == 157500
    ensures FinalPriceCents(Catalog[1]) == 165000
    ensures FinalPriceCents(Catalog[2]) == 103950
    ensures FinalPriceCents(Catalog[3]) == 223125
  {
  }

  /** One table row: the package and its final price in cents. */
  datatype Row = Row(package: Package, finalCents: int)

  function RowFor(p: Package): (r: Row)
    ensures r.package == p
    ensures r.finalCents as real - 0.5 <= 100.0 * ExactFinalPrice(p) < r.finalCents as real + 0.5
  {
    Row(p, FinalPriceCents(p))
  }

  /** The table body that the page appends rows to, one per package, in order. */
  class PackageTable {
    var rows: seq<Row>

    constructor ()
      ensures rows == []
    {
      rows := [];
    }

    /** Appends one priced row per package, in the order of the packages. */
    method AppendRows(packages: seq<Package>)
      modifies this
      ensures |rows| == |old(rows)| + |packages|
      ensures rows[..|old(rows)|] == old(rows)
      ensures forall i :: 0 <= i < |packages| ==> rows[|old(rows)| + i] == RowFor(packages[i])
    {
      var i := 0;
      while i < |packages|
        invariant 0 <= i <= |packages|
        invariant |rows| == |old(rows)| + i
        invariant rows[..|old(rows)|] == old(rows)
        invariant forall k :: 0 <= k < i ==> rows[|old(rows)| + k] == RowFor(packages[k])
      {
        rows := rows + [RowFor(packages[i])];
        i := i + 1;
      }
    }
  }

  /** The packages page's table body: a new body with one priced row per catalogue
      package, in catalogue order. */
  method CatalogTable() returns (table: PackageTable)
    ensures fresh(table)
    ensures |table.rows| == |Catalog|
    ensures forall i :: 0 <= i < |Catalog| ==> table.rows[i] == RowFor(Catalog[i])
    ensures table.rows[0].finalCents == 157500 && table.rows[1].finalCents == 165000
    ensures table.rows[2].finalCents == 103950 && table.rows[3].finalCents == 223125
  {
    table := new PackageTable();
    table.AppendRows(Catalog);
    CatalogFinalPrices();
  }
}

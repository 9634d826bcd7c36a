/**
 * The variant table of data/variants.ts: for every product slug with purchasable options, the list of
 * (size, container colour, price in cents) rows, in table order, and the invariants the table is meant to keep.
 */
module Variants {
  import opened Options

  /** "6oz" | "8oz" | "10oz" */
  datatype Size = Oz6 | Oz8 | Oz10

  /** "black" | "white": the container colour. */
  datatype Color = Black | White

  /**
   * One purchasable row. The declared TypeScript type makes `color` required, but every reader of the
   * table guards against a missing colour, so the model lets it be absent and proves the table never omits it.
   * The optional `image` path is left out: no rule reads it.
   */
  datatype Variant = Variant(id: string, size: Size, color: Option<Color>, price: int)

  /** The string the source uses for a size, which also appears inside cart line ids. */
  function SizeName(s: Size): string {
    match s
    case Oz6 => "6oz"
    case Oz8 => "8oz"
    case Oz10 => "10oz"
  }

  function ColorName(c: Color): string {
    match c
    case Black => "black"
    case White => "white"
  }

  /** The unified price table, in cents. */
  const Price6: int := 2200
  const Price8: int := 2800
  const Price10: int := 3500

  function SizePrice(s: Size): int {
    match s
    case Oz6 => Price6
    case Oz8 => Price8
    case Oz10 => Price10
  }

  const GourmetTreatRows: seq<Variant> := [
    Variant("gourmet-6-b", Oz6, Some(Black), Price6),
    Variant("gourmet-6-w", Oz6, Some(White), Price6),
    Variant("gourmet-8-b", Oz8, Some(Black), Price8),
    Variant("gourmet-8-w", Oz8, Some(White), Price8),
    Variant("gourmet-10-b", Oz10, Some(Black), Price10),
    Variant("gourmet-10-w", Oz10, Some(White), Price10)
  ]

  const FirstLoveRows: seq<Variant> := [
    Variant("firstlove-6-b", Oz6, Some(Black), 2200),
    Variant("firstlove-6-w", Oz6, Some(White), 2200),
    Variant("firstlove-8-b", Oz8, Some(Black), 2800),
    Variant("firstlove-8-w", Oz8, Some(White), 2800),
    Variant("firstlove-10-b", Oz10, Some(Black), 3500),
    Variant("firstlove-10-w", Oz10, Some(White), 3500)
  ]

  const FrazerFirRows: seq<Variant> := [
    Variant("frazerfir-6-b", Oz6, Some(Black), 2200),
    Variant("frazerfir-6-w", Oz6, Some(White), 2200),
    Variant("frazerfir-8-b", Oz8, Some(Black), 2800),
    Variant("frazerfir-8-w", Oz8, Some(White), 2800),
    Variant("frazerfir-10-b", Oz10, Some(Black), 3500),
    Variant("frazerfir-10-w", Oz10, Some(White), 3500)
  ]

  const LavenderOasisRows: seq<Variant> := [
    Variant("lavender-6-b", Oz6, Some(Black), 2200),
    Variant("lavender-6-w", Oz6, Some(White), 2200),
    Variant("lavender-8-b", Oz8, Some(Black), 2800),
    Variant("lavender-8-w", Oz8, Some(White), 2800),
    Variant("lavender-10-b", Oz10, Some(Black), 3500),
    Variant("lavender-10-w", Oz10, Some(White), 3500)
  ]

  const WoodzySpellRows: seq<Variant> := [
    Variant("woodzy-6-b", Oz6, Some(Black), 2200),
    Variant("woodzy-6-w", Oz6, Some(White), 2200),
    Variant("woodzy-8-b", Oz8, Some(Black), 2800),
    Variant("woodzy-8-w", Oz8, Some(White), 2800),
    Variant("woodzy-10-b", Oz10, Some(Black), 3500),
    Variant("woodzy-10-w", Oz10, Some(White), 3500)
  ]

  const JamaicaMeCrazyRows: seq<Variant> := [
    Variant("jamaica-6-b", Oz6, Some(Black), 2200),
    Variant("jamaica-6-w", Oz6, Some(White), 2200),
    Variant("jamaica-8-b", Oz8, Some(Black), 2800),
    Variant("jamaica-8-w", Oz8, Some(White), 2800),
    Variant("jamaica-10-b", Oz10, Some(Black), 3500),
    Variant("jamaica-10-w", Oz10, Some(White), 3500)
  ]

  const SweetCitrusMedleyRows: seq<Variant> := [
    Variant("citrus-6-b", Oz6, Some(Black), 2200),
    Variant("citrus-6-w", Oz6, Some(White), 2200),
    Variant("citrus-8-b", Oz8, Some(Black), 2800),
    Variant("citrus-8-w", Oz8, Some(White), 2800),
    Variant("citrus-10-b", Oz10, Some(Black), 3500),
    Variant("citrus-10-w", Oz10, Some(White), 3500)
  ]

  const LittleMystery1Rows: seq<Variant> := [
    Variant("lm1-6-b", Oz6, Some(Black), 2200),
    Variant("lm1-6-w", Oz6, Some(White), 2200),
    Variant("lm1-8-b", Oz8, Some(Black), 2800),
    Variant("lm1-8-w", Oz8, Some(White), 2800),
    Variant("lm1-10-b", Oz10, Some(Black), 3500),
    Variant("lm1-10-w", Oz10, Some(White), 3500)
  ]

  const PreciousMemoriesRows: seq<Variant> := [
    Variant("memories-6-b", Oz6, Some(Black), 2200),
    Variant("memories-6-w", Oz6, Some(White), 2200),
    Variant("memories-8-b", Oz8, Some(Black), 2800),
    Variant("memories-8-w", Oz8, Some(White), 2800),
    Variant("memories-10-b", Oz10, Some(Black), 3500),
    Variant("memories-10-w", Oz10, Some(White), 3500)
  ]

  const FantasyBouquetRows: seq<Variant> := [
    Variant("fantasy-6-b", Oz6, Some(Black), 2200),
    Variant("fantasy-6-w", Oz6, Some(White), 2200),
    Variant("fantasy-8-b", Oz8, Some(Black), 2800),
    Variant("fantasy-8-w", Oz8, Some(White), 2800),
    Variant("fantasy-10-b", Oz10, Some(Black), 3500),
    Variant("fantasy-10-w", Oz10, Some(White), 3500)
  ]

  const IcedMangoLassiRows: seq<Variant> := [Variant("mango-10", Oz10, Some(White), 3500)]

  const SheerKhurmaRows: seq<Variant> := [Variant("khurma-10", Oz10, Some(White), 3500)]

  const IcedCoffeeEraRows: seq<Variant> := [Variant("coffee-10", Oz10, Some(Black), 3500)]

  const ProductVariants: map<string, seq<Variant>> := map[
    "gourmet-treat" := GourmetTreatRows,
    "first-love" := FirstLoveRows,
    "frazer-fir" := FrazerFirRows,
    "lavender-oasis" := LavenderOasisRows,
    "woodzy-spell" := WoodzySpellRows,
    "jamaica-me-crazy" := JamaicaMeCrazyRows,
    "sweet-citrus-medley" := SweetCitrusMedleyRows,
    "little-mystery-1" := LittleMystery1Rows,
    "precious-memories" := PreciousMemoriesRows,
    "fantasy-bouquet" := FantasyBouquetRows,
    "iced-mango-lassi" := IcedMangoLassiRows,
    "sheer-khurma" := SheerKhurmaRows,
    "iced-coffee-era" := IcedCoffeeEraRows
  ]

  /** `productVariants[slug] ?? []`: the rows of a slug, empty for a slug the table does not know. */
  function RowsFor(slug: string): seq<Variant> {
    if slug in ProductVariants then ProductVariants[slug] else []
  }

  /** The slugs whose only row is their single purchasable option. */
  const SingleVariantSlugs: set<string> := {"iced-mango-lassi", "sheer-khurma", "iced-coffee-era"}

  // ---------------------------------------------------------------------------------------------
  // Row-list properties

  predicate PricedBySize(rows: seq<Variant>) {
    forall i :: 0 <= i < |rows| ==> rows[i].price == SizePrice(rows[i].size)
  }

  predicate Coloured(rows: seq<Variant>) {
    forall i :: 0 <= i < |rows| ==> rows[i].color.Some?
  }

  predicate DistinctIds(rows: seq<Variant>) {
    forall i, j :: 0 <= i < j < |rows| ==> rows[i].id != rows[j].id
  }

  /** No two rows offer the same (size, colour) option. */
  predicate DistinctOptions(rows: seq<Variant>) {
    forall i, j :: 0 <= i < j < |rows| ==> (rows[i].size, rows[i].color) != (rows[j].size, rows[j].color)
  }

  /** Some row offers size s in colour c. */
  ghost predicate Offers(rows: seq<Variant>, s: Size, c: Color) {
    exists i :: 0 <= i < |rows| && rows[i].size == s && rows[i].color == Some(c)
  }

  /** Every size in every colour is on offer. */
  ghost predicate FullGrid(rows: seq<Variant>) {
    forall s: Size, c: Color :: Offers(rows, s, c)
  }

  /** Position i of a regular product: 6, 6, 8, 8, 10, 10 oz alternating black and white. */
  function GridSize(i: nat): Size {
    if i < 2 then Oz6 else if i < 4 then Oz8 else Oz10
  }

  function GridColor(i: nat): Color {
    if i % 2 == 0 then Black else White
  }

  /** The position of an option in a regular product's rows. */
  function GridIndex(s: Size, c: Color): (i: nat)
    ensures i < 6 && GridSize(i) == s && GridColor(i) == c
  {
    (match s case Oz6 => 0 case Oz8 => 2 case Oz10 => 4) + (match c case Black => 0 case White => 1)
  }

  /** The layout every regular product of the table follows. */
  predicate GridLayout(rows: seq<Variant>) {
    |rows| == 6 && forall i :: 0 <= i < 6 ==> rows[i].size == GridSize(i) && rows[i].color == Some(GridColor(i))
  }

  /** The ids of a product's rows all start with that product's own stem. */
  predicate IdsStartWith(rows: seq<Variant>, stem: string) {
    forall i :: 0 <= i < |rows| ==> |stem| <= |rows[i].id| && rows[i].id[..|stem|] == stem
  }

  /** A stem such as "gourmet-": its only dash is its last character. */
  predicate DashStem(stem: string) {
    |stem| > 0 && stem[|stem| - 1] == '-' && forall k :: 0 <= k < |stem| - 1 ==> stem[k] != '-'
  }

  lemma GridLayoutOptions(rows: seq<Variant>)
    requires GridLayout(rows)
    ensures DistinctOptions(rows) && Coloured(rows) && FullGrid(rows)
  {
    forall i, j | 0 <= i < j < 6 ensures (rows[i].size, rows[i].color) != (rows[j].size, rows[j].color) {
      assert GridSize(i) != GridSize(j) || GridColor(i) != GridColor(j);
    }
    forall s: Size, c: Color ensures Offers(rows, s, c) {
      var i := GridIndex(s, c);
      assert rows[i].size == s && rows[i].color == Some(c);
    }
  }

  /** Ids that start with two different stems cannot be equal. */
  lemma {:induction false} DifferentStemsDifferentIds(id1: string, id2: string, stem1: string, stem2: string)
    requires DashStem(stem1) && DashStem(stem2) && stem1 != stem2
    requires |stem1| <= |id1| && id1[..|stem1|] == stem1
    requires |stem2| <= |id2| && id2[..|stem2|] == stem2
    ensures id1 != id2
  {
    if |stem1| < |stem2| {
      var k := |stem1| - 1;
      assert id1[k] == stem1[k] == '-';
      assert id2[k] == stem2[k] != '-';
    } else if |stem2| < |stem1| {
      var k := |stem2| - 1;
      assert id2[k] == stem2[k] == '-';
      assert id1[k] == stem1[k] != '-';
    } else {
      assert id1[..|stem1|] != id2[..|stem2|];
    }
  }


  // ---------------------------------------------------------------------------------------------
  // The table's constants, one property at a time

  lemma ConstantsPricedBySize()
    ensures PricedBySize(GourmetTreatRows)
    ensures PricedBySize(FirstLoveRows)
    ensures PricedBySize(FrazerFirRows)
    ensures PricedBySize(LavenderOasisRows)
    ensures PricedBySize(WoodzySpellRows)
    ensures PricedBySize(JamaicaMeCrazyRows)
    ensures PricedBySize(SweetCitrusMedleyRows)
    ensures PricedBySize(LittleMystery1Rows)
    ensures PricedBySize(PreciousMemoriesRows)
    ensures PricedBySize(FantasyBouquetRows)
    ensures PricedBySize(IcedMangoLassiRows)
    ensures PricedBySize(SheerKhurmaRows)
    ensures PricedBySize(IcedCoffeeEraRows)
  {}

  lemma RegularLayoutA()
    ensures GridLayout(GourmetTreatRows)
    ensures GridLayout(FirstLoveRows)
    ensures GridLayout(FrazerFirRows)
    ensures GridLayout(LavenderOasisRows)
    ensures GridLayout(WoodzySpellRows)
  {}

  lemma RegularLayoutB()
    ensures GridLayout(JamaicaMeCrazyRows)
    ensures GridLayout(SweetCitrusMedleyRows)
    ensures GridLayout(LittleMystery1Rows)
    ensures GridLayout(PreciousMemoriesRows)
    ensures GridLayout(FantasyBouquetRows)
  {}

  lemma RegularIdsDistinctA()
    ensures DistinctIds(GourmetTreatRows)
    ensures DistinctIds(FirstLoveRows)
    ensures DistinctIds(FrazerFirRows)
  {}

  lemma RegularIdsDistinctB()
    ensures DistinctIds(LavenderOasisRows)
    ensures DistinctIds(WoodzySpellRows)
    ensures DistinctIds(JamaicaMeCrazyRows)
  {}

  lemma RegularIdsDistinctC()
    ensures DistinctIds(SweetCitrusMedleyRows)
    ensures DistinctIds(LittleMystery1Rows)
  {}

  lemma RegularIdsDistinctD()
    ensures DistinctIds(PreciousMemoriesRows)
    ensures DistinctIds(FantasyBouquetRows)
  {}

  lemma StemsDashed()
    ensures DashStem("gourmet-")
    ensures DashStem("firstlove-")
    ensures DashStem("frazerfir-")
    ensures DashStem("lavender-")
    ensures DashStem("woodzy-")
    ensures DashStem("jamaica-")
    ensures DashStem("citrus-")
    ensures DashStem("lm1-")
    ensures DashStem("memories-")
    ensures DashStem("fantasy-")
    ensures DashStem("mango-")
    ensures DashStem("khurma-")
    ensures DashStem("coffee-")
  {}

  lemma IdStemsA()
    ensures IdsStartWith(GourmetTreatRows, "gourmet-")
    ensures IdsStartWith(FirstLoveRows, "firstlove-")
    ensures IdsStartWith(FrazerFirRows, "frazerfir-")
    ensures IdsStartWith(LavenderOasisRows, "lavender-")
  {}

  lemma IdStemsB()
    ensures IdsStartWith(WoodzySpellRows, "woodzy-")
    ensures IdsStartWith(JamaicaMeCrazyRows, "jamaica-")
    ensures IdsStartWith(SweetCitrusMedleyRows, "citrus-")
  {}

  lemma IdStemsC()
    ensures IdsStartWith(LittleMystery1Rows, "lm1-")
    ensures IdsStartWith(PreciousMemoriesRows, "memories-")
    ensures IdsStartWith(FantasyBouquetRows, "fantasy-")
  {}

  lemma IdStemsD()
    ensures IdsStartWith(IcedMangoLassiRows, "mango-")
    ensures IdsStartWith(SheerKhurmaRows, "khurma-")
    ensures IdsStartWith(IcedCoffeeEraRows, "coffee-")
  {}


  // ---------------------------------------------------------------------------------------------
  // The table as a whole

  lemma PriceDependsOnlyOnSize(slug: string)
    ensures PricedBySize(RowsFor(slug))
  {
    ConstantsPricedBySize();
  }

  lemma EveryRowColoured(slug: string)
    ensures Coloured(RowsFor(slug))
  {
    TableShape(slug);
    if slug in ProductVariants && slug !in SingleVariantSlugs {
      GridLayoutOptions(RowsFor(slug));
    }
  }

  /** Within a product, no (size, colour) option is listed twice. */
  lemma OptionsUnique(slug: string)
    ensures DistinctOptions(RowsFor(slug))
  {
    TableShape(slug);
    if slug in ProductVariants && slug !in SingleVariantSlugs {
      GridLayoutOptions(RowsFor(slug));
    }
  }

  /** A product with a choice offers all six 6/8/10 oz by black/white options. */
  lemma RegularProductsFullGrid(slug: string)
    requires |RowsFor(slug)| > 1
    ensures |RowsFor(slug)| == 6 && FullGrid(RowsFor(slug))
  {
    TableShape(slug);
    GridLayoutOptions(RowsFor(slug));
  }

  /** A slug's rows: none, the single option, or the regular six-option grid. */
  lemma TableShape(slug: string)
    ensures slug in ProductVariants ==> (|RowsFor(slug)| == 1 <==> slug in SingleVariantSlugs)
    ensures slug in ProductVariants && slug !in SingleVariantSlugs ==> GridLayout(RowsFor(slug))
  {
    RegularLayoutA();
    RegularLayoutB();
  }

  /**
   * The prefix the ids of a slug's rows share ("gourmet-" for "gourmet-treat"); the ids were written
   * by hand, so this is read off the table rather than computed from the slug.
   */
  ghost function IdStem(slug: string): string {
    if slug == "gourmet-treat" then "gourmet-"
    else if slug == "first-love" then "firstlove-"
    else if slug == "frazer-fir" then "frazerfir-"
    else if slug == "lavender-oasis" then "lavender-"
    else if slug == "woodzy-spell" then "woodzy-"
    else if slug == "jamaica-me-crazy" then "jamaica-"
    else if slug == "sweet-citrus-medley" then "citrus-"
    else if slug == "little-mystery-1" then "lm1-"
    else if slug == "precious-memories" then "memories-"
    else if slug == "fantasy-bouquet" then "fantasy-"
    else if slug == "iced-mango-lassi" then "mango-"
    else if slug == "sheer-khurma" then "khurma-"
    else if slug == "iced-coffee-era" then "coffee-"
    else ""
  }

  /** The slug a stem belongs to: the inverse of IdStem on the table's keys. */
  ghost function StemOwner(stem: string): string {
    if stem == "gourmet-" then "gourmet-treat"
    else if stem == "firstlove-" then "first-love"
    else if stem == "frazerfir-" then "frazer-fir"
    else if stem == "lavender-" then "lavender-oasis"
    else if stem == "woodzy-" then "woodzy-spell"
    else if stem == "jamaica-" then "jamaica-me-crazy"
    else if stem == "citrus-" then "sweet-citrus-medley"
    else if stem == "lm1-" then "little-mystery-1"
    else if stem == "memories-" then "precious-memories"
    else if stem == "fantasy-" then "fantasy-bouquet"
    else if stem == "mango-" then "iced-mango-lassi"
    else if stem == "khurma-" then "sheer-khurma"
    else if stem == "coffee-" then "iced-coffee-era"
    else ""
  }

  lemma IdStemOfKeyA(slug: string)
    requires slug == "gourmet-treat" || slug == "first-love" || slug == "frazer-fir" || slug == "lavender-oasis"
    ensures DashStem(IdStem(slug)) && IdsStartWith(ProductVariants[slug], IdStem(slug))
    ensures StemOwner(IdStem(slug)) == slug
  {
    IdStemsA();
    StemsDashed();
  }

  lemma IdStemOfKeyB(slug: string)
    requires slug == "woodzy-spell" || slug == "jamaica-me-crazy" || slug == "sweet-citrus-medley"
    ensures DashStem(IdStem(slug)) && IdsStartWith(ProductVariants[slug], IdStem(slug))
    ensures StemOwner(IdStem(slug)) == slug
  {
    IdStemsB();
    StemsDashed();
  }

  lemma IdStemOfKeyC(slug: string)
    requires slug == "little-mystery-1" || slug == "precious-memories" || slug == "fantasy-bouquet"
    ensures DashStem(IdStem(slug)) && IdsStartWith(ProductVariants[slug], IdStem(slug))
    ensures StemOwner(IdStem(slug)) == slug
  {
    IdStemsC();
    StemsDashed();
  }

  lemma IdStemOfKeyD(slug: string)
    requires slug == "iced-mango-lassi" || slug == "sheer-khurma" || slug == "iced-coffee-era"
    ensures DashStem(IdStem(slug)) && IdsStartWith(ProductVariants[slug], IdStem(slug))
    ensures StemOwner(IdStem(slug)) == slug
  {
    IdStemsD();
    StemsDashed();
  }

  lemma IdStemOfKey(slug: string)
    requires slug in ProductVariants
    ensures DashStem(IdStem(slug)) && IdsStartWith(ProductVariants[slug], IdStem(slug))
    ensures StemOwner(IdStem(slug)) == slug
  {
    if slug == "gourmet-treat" || slug == "first-love" || slug == "frazer-fir" || slug == "lavender-oasis" {
      IdStemOfKeyA(slug);
    } else if slug == "woodzy-spell" || slug == "jamaica-me-crazy" || slug == "sweet-citrus-medley" {
      IdStemOfKeyB(slug);
    } else if slug == "little-mystery-1" || slug == "precious-memories" || slug == "fantasy-bouquet" {
      IdStemOfKeyC(slug);
    } else {
      IdStemOfKeyD(slug);
    }
  }

  lemma IdsDistinctWithin(slug: string)
    ensures DistinctIds(RowsFor(slug))
  {
    RegularIdsDistinctA();
    RegularIdsDistinctB();
    RegularIdsDistinctC();
    RegularIdsDistinctD();
    TableShape(slug);
  }

  /** Every variant id occurs once in the whole table. */
  lemma IdsUnique(slug1: string, i: nat, slug2: string, j: nat)
    requires i < |RowsFor(slug1)| && j < |RowsFor(slug2)|
    requires slug1 != slug2 || i != j
    ensures RowsFor(slug1)[i].id != RowsFor(slug2)[j].id
  {
    if slug1 == slug2 {
      IdsDistinctWithin(slug1);
    } else {
      IdStemOfKey(slug1);
      IdStemOfKey(slug2);
      DifferentStemsDifferentIds(RowsFor(slug1)[i].id, RowsFor(slug2)[j].id, IdStem(slug1), IdStem(slug2));
    }
  }
}

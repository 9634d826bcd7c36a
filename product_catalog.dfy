/**
 * The product grid of components/ProductCatalog.tsx: the optional type/collection filter, the seven
 * section lists cut from the catalog, the merge that adds a line to the cart, and the per-card
 * quick-buy widget (`InlineQuickBuy`) with its own selection rules, price preview and cart lines.
 */
module ProductCatalog {
  import opened Options
  import opened ArrayOps
  import opened Products
  import opened Variants
  import opened VariantLogic
  import opened Cart
  import CatalogSlugs

  // ---------------------------------------------------------------------------------------------
  // Filter and sections

  /**
   * `{ types?, collections? }`. An absent filter behaves as one with neither field, so the grid's
   * `filter?.types` is `f.types` here with `NoFilter` for the absent case.
   */
  datatype CatalogFilter = CatalogFilter(types: Option<seq<ProductType>>, collections: Option<seq<CandleCollection>>)

  const NoFilter: CatalogFilter := CatalogFilter(None, None)

  /** `include(p)`, with its early returns in source order. */
  function Include(f: CatalogFilter, p: Product): (b: bool)
    ensures f == NoFilter ==> b
    ensures f.types.Some? && p.ptype !in f.types.value ==> !b
    ensures p.ptype == Candle && f.collections.Some? && p.collection.None? ==> !b
    ensures p.ptype != Candle ==> (b <==> f.types.None? || p.ptype in f.types.value)
    ensures b <==> (f.types.None? || p.ptype in f.types.value) &&
                   (p.ptype == Candle && f.collections.Some? ==> p.collection.Some? && p.collection.value in f.collections.value)
  {
    if f.types.Some? && p.ptype !in f.types.value then false
    else if p.ptype == Candle && f.collections.Some? then
      if p.collection.None? then false
      else if p.collection.value !in f.collections.value then false
      else true
    else true
  }

  /** The seven lists the grid renders, in page order. */
  datatype SectionKind = ClassicCandles | DessertCandles | WaxMelts | WaxSachets | Bags | Clutches | JewelrySection

  /** The guard of each section's `products.filter(...)` before `include(p)`. */
  predicate InSection(k: SectionKind, p: Product) {
    match k
    case ClassicCandles => p.ptype == Candle && p.collection == Some(Classic)
    case DessertCandles => p.ptype == Candle && p.collection == Some(Dessert)
    case WaxMelts => p.ptype == WaxMelt
    case WaxSachets => p.ptype == WaxSachet
    case Bags => p.ptype == Bag
    case Clutches => p.ptype == Clutch
    case JewelrySection => p.ptype == Jewelry
  }

  function SectionTest(f: CatalogFilter, k: SectionKind): Product -> bool {
    (p: Product) => InSection(k, p) && Include(f, p)
  }

  /** One section's dataset: the products of its kind that pass the filter, in catalog order. */
  function SectionItems(products: seq<Product>, f: CatalogFilter, k: SectionKind): (r: seq<Product>)
    ensures IsSubsequence(r, products)
    ensures forall q :: q in r ==> InSection(k, q) && Include(f, q) && q in products
    ensures forall j :: 0 <= j < |products| && InSection(k, products[j]) && Include(f, products[j]) ==> products[j] in r
  {
    var r := Filter(products, SectionTest(f, k));
    assert forall q :: q in r ==> InSection(k, q) && Include(f, q) && q in products by {
      forall q | q in r ensures InSection(k, q) && Include(f, q) && q in products {
        var i :| 0 <= i < |r| && r[i] == q;
        assert SectionTest(f, k)(r[i]);
      }
    }
    r
  }

  /** A product belongs to at most one section, so no product is listed twice on the page. */
  lemma SectionsDisjoint(products: seq<Product>, f: CatalogFilter, k1: SectionKind, k2: SectionKind, p: Product)
    requires k1 != k2
    ensures !(p in SectionItems(products, f, k1) && p in SectionItems(products, f, k2))
  {
  }

  /** A wax melter is shown by no section, whatever the filter: the grid has no list for that type. */
  lemma MeltersNeverListed(products: seq<Product>, f: CatalogFilter, k: SectionKind, p: Product)
    requires p.ptype == WaxMelters
    ensures p !in SectionItems(products, f, k)
  {
  }

  /**
   * With no filter, a catalog product is listed by some section exactly when it is not a wax
   * melter: every candle carries a collection, so it falls into the classic or the dessert list.
   */
  lemma CatalogCoverage(p: Product)
    requires p in Catalog
    ensures (exists k :: p in SectionItems(Catalog, NoFilter, k)) <==> p.ptype != WaxMelters
  {
    CatalogSlugs.OnlyCandlesHaveCollection(p);
    var j :| 0 <= j < |Catalog| && Catalog[j] == p;
    if p.ptype != WaxMelters {
      var k := SectionOfType(p);
      assert InSection(k, Catalog[j]) && Include(NoFilter, Catalog[j]);
      assert p in SectionItems(Catalog, NoFilter, k);
    } else {
      forall k ensures p !in SectionItems(Catalog, NoFilter, k) {
        MeltersNeverListed(Catalog, NoFilter, k, p);
      }
    }
  }

  /** The section a listable product belongs to. */
  function SectionOfType(p: Product): (k: SectionKind)
    requires p.ptype != WaxMelters
    requires p.ptype == Candle ==> p.collection.Some?
    ensures InSection(k, p)
  {
    match p.ptype
    case Candle =>
      if p.collection == Some(Classic) then ClassicCandles
      else
        assert p.collection.value.Dessert?;
        DessertCandles
    case WaxMelt => WaxMelts
    case WaxSachet => WaxSachets
    case Bag => Bags
    case Clutch => Clutches
    case Jewelry => JewelrySection
  }

  /** `onlyCandles`: the types filter is present, has one entry, and that entry is `"candle"`. */
  function OnlyCandles(f: CatalogFilter): (b: bool)
    ensures b <==> f.types == Some([Candle])
  {
    if f.types.Some? && |f.types.value| == 1 && f.types.value[0] == Candle then
      assert f.types.value == [Candle];
      true
    else false
  }

  predicate CandleSection(k: SectionKind) {
    k == ClassicCandles || k == DessertCandles
  }

  /** Whether a section is rendered: non-empty, and for the non-candle ones also `!onlyCandles`. */
  function Shown(products: seq<Product>, f: CatalogFilter, k: SectionKind): bool {
    |SectionItems(products, f, k)| > 0 && (CandleSection(k) || !OnlyCandles(f))
  }

  /**
   * The `!onlyCandles` guard never hides anything: under a candles-only filter the non-candle lists
   * are already empty, so a section is shown exactly when it has items.
   */
  lemma OnlyCandlesGuardRedundant(products: seq<Product>, f: CatalogFilter, k: SectionKind)
    ensures OnlyCandles(f) && !CandleSection(k) ==> SectionItems(products, f, k) == []
    ensures Shown(products, f, k) <==> |SectionItems(products, f, k)| > 0
  {
    if OnlyCandles(f) && !CandleSection(k) {
      forall j | 0 <= j < |products| ensures !SectionTest(f, k)(products[j]) {
        if InSection(k, products[j]) {
          assert products[j].ptype != Candle;
        }
      }
      FilterAllOrNothing(products, SectionTest(f, k));
    }
  }

  // ---------------------------------------------------------------------------------------------
  // Cart lines

  /** The colour part of a line id: the colour's name, or `"default"` when there is none. */
  function ColorPart(c: Option<Color>): string {
    if c.Some? then ColorName(c.value) else "default"
  }

  /** `${slug}-${size}-${color ?? "default"}` */
  function LineId(slug: string, size: Size, color: Option<Color>): string {
    (slug + "-") + IdSuffix(size, color)
  }

  function IdSuffix(size: Size, color: Option<Color>): string {
    SizeName(size) + "-" + ColorPart(color)
  }

  /** Within one product, different (size, colour) choices give different line ids. */
  lemma LineIdInjective(slug: string, s1: Size, c1: Option<Color>, s2: Size, c2: Option<Color>)
    requires LineId(slug, s1, c1) == LineId(slug, s2, c2)
    ensures s1 == s2 && c1 == c2
  {
    PrefixCancel(slug + "-", IdSuffix(s1, c1), IdSuffix(s2, c2));
    SuffixInjective(s1, c1, s2, c2);
  }

  lemma PrefixCancel(a: string, t1: string, t2: string)
    requires a + t1 == a + t2
    ensures t1 == t2
  {
    assert t1 == (a + t1)[|a|..];
    assert t2 == (a + t2)[|a|..];
  }

  /** The size name starts the suffix and fixes its length; the colour part's first letter tells the colours apart. */
  lemma SuffixInjective(s1: Size, c1: Option<Color>, s2: Size, c2: Option<Color>)
    requires IdSuffix(s1, c1) == IdSuffix(s2, c2)
    ensures s1 == s2 && c1 == c2
  {
    var t1, t2 := IdSuffix(s1, c1), IdSuffix(s2, c2);
    SizeNameHead(s1);
    SizeNameHead(s2);
    assert t1[0] == SizeName(s1)[0] && t2[0] == SizeName(s2)[0];
    var m := |SizeName(s1)| + 1;
    assert t1[m..] == ColorPart(c1);
    assert s1 == s2;
    assert t2[m..] == ColorPart(c2);
    ColorPartHead(c1);
    ColorPartHead(c2);
    assert ColorPart(c1)[0] == t1[m] && ColorPart(c2)[0] == t2[m];
  }

  lemma SizeNameHead(s: Size)
    ensures |SizeName(s)| > 0
    ensures SizeName(s)[0] == (match s case Oz6 => '6' case Oz8 => '8' case Oz10 => '1')
  {
  }

  lemma ColorPartHead(c: Option<Color>)
    ensures |ColorPart(c)| > 0
    ensures ColorPart(c)[0] == (if c == Some(Black) then 'b' else if c == Some(White) then 'w' else 'd')
  {
  }

  /**
   * `onAdd(item)`: copy the lines, add `item.qty` to the line with the same id or push `item`,
   * store the result, then open the cart drawer.
   */
  method OnAdd(cart: CartStore, item: Line)
    modifies cart
    ensures cart.items == Merged(old(cart.items), item) && cart.open && cart.Persisted()
    ensures UniqueIds(old(cart.items)) ==> UniqueIds(cart.items)
  {
    if UniqueIds(cart.items) {
      MergedKeepsUnique(cart.items, item);
    }
    var next := cart.items;
    var i := IndexOf(next, item.id);
    if i.Some? {
      next := next[i.value := next[i.value].(qty := next[i.value].qty + item.qty)];
    } else {
      next := next + [item];
    }
    cart.SetItems(next);
    cart.OpenCart();
  }

  // ---------------------------------------------------------------------------------------------
  // The quick-buy widget's rules, on values

  /** The widget's first state: the first row's size, and its colour when the product has colours. */
  function InitialChoice(rows: seq<Variant>): (r: Selection)
    ensures r == FirstValidSelection(rows)
  {
    Selection(if |rows| > 0 then Some(rows[0].size) else None,
              if HasContainer(rows) && |rows| > 0 then rows[0].color else None)
  }

  /**
   * The effect run when the product's slug changes: keep an offered size, else take the first
   * row's; the colour is that of the first row of the size held before this update (or of the
   * first row's size), falling back to the first row's colour.
   */
  function Synced(rows: seq<Variant>, sel: Selection): (r: Selection)
    ensures |rows| == 0 ==> r == sel
    ensures |rows| > 0 ==> r.size.Some? && OffersSize(rows, r.size.value)
    ensures |rows| > 0 && sel.size.Some? && OffersSize(rows, sel.size.value) ==> r.size == sel.size
    ensures |rows| > 0 && !HasContainer(rows) ==> r.color.None?
    ensures |rows| > 0 && Coloured(rows) ==> r.color.Some? && OffersPair(rows, r.size.value, r.color.value)
  {
    if |rows| == 0 then sel
    else
      var first := rows[0];
      var keep := sel.size.Some? && Any(rows, HasSize(sel.size.value));
      var size := if keep then sel.size.value else first.size;
      var lookup := if sel.size.Some? then sel.size.value else first.size;
      var found := Find(rows, HasSize(lookup));
      var color := if !HasContainer(rows) then None
                   else if found.Some? && found.value.color.Some? then found.value.color
                   else first.color;
      assert found.Some? && sel.size.Some? ==> keep by {
        if found.Some? && sel.size.Some? {
          var i :| 0 <= i < |rows| && rows[i] == found.value;
          assert HasSize(lookup)(rows[i]);
        }
      }
      assert keep ==> found.Some? by {
        if keep {
          var i :| 0 <= i < |rows| && HasSize(sel.size.value)(rows[i]);
          assert HasSize(lookup)(rows[i]);
        }
      }
      assert Coloured(rows) ==> OffersPair(rows, size, color.value) by {
        if Coloured(rows) {
          if found.Some? {
            var i :| 0 <= i < |rows| && rows[i] == found.value;
            assert rows[i].size == size && rows[i].color == color;
          } else {
            assert rows[0].size == size && rows[0].color == color;
          }
        }
      }
      Selection(Some(size), color)
  }

  /**
   * The colour the resync takes on a product whose rows all name a colour: that of the first row of
   * the size held before, when that size is offered, whatever colour was chosen; otherwise the first
   * row's colour.
   */
  lemma SyncedColour(rows: seq<Variant>, sel: Selection)
    requires |rows| > 0 && Coloured(rows)
    ensures sel.size.Some? && OffersSize(rows, sel.size.value) ==> FirstColorOfSize(rows, sel.size.value, Synced(rows, sel).color)
    ensures !(sel.size.Some? && OffersSize(rows, sel.size.value)) ==> Synced(rows, sel).color == rows[0].color
  {
    assert HasContainer(rows) by {
      assert rows[0].color.Some?;
    }
    var lookup := if sel.size.Some? then sel.size.value else rows[0].size;
    var i := FindIndex(rows, HasSize(lookup));
    if i.Some? {
      FindFirst(rows, HasSize(lookup), i.value);
      assert rows[i.value].color.Some?;
      forall j | 0 <= j < i.value ensures rows[j].size != lookup {
        assert !HasSize(lookup)(rows[j]);
      }
      if sel.size.None? {
        FindFirst(rows, HasSize(lookup), 0);
      }
    }
  }

  /** On mount the effect finds the widget's first state already valid and leaves it alone. */
  lemma MountSyncNoChange(rows: seq<Variant>)
    ensures Synced(rows, InitialChoice(rows)) == InitialChoice(rows)
  {
    if |rows| > 0 {
      FindFirst(rows, HasSize(rows[0].size), 0);
      assert Any(rows, HasSize(rows[0].size));
      if !HasContainer(rows) {
        assert rows[0].color.None?;
      }
    }
  }

  /**
   * `chosenVariant`: nothing for a product without rows; with a size and a colour (on a product with
   * colours) the first exact row, with a size on a colourless product the first row of that size,
   * and the first row whenever that search fails or the choice is incomplete.
   */
  function PanelChoice(rows: seq<Variant>, sel: Selection): (r: Option<Variant>)
    ensures r.None? <==> |rows| == 0
    ensures r.Some? ==> r.value in rows
    ensures sel.size.Some? && sel.color.Some? && HasContainer(rows) && OffersPair(rows, sel.size.value, sel.color.value) ==>
      r.value.size == sel.size.value && r.value.color == sel.color
    ensures sel.size.Some? && !HasContainer(rows) && OffersSize(rows, sel.size.value) ==> r.value.size == sel.size.value
    ensures |rows| > 0 && (sel.size.None? || (HasContainer(rows) && sel.color.None?)) ==> r == Some(rows[0])
    ensures sel.size.Some? && sel.color.Some? && HasContainer(rows) && !OffersPair(rows, sel.size.value, sel.color.value) ==>
      r == Some(rows[0])
    ensures |rows| > 0 && sel.size.Some? && !HasContainer(rows) && !OffersSize(rows, sel.size.value) ==> r == Some(rows[0])
  {
    if |rows| == 0 then None
    else if sel.size.Some? && HasContainer(rows) && sel.color.Some? then
      var f := Find(rows, IsPair(sel.size.value, sel.color.value));
      assert OffersPair(rows, sel.size.value, sel.color.value) ==> f.Some? by {
        if OffersPair(rows, sel.size.value, sel.color.value) {
          var i :| 0 <= i < |rows| && rows[i].size == sel.size.value && rows[i].color == sel.color;
          assert IsPair(sel.size.value, sel.color.value)(rows[i]);
        }
      }
      Some(f.GetOr(rows[0]))
    else if sel.size.Some? && !HasContainer(rows) then
      var f := Find(rows, HasSize(sel.size.value));
      assert OffersSize(rows, sel.size.value) ==> f.Some? by {
        if OffersSize(rows, sel.size.value) {
          var i :| 0 <= i < |rows| && rows[i].size == sel.size.value;
          assert HasSize(sel.size.value)(rows[i]);
        }
      }
      Some(f.GetOr(rows[0]))
    else Some(rows[0])
  }

  /** The first exact row is the one chosen. */
  lemma PanelChoiceFirst(rows: seq<Variant>, s: Size, c: Color, i: nat)
    requires i < |rows| && rows[i].size == s && rows[i].color == Some(c)
    requires forall j :: 0 <= j < i ==> !(rows[j].size == s && rows[j].color == Some(c))
    ensures PanelChoice(rows, Selection(Some(s), Some(c))) == Some(rows[i])
  {
    assert HasContainer(rows) by {
      assert rows[i].color.Some?;
    }
    FindFirst(rows, IsPair(s, c), i);
  }

  /**
   * The choice names a row the widget's searches find: an offered (size, colour) pair on a product
   * with colours, an offered size on one without.
   */
  predicate PanelMatches(rows: seq<Variant>, sel: Selection) {
    sel.size.Some? &&
    if HasContainer(rows) then sel.color.Some? && OffersPair(rows, sel.size.value, sel.color.value)
    else OffersSize(rows, sel.size.value)
  }

  /** `chosenVariant?.price ?? 3500` */
  function PanelPrice(rows: seq<Variant>, sel: Selection): (price: int)
    ensures |rows| == 0 ==> price == 3500
    ensures |rows| > 0 ==> exists i :: 0 <= i < |rows| && rows[i].price == price
    ensures PanelMatches(rows, sel) && HasContainer(rows) ==>
      exists i :: 0 <= i < |rows| && rows[i].size == sel.size.value && rows[i].color == sel.color && rows[i].price == price
    ensures PanelMatches(rows, sel) && !HasContainer(rows) ==>
      exists i :: 0 <= i < |rows| && rows[i].size == sel.size.value && rows[i].price == price
    ensures |rows| > 0 && !PanelMatches(rows, sel) ==> price == rows[0].price
  {
    var v := PanelChoice(rows, sel);
    if v.Some? then
      var i :| 0 <= i < |rows| && rows[i] == v.value;
      v.value.price
    else 3500
  }

  /** On the table's data the preview is the unified price of some offered size. */
  lemma PanelPriceBySize(slug: string, sel: Selection)
    requires slug in ProductVariants
    ensures exists s :: PanelPrice(RowsFor(slug), sel) == SizePrice(s)
  {
    PriceDependsOnlyOnSize(slug);
    TableShape(slug);
    var rows := RowsFor(slug);
    var i :| 0 <= i < |rows| && rows[i].price == PanelPrice(rows, sel);
    assert PanelPrice(rows, sel) == SizePrice(rows[i].size);
  }

  /** On the table's data an offered (size, colour) pair previews exactly its size's unified price. */
  lemma PanelPriceOnTable(slug: string, s: Size, c: Color)
    requires OffersPair(RowsFor(slug), s, c)
    ensures PanelPrice(RowsFor(slug), Selection(Some(s), Some(c))) == SizePrice(s)
  {
    PriceDependsOnlyOnSize(slug);
    var rows := RowsFor(slug);
    var sel := Selection(Some(s), Some(c));
    assert HasContainer(rows) by {
      var k :| 0 <= k < |rows| && rows[k].size == s && rows[k].color == Some(c);
      assert rows[k].color.Some?;
    }
    assert PanelMatches(rows, sel);
    var i :| 0 <= i < |rows| && rows[i].size == s && rows[i].color == Some(c) && rows[i].price == PanelPrice(rows, sel);
  }

  /** `ready`: a size is chosen and, on a product with colours, a colour too. */
  predicate PanelReady(rows: seq<Variant>, sel: Selection) {
    sel.size.Some? && (!HasContainer(rows) || sel.color.Some?)
  }

  /**
   * On a product whose rows all name a colour, a ready choice the searches find is exactly a complete
   * choice the canonical rules resolve, and both pick the same row.
   */
  lemma ReadyMeansResolved(rows: seq<Variant>, sel: Selection)
    requires |rows| > 0 && Coloured(rows)
    ensures PanelReady(rows, sel) && PanelMatches(rows, sel) <==>
      sel.size.Some? && sel.color.Some? && FindVariant(rows, sel).Some?
    ensures PanelReady(rows, sel) && PanelMatches(rows, sel) ==> PanelChoice(rows, sel) == FindVariant(rows, sel)
  {
    assert HasContainer(rows) by {
      assert rows[0].color.Some?;
    }
    if sel.size.Some? && sel.color.Some? {
      var s, c := sel.size.value, sel.color.value;
      if FindVariant(rows, sel).Some? {
        var i :| 0 <= i < |rows| && rows[i] == FindVariant(rows, sel).value;
        assert rows[i].color.Some?;
        assert rows[i].size == s && rows[i].color == Some(c);
      }
      if OffersPair(rows, s, c) {
        PanelChoiceAgreesWithFindVariant(rows, s, c);
      }
    }
  }

  /** Every product the table lists opens ready, on its first row, which the panel would add. */
  lemma StartsReady(slug: string)
    requires |RowsFor(slug)| > 0
    ensures PanelReady(RowsFor(slug), InitialChoice(RowsFor(slug)))
    ensures PanelMatches(RowsFor(slug), InitialChoice(RowsFor(slug)))
    ensures PanelChoice(RowsFor(slug), InitialChoice(RowsFor(slug))) == Some(RowsFor(slug)[0])
  {
    var rows := RowsFor(slug);
    EveryRowColoured(slug);
    assert rows[0].color.Some?;
    PanelChoiceFirst(rows, rows[0].size, rows[0].color.value, 0);
  }

  /**
   * Little Mystery 2 and 3 are classic candles, so their card opens the panel, but the table has no
   * rows for them: nothing is ever chosen, whatever the shopper clicks.
   */
  lemma MysteryCandlesCannotBeAdded(p: Product, sel: Selection)
    requires p == LittleMystery2 || p == LittleMystery3
    ensures p.ptype == Candle && p.collection == Some(Classic)
    ensures RowsFor(ProductSlug(p)) == []
    ensures PanelChoice(RowsFor(ProductSlug(p)), sel).None?
  {
    CatalogSlugs.MysteryCandlesUnlisted();
  }

  /**
   * Where the canonical rules and the widget agree: a complete choice naming an existing row picks
   * the same row in both.
   */
  lemma PanelChoiceAgreesWithFindVariant(rows: seq<Variant>, s: Size, c: Color)
    requires Coloured(rows) && OffersPair(rows, s, c)
    ensures PanelChoice(rows, Selection(Some(s), Some(c))) == FindVariant(rows, Selection(Some(s), Some(c)))
  {
    var sel := Selection(Some(s), Some(c));
    var i := FindIndex(rows, IsPair(s, c));
    assert i.Some? by {
      var k :| 0 <= k < |rows| && rows[k].size == s && rows[k].color == Some(c);
      assert IsPair(s, c)(rows[k]);
    }
    PanelChoiceFirst(rows, s, c, i.value);
    forall j | 0 <= j < i.value ensures !Matches(rows[j], sel) {
      assert !IsPair(s, c)(rows[j]);
      assert rows[j].color.Some?;
    }
    FindVariantFirst(rows, sel, i.value);
  }

  /**
   * Where they disagree: a size the product does not offer resolves to nothing under the canonical
   * rules, while the widget silently falls back to the first row.
   */
  lemma PanelChoiceFallsBack(rows: seq<Variant>, s: Size, c: Color)
    requires |rows| > 0 && HasContainer(rows) && !OffersSize(rows, s)
    ensures FindVariant(rows, Selection(Some(s), Some(c))).None?
    ensures PanelChoice(rows, Selection(Some(s), Some(c))) == Some(rows[0])
  {
    assert !OffersPair(rows, s, c);
  }

  /** The qty input: `Math.max(1, Math.min(10, Number(v) || 1))`, with `None` for a value that is not a number. */
  function ClampQty(raw: Option<int>): (q: int)
    ensures 1 <= q <= 10
    ensures raw.Some? && 1 <= raw.value <= 10 ==> q == raw.value
    ensures raw.Some? && raw.value > 10 ==> q == 10
    ensures (raw.None? || raw.value < 1) ==> q == 1
  {
    var n := if raw.None? || raw.value == 0 then 1 else raw.value;
    var capped := if n < 10 then n else 10;
    if capped > 1 then capped else 1
  }

  // ---------------------------------------------------------------------------------------------
  // The widget

  /** One card's `InlineQuickBuy`: the product it sells and its panel state. */
  class InlineQuickBuy {
    var product: Product
    /** `productVariants[slug] ?? []` for the product's slug. */
    var rows: seq<Variant>
    var open: bool
    var size: Option<Size>
    var color: Option<Color>
    var qty: int

    predicate Valid()
      reads this
    {
      rows == RowsFor(ProductSlug(product)) && 1 <= qty <= 10
    }

    function Choice(): Selection
      reads this
    {
      Selection(size, color)
    }

    function Slug(): string
      reads this
    {
      ProductSlug(product)
    }

    /** Only classic candles open the panel; every other product is added at once. */
    function OpensPanel(): bool
      reads this
    {
      product.ptype == Candle && product.collection == Some(Classic)
    }

    /** The state a freshly mounted card has: panel closed, one unit, the first row's options. */
    predicate AtMount()
      reads this
    {
      !open && qty == 1 && Choice() == FirstValidSelection(rows)
    }

    constructor (p: Product)
      ensures product == p && Valid()
      ensures !open && qty == 1
      ensures Choice() == FirstValidSelection(rows)
    {
      var rs := RowsFor(ProductSlug(p));
      product, rows := p, rs;
      open := false;
      size := InitialChoice(rs).size;
      color := InitialChoice(rs).color;
      qty := 1;
    }

    /**
     * A new product prop: the rows are looked up again and, when the slug changes, the effect
     * re-validates the selection; with the same slug the effect does not run.
     */
    method ChangeProduct(p: Product)
      requires Valid()
      modifies this`product, this`rows, this`size, this`color
      ensures product == p && Valid()
      ensures ProductSlug(p) != old(Slug()) ==> Choice() == Synced(rows, old(Choice()))
      ensures ProductSlug(p) == old(Slug()) ==> Choice() == old(Choice())
    {
      var before := Slug();
      product := p;
      rows := RowsFor(ProductSlug(p));
      if ProductSlug(p) != before {
        var r := Synced(rows, Choice());
        size, color := r.size, r.color;
      }
    }

    /**
     * The card is mounted afresh. `Section` is declared inside `ProductCatalog`, which reads the cart
     * context, and the provider hands out a new value on every render, so every change of the cart
     * remounts every card; the mount effect then leaves the first state alone.
     */
    method Remount()
      modifies this`open, this`size, this`color, this`qty
      ensures AtMount() && Synced(rows, Choice()) == Choice()
    {
      open := false;
      qty := 1;
      size, color := InitialChoice(rows).size, InitialChoice(rows).color;
      MountSyncNoChange(rows);
    }

    /** The line `addInstant` adds: the first row, or the 10 oz fallback at 3500 without rows. */
    function InstantLine(): Line
      reads this
    {
      if |rows| > 0 then Line(LineId(Slug(), rows[0].size, rows[0].color), ProductDisplayName(product), rows[0].price, 1)
      else Line(LineId(Slug(), Oz10, None), ProductDisplayName(product), 3500, 1)
    }

    /** The line `addFromPanel` adds for a chosen row; the colour part is `"default"` on a colourless product. */
    function PanelLine(v: Variant): Line
      reads this
    {
      Line(LineId(Slug(), v.size, if HasContainer(rows) then v.color else None), ProductDisplayName(product), v.price, qty)
    }

    /**
     * For a product with rows the instant add is the panel's add of the first row with quantity 1,
     * so both paths merge into one cart line.
     */
    lemma InstantMatchesPanel()
      requires |rows| > 0
      ensures InstantLine() == PanelLine(rows[0]).(qty := 1)
    {
      if !HasContainer(rows) {
        assert !rows[0].color.Some?;
      }
    }

    /** On a product with colours, two panel adds merge into one line exactly when they chose the same option. */
    lemma PanelLinesMerge(v: Variant, w: Variant)
      requires HasContainer(rows)
      ensures PanelLine(v).id == PanelLine(w).id <==> v.size == w.size && v.color == w.color
    {
      if PanelLine(v).id == PanelLine(w).id {
        LineIdInjective(Slug(), v.size, v.color, w.size, w.color);
      }
    }

    /** `addInstant`: merge the instant line; the cart change then remounts the card. */
    method AddInstant(cart: CartStore)
      modifies cart, this`open, this`size, this`color, this`qty
      ensures cart.items == Merged(old(cart.items), InstantLine()) && cart.open && cart.Persisted()
      ensures AtMount()
    {
      OnAdd(cart, InstantLine());
      Remount();
    }

    /**
     * Adds the chosen row with the panel's quantity and closes the panel; does nothing unless ready.
     * The cart change then remounts the card, which forgets the panel's choice and quantity.
     */
    method AddFromPanel(cart: CartStore)
      modifies cart, this`open, this`size, this`color, this`qty
      ensures !old(PanelReady(rows, Choice())) || |rows| == 0 ==> unchanged(cart) && unchanged(this)
      ensures old(PanelReady(rows, Choice())) && |rows| > 0 ==>
        cart.items == Merged(old(cart.items), old(PanelLine(PanelChoice(rows, Choice()).value))) &&
        cart.open && cart.Persisted() && AtMount()
    {
      var v := PanelChoice(rows, Choice());
      if !PanelReady(rows, Choice()) || v.None? {
        return;
      }
      OnAdd(cart, PanelLine(v.value));
      open := false;
      Remount();
    }

    /** "Buy now": classic candles toggle the panel, everything else is added at once. */
    method BuyClick(cart: CartStore)
      modifies cart, this`open, this`size, this`color, this`qty
      ensures OpensPanel() ==> open == !old(open) && Choice() == old(Choice()) && qty == old(qty) && unchanged(cart)
      ensures !OpensPanel() ==>
        cart.items == Merged(old(cart.items), InstantLine()) && cart.open && cart.Persisted() && AtMount()
    {
      if !OpensPanel() {
        AddInstant(cart);
      } else {
        open := !open;
      }
    }

    /** A size button: take that size and, on a product with colours, the colour of its first row. */
    method ClickSize(s: Size)
      modifies this`size, this`color
      ensures size == Some(s)
      ensures !HasContainer(rows) ==> color == old(color)
      ensures HasContainer(rows) && !OffersSize(rows, s) ==> color.None?
      ensures HasContainer(rows) && OffersSize(rows, s) ==> FirstColorOfSize(rows, s, color)
      ensures Coloured(rows) && OffersSize(rows, s) ==> color.Some? && OffersPair(rows, s, color.value)
      ensures Coloured(rows) && OffersSize(rows, s) ==> PanelReady(rows, Choice()) && PanelMatches(rows, Choice())
    {
      size := Some(s);
      if HasContainer(rows) {
        var i := FindIndex(rows, HasSize(s));
        color := if i.Some? then rows[i.value].color else None;
        if i.Some? {
          assert FirstColorOfSize(rows, s, color) by {
            forall j | 0 <= j < i.value ensures rows[j].size != s {
              assert !HasSize(s)(rows[j]);
            }
          }
        }
        assert OffersSize(rows, s) ==> i.Some? by {
          if OffersSize(rows, s) {
            var k :| 0 <= k < |rows| && rows[k].size == s;
            assert HasSize(s)(rows[k]);
          }
        }
      }
    }

    /** A colour button: taken only when the product offers it in the chosen size. */
    method ClickColor(c: Color)
      modifies this`color
      ensures size.Some? && OffersPair(rows, size.value, c) ==> color == Some(c)
      ensures !(size.Some? && OffersPair(rows, size.value, c)) ==> color == old(color)
    {
      if size.Some? && Any(rows, IsPair(size.value, c)) {
        color := Some(c);
      }
      assert size.Some? && OffersPair(rows, size.value, c) ==> Any(rows, IsPair(size.value, c)) by {
        if size.Some? && OffersPair(rows, size.value, c) {
          var k :| 0 <= k < |rows| && rows[k].size == size.value && rows[k].color == Some(c);
          assert IsPair(size.value, c)(rows[k]);
        }
      }
    }

    method SetQty(raw: Option<int>)
      modifies this`qty
      ensures qty == ClampQty(raw) && 1 <= qty <= 10
    {
      qty := ClampQty(raw);
    }

    method ClosePanel()
      modifies this`open
      ensures !open
    {
      open := false;
    }
  }
}

/**
 * components/QuickBuySheet.tsx: the buy-now panel opened from a product card by product name. It keeps
 * its own copy of the selection rules: a repair step run when the product changes, a price preview,
 * a readiness test, the add-to-cart merge, the instant add for single-row products, and size clicks.
 */
module QuickBuySheet {
  import opened Options
  import opened ArrayOps
  import opened Products
  import opened Variants
  import opened VariantLogic
  import opened Cart
  import opened ProductCatalog

  /** The first selection: the first row's size and colour, or `{}` for a product without rows. */
  function InitialSelection(rows: seq<Variant>): (r: Selection)
    ensures r == FirstValidSelection(rows)
    ensures |rows| > 0 ==> FindVariant(rows, r) == Some(rows[0])
  {
    if |rows| > 0 then
      FirstValidSelectionResolves(rows);
      Selection(Some(rows[0].size), rows[0].color)
    else NoSelection
  }

  /** `rows.find(r => r.size === s)?.color` */
  function FirstColorFor(rows: seq<Variant>, s: Size): (c: Option<Color>)
    ensures OffersSize(rows, s) ==> FirstColorOfSize(rows, s, c)
    ensures !OffersSize(rows, s) ==> c.None?
  {
    var i := FindIndex(rows, HasSize(s));
    if i.Some? then
      assert FirstColorOfSize(rows, s, rows[i.value].color) by {
        forall j | 0 <= j < i.value ensures rows[j].size != s {
          assert !HasSize(s)(rows[j]);
        }
      }
      rows[i.value].color
    else
      assert !OffersSize(rows, s) by {
        forall j | 0 <= j < |rows| ensures rows[j].size != s {
          assert !HasSize(s)(rows[j]);
        }
      }
      None
  }

  /** The colour of the first row of a size is determined by the rows. */
  lemma FirstColorOfSizeUnique(rows: seq<Variant>, s: Size, c1: Option<Color>, c2: Option<Color>)
    requires FirstColorOfSize(rows, s, c1) && FirstColorOfSize(rows, s, c2)
    ensures c1 == c2
  {
    var i :| 0 <= i < |rows| && rows[i].size == s && rows[i].color == c1 && forall j :: 0 <= j < i ==> rows[j].size != s;
    var k :| 0 <= k < |rows| && rows[k].size == s && rows[k].color == c2 && forall j :: 0 <= j < k ==> rows[j].size != s;
    assert !(i < k) && !(k < i);
  }

  /**
   * The repair effect: keep an offered size, else take the first row's; keep the previous colour when
   * the product offers it in that size, else take the colour of the size's first row.
   */
  function Repaired(rows: seq<Variant>, prev: Selection): (r: Selection)
    ensures |rows| == 0 ==> r == prev
    ensures |rows| > 0 ==> r.size.Some? && OffersSize(rows, r.size.value)
    ensures |rows| > 0 && prev.size.Some? && OffersSize(rows, prev.size.value) ==> r.size == prev.size
    ensures |rows| > 0 && !(prev.size.Some? && OffersSize(rows, prev.size.value)) ==> r.size == Some(rows[0].size)
    ensures |rows| > 0 && !HasContainer(rows) ==> r.color.None?
    ensures |rows| > 0 && HasContainer(rows) && prev.color.Some? && OffersPair(rows, r.size.value, prev.color.value) ==>
      r.color == prev.color
    ensures |rows| > 0 && HasContainer(rows) && !(prev.color.Some? && OffersPair(rows, r.size.value, prev.color.value)) ==>
      FirstColorOfSize(rows, r.size.value, r.color)
  {
    if |rows| == 0 then prev
    else
      var size := if prev.size.Some? && OffersSize(rows, prev.size.value) then prev.size.value else rows[0].size;
      assert OffersSize(rows, size) by {
        if !(prev.size.Some? && OffersSize(rows, prev.size.value)) {
          assert rows[0].size == size;
        }
      }
      var color := if !HasContainer(rows) then None
                   else if prev.color.Some? && OffersPair(rows, size, prev.color.value) then prev.color
                   else FirstColorFor(rows, size);
      Selection(Some(size), color)
  }

  /** On mount the repair effect finds the first row's selection already valid and leaves it alone. */
  lemma MountRepairNoChange(rows: seq<Variant>)
    ensures Repaired(rows, FirstValidSelection(rows)) == FirstValidSelection(rows)
  {
    if |rows| > 0 {
      var first := FirstValidSelection(rows);
      assert OffersSize(rows, rows[0].size);
      if HasContainer(rows) {
        if rows[0].color.Some? {
          assert OffersPair(rows, rows[0].size, rows[0].color.value);
        } else {
          assert FirstColorOfSize(rows, rows[0].size, rows[0].color);
          FirstColorOfSizeUnique(rows, rows[0].size, rows[0].color, Repaired(rows, first).color);
        }
      }
    }
  }

  /**
   * The two resyncs differ on the colour: when the product offers the chosen size in the chosen
   * colour but that colour is not the size's first, the catalog card's effect drops it while this
   * panel's repair keeps it.
   */
  lemma SyncedDropsColourRepairedKeeps(rows: seq<Variant>, s: Size, c: Color)
    requires Coloured(rows) && OffersPair(rows, s, c) && !FirstColorOfSize(rows, s, Some(c))
    ensures Synced(rows, Selection(Some(s), Some(c))).color != Some(c)
    ensures Repaired(rows, Selection(Some(s), Some(c))).color == Some(c)
  {
    var sel := Selection(Some(s), Some(c));
    assert OffersSize(rows, s);
    SyncedColour(rows, sel);
    assert HasContainer(rows) by {
      assert rows[0].color.Some?;
    }
  }

  /** On a product with rows, every one coloured, the repaired selection is ready and names an offered option. */
  lemma RepairedReady(rows: seq<Variant>, prev: Selection)
    requires |rows| > 0 && Coloured(rows)
    ensures PanelReady(rows, Repaired(rows, prev)) && PanelMatches(rows, Repaired(rows, prev))
  {
    var r := Repaired(rows, prev);
    assert HasContainer(rows) by {
      assert rows[0].color.Some?;
    }
    if !(prev.color.Some? && OffersPair(rows, r.size.value, prev.color.value)) {
      var k :| 0 <= k < |rows| && rows[k].size == r.size.value && rows[k].color == r.color && forall j :: 0 <= j < k ==> rows[j].size != r.size.value;
      assert rows[k].color.Some?;
    }
  }

  /**
   * Where the repair and the canonical coercion agree: with every row coloured, a selection naming an
   * offered size and some colour is repaired exactly as `coerceSelection` repairs it.
   */
  lemma RepairAgreesWithCoerce(rows: seq<Variant>, prev: Selection)
    requires Coloured(rows) && prev.size.Some? && OffersSize(rows, prev.size.value) && prev.color.Some?
    ensures Repaired(rows, prev) == CoerceSelection(rows, prev)
  {
    var s, c := prev.size.value, prev.color.value;
    var i :| 0 <= i < |rows| && rows[i].size == s;
    assert HasContainer(rows) by {
      assert rows[i].color.Some?;
    }
    if OffersPair(rows, s, c) {
      var k :| 0 <= k < |rows| && rows[k].size == s && rows[k].color == Some(c);
      assert Matches(rows[k], prev);
    } else {
      forall j | 0 <= j < |rows| ensures !Matches(rows[j], prev) {
        assert rows[j].color.Some?;
      }
      FirstColorOfSizeUnique(rows, s, Repaired(rows, prev).color, CoerceSelection(rows, prev).color);
    }
  }

  /**
   * Where they disagree: a size with no colour chosen resolves under the canonical rules, so
   * `coerceSelection` keeps it; the repair fills in the size's first colour.
   */
  lemma RepairFillsColour(rows: seq<Variant>, s: Size)
    requires Coloured(rows) && OffersSize(rows, s)
    ensures CoerceSelection(rows, Selection(Some(s), None)) == Selection(Some(s), None)
    ensures Repaired(rows, Selection(Some(s), None)).color.Some?
  {
    var i :| 0 <= i < |rows| && rows[i].size == s;
    assert Matches(rows[i], Selection(Some(s), None));
    assert HasContainer(rows) by {
      assert rows[i].color.Some?;
    }
    var r := Repaired(rows, Selection(Some(s), None));
    var k :| 0 <= k < |rows| && rows[k].size == s && rows[k].color == r.color && forall j :: 0 <= j < k ==> rows[j].size != s;
    assert rows[k].color.Some?;
  }

  /** `priceCents`, with the source's three searches in order. */
  function PriceCents(rows: seq<Variant>, sel: Selection): (price: int)
    ensures |rows| == 0 ==> price == 3500
    ensures |rows| > 0 ==> exists i :: 0 <= i < |rows| && rows[i].price == price
    ensures PanelMatches(rows, sel) && HasContainer(rows) ==>
      exists i :: 0 <= i < |rows| && rows[i].size == sel.size.value && rows[i].color == sel.color && rows[i].price == price
    ensures PanelMatches(rows, sel) && !HasContainer(rows) ==>
      exists i :: 0 <= i < |rows| && rows[i].size == sel.size.value && rows[i].price == price
    ensures |rows| > 0 && !PanelMatches(rows, sel) ==> price == rows[0].price
  {
    if |rows| == 0 then 3500
    else
      var found := if sel.size.Some? && HasContainer(rows) && sel.color.Some?
                   then Find(rows, IsPair(sel.size.value, sel.color.value)) else None;
      var bySize := if sel.size.Some? && !HasContainer(rows) then Find(rows, HasSize(sel.size.value)) else None;
      assert PanelMatches(rows, sel) && HasContainer(rows) ==> found.Some? by {
        if PanelMatches(rows, sel) && HasContainer(rows) {
          var k :| 0 <= k < |rows| && rows[k].size == sel.size.value && rows[k].color == sel.color;
          assert IsPair(sel.size.value, sel.color.value)(rows[k]);
        }
      }
      assert PanelMatches(rows, sel) && !HasContainer(rows) ==> bySize.Some? by {
        if PanelMatches(rows, sel) && !HasContainer(rows) {
          var k :| 0 <= k < |rows| && rows[k].size == sel.size.value;
          assert HasSize(sel.size.value)(rows[k]);
        }
      }
      if found.Some? then
        var i :| 0 <= i < |rows| && rows[i] == found.value;
        found.value.price
      else if bySize.Some? then
        var i :| 0 <= i < |rows| && rows[i] == bySize.value;
        bySize.value.price
      else rows[0].price
  }

  /** The sheet and the catalog widget preview the same price for every selection. */
  lemma PriceCentsAgreesWithPanel(rows: seq<Variant>, sel: Selection)
    ensures PriceCents(rows, sel) == PanelPrice(rows, sel)
  {
  }

  /** The row `addToCart` takes: the first row equal to the selection (size, and colour when the product has colours), else the first row. */
  function SheetMatch(hasColor: bool, sel: Selection): Variant -> bool {
    (r: Variant) => if hasColor then Some(r.size) == sel.size && r.color == sel.color else Some(r.size) == sel.size
  }

  function SheetChoice(rows: seq<Variant>, sel: Selection): (r: Option<Variant>)
    ensures r.None? <==> |rows| == 0
    ensures r.Some? ==> r.value in rows
    ensures r.Some? && (exists i :: 0 <= i < |rows| && SheetMatch(HasContainer(rows), sel)(rows[i])) ==>
      exists i :: 0 <= i < |rows| && rows[i] == r.value && SheetMatch(HasContainer(rows), sel)(rows[i]) &&
        forall j :: 0 <= j < i ==> !SheetMatch(HasContainer(rows), sel)(rows[j])
    ensures |rows| > 0 && (forall j :: 0 <= j < |rows| ==> !SheetMatch(HasContainer(rows), sel)(rows[j])) ==>
      r == Some(rows[0])
  {
    if |rows| == 0 then None
    else
      var p := SheetMatch(HasContainer(rows), sel);
      var f := Find(rows, p);
      var i := FindIndex(rows, p);
      assert f.Some? ==> i.Some? && rows[i.value] == f.value by {
        if f.Some? {
          FindFirst(rows, p, i.value);
        }
      }
      Some(f.GetOr(rows[0]))
  }

  /** On a ready selection the sheet and the catalog widget add the same row. */
  lemma SheetChoiceAgreesWithPanel(rows: seq<Variant>, sel: Selection)
    requires PanelReady(rows, sel)
    ensures SheetChoice(rows, sel) == PanelChoice(rows, sel)
  {
    if |rows| > 0 {
      var p := SheetMatch(HasContainer(rows), sel);
      if HasContainer(rows) {
        FindSame(rows, p, IsPair(sel.size.value, sel.color.value));
      } else {
        FindSame(rows, p, HasSize(sel.size.value));
      }
    }
  }

  /** The line `addToCart` merges in: named by the product name passed in, priced by the chosen row. */
  function SheetLine(slug: string, productName: string, v: Variant, qty: int): Line {
    Line(LineId(slug, v.size, v.color), productName, v.price, qty)
  }

  /**
   * On a coloured product, a ready selection gets the same line id from the sheet as from the catalog
   * widget, so adding the same option from either merges into one line.
   */
  lemma SameIdFromBothWidgets(slug: string, rows: seq<Variant>, sel: Selection)
    requires |rows| > 0 && PanelReady(rows, sel) && HasContainer(rows)
    ensures SheetLine(slug, "", SheetChoice(rows, sel).value, 1).id ==
            LineId(slug, PanelChoice(rows, sel).value.size, PanelChoice(rows, sel).value.color)
  {
    SheetChoiceAgreesWithPanel(rows, sel);
  }

  /**
   * Opened with a catalog product's own name, the sheet adds the line that product's card adds for the
   * same row and quantity, except for the label: the sheet shows the name it was given, the card the
   * display name, and the two agree exactly when the product has no separate display name.
   */
  lemma SheetMatchesCard(w: InlineQuickBuy, v: Variant)
    requires w.product.slug.None? && HasContainer(w.rows)
    ensures SheetLine(Slugify(w.product.name), w.product.name, v, w.qty) == w.PanelLine(v).(name := w.product.name)
    ensures SheetLine(Slugify(w.product.name), w.product.name, v, w.qty).name == w.PanelLine(v).name <==>
      ProductDisplayName(w.product) == w.product.name
  {
  }

  /** One `QuickBuySheet` instance. */
  class Sheet {
    var productName: string
    /** `productVariants[slugify(productName)] ?? []` */
    var rows: seq<Variant>
    var open: bool
    var qty: int
    var sel: Selection

    function Slug(): string
      reads this
    {
      Slugify(productName)
    }

    predicate Valid()
      reads this
    {
      rows == RowsFor(Slug()) && 1 <= qty <= 10
    }

    /** `noChoicesRequired` */
    function NoChoicesRequired(): bool
      reads this
    {
      |rows| == 1
    }

    /** `isReady`, the same test as the catalog widget's `ready`. */
    predicate Ready()
      reads this
    {
      PanelReady(rows, sel)
    }

    function Price(): int
      reads this
    {
      PriceCents(rows, sel)
    }

    constructor (name: string, defaultOpen: bool)
      ensures productName == name && Valid()
      ensures open == defaultOpen && qty == 1
      ensures sel == FirstValidSelection(rows)
      ensures |rows| > 0 ==> Ready() && PanelMatches(rows, sel)
      ensures Repaired(rows, sel) == sel
    {
      productName := name;
      rows := RowsFor(Slugify(name));
      open := defaultOpen;
      qty := 1;
      sel := InitialSelection(RowsFor(Slugify(name)));
      if |RowsFor(Slugify(name))| > 0 {
        StartsReady(Slugify(name));
      }
      MountRepairNoChange(RowsFor(Slugify(name)));
    }

    /**
     * A new `productName` prop: the rows are looked up again and, when the slug changes, the repair
     * effect runs; the panel flag and the quantity are kept.
     */
    method ChangeName(name: string)
      requires Valid()
      modifies this`productName, this`rows, this`sel
      ensures productName == name && Valid()
      ensures Slugify(name) != old(Slug()) ==> sel == Repaired(rows, old(sel))
      ensures Slugify(name) == old(Slug()) ==> sel == old(sel)
      ensures |rows| > 0 && Slugify(name) != old(Slug()) ==> Ready() && PanelMatches(rows, sel)
    {
      var before := Slug();
      productName := name;
      rows := RowsFor(Slugify(name));
      if Slugify(name) != before {
        Repair();
        if |rows| > 0 {
          EveryRowColoured(Slugify(name));
          RepairedReady(rows, old(sel));
        }
      }
    }

    /** The repair effect, with its reassigned local `color`. */
    method Repair()
      modifies this`sel
      ensures sel == Repaired(rows, old(sel))
    {
      if |rows| == 0 {
        return;
      }
      var prev := sel;
      var size := if prev.size.Some? && Any(rows, HasSize(prev.size.value)) then prev.size.value else rows[0].size;
      assert Any(rows, HasSize(size)) ==> OffersSize(rows, size);
      var color := if HasContainer(rows) then FirstColorFor(rows, size) else None;
      if HasContainer(rows) && prev.color.Some? && Any(rows, IsPair(size, prev.color.value)) {
        color := prev.color;
      }
      assert prev.size.Some? ==> (Any(rows, HasSize(prev.size.value)) <==> OffersSize(rows, prev.size.value)) by {
        if prev.size.Some? && OffersSize(rows, prev.size.value) {
          var k :| 0 <= k < |rows| && rows[k].size == prev.size.value;
          assert HasSize(prev.size.value)(rows[k]);
        }
      }
      assert prev.color.Some? ==> (Any(rows, IsPair(size, prev.color.value)) <==> OffersPair(rows, size, prev.color.value)) by {
        if prev.color.Some? && OffersPair(rows, size, prev.color.value) {
          var k :| 0 <= k < |rows| && rows[k].size == size && rows[k].color == prev.color;
          assert IsPair(size, prev.color.value)(rows[k]);
        }
      }
      sel := Selection(Some(size), color);
    }

    /**
     * `addToCart(finalSel, finalQty)`: merge the chosen row's line into the cart and open the drawer.
     * Without rows the source reads a field of `undefined` and throws before touching the cart;
     * `ok` is false then.
     */
    method AddToCart(cart: CartStore, finalSel: Selection, finalQty: int) returns (ok: bool)
      modifies cart
      ensures ok <==> |rows| > 0
      ensures !ok ==> unchanged(cart)
      ensures ok ==> cart.items == Merged(old(cart.items), SheetLine(Slug(), productName, SheetChoice(rows, finalSel).value, finalQty))
      ensures ok ==> cart.open && cart.Persisted()
    {
      var chosen := SheetChoice(rows, finalSel);
      if chosen.None? {
        return false;
      }
      // the same copy-then-update-or-push merge as the catalog grid's `onAdd`
      OnAdd(cart, SheetLine(Slug(), productName, chosen.value, finalQty));
      return true;
    }

    /** The trigger: a single-row product is added at once with quantity 1; any other opens the panel. */
    method TriggerClick(cart: CartStore)
      modifies cart, this`open
      ensures NoChoicesRequired() ==>
        open == old(open) && cart.open && cart.Persisted() && cart.items == Merged(old(cart.items), SheetLine(Slug(), productName, rows[0], 1))
      ensures !NoChoicesRequired() ==> open && unchanged(cart)
    {
      if NoChoicesRequired() {
        var v := rows[0];
        var first := Selection(Some(v.size), v.color);
        assert SheetMatch(HasContainer(rows), first)(rows[0]);
        FindFirst(rows, SheetMatch(HasContainer(rows), first), 0);
        var _ := AddToCart(cart, first, 1);
        return;
      }
      open := true;
    }

    /** "Add to cart": adds the selection with the panel's quantity when ready; the panel stays open. */
    method AddClick(cart: CartStore)
      modifies cart
      ensures !Ready() || |rows| == 0 ==> unchanged(cart)
      ensures Ready() && |rows| > 0 ==>
        cart.open && cart.Persisted() && cart.items == Merged(old(cart.items), SheetLine(Slug(), productName, SheetChoice(rows, sel).value, qty))
    {
      if Ready() {
        var _ := AddToCart(cart, sel, qty);
      }
    }

    /** A size button: an offered size is taken with the colour of its first row; any other click is ignored. */
    method ClickSize(s: Size)
      modifies this`sel
      ensures !OffersSize(rows, s) ==> sel == old(sel)
      ensures OffersSize(rows, s) ==> sel.size == Some(s)
      ensures OffersSize(rows, s) && HasContainer(rows) ==> FirstColorOfSize(rows, s, sel.color)
      ensures OffersSize(rows, s) && !HasContainer(rows) ==> sel.color.None?
      ensures OffersSize(rows, s) && Coloured(rows) ==> sel.color.Some? && OffersPair(rows, s, sel.color.value)
      ensures OffersSize(rows, s) && Coloured(rows) ==> Ready() && PanelMatches(rows, sel)
    {
      if Any(rows, HasSize(s)) {
        var next := FirstColorFor(rows, s);
        sel := Selection(Some(s), if HasContainer(rows) then next else None);
      }
      assert OffersSize(rows, s) ==> Any(rows, HasSize(s)) by {
        if OffersSize(rows, s) {
          var k :| 0 <= k < |rows| && rows[k].size == s;
          assert HasSize(s)(rows[k]);
        }
      }
      if OffersSize(rows, s) && Coloured(rows) {
        var k :| 0 <= k < |rows| && rows[k].size == s && rows[k].color == sel.color && forall j :: 0 <= j < k ==> rows[j].size != s;
        assert rows[k].color.Some?;
      }
    }

    /** A colour button: taken only when the product offers it in the chosen size. */
    method ClickColor(c: Color)
      modifies this`sel
      ensures sel.size.Some? && OffersPair(rows, sel.size.value, c) ==> sel == old(sel).(color := Some(c))
      ensures !(old(sel).size.Some? && OffersPair(rows, old(sel).size.value, c)) ==> sel == old(sel)
    {
      if sel.size.Some? && Any(rows, IsPair(sel.size.value, c)) {
        sel := sel.(color := Some(c));
      }
      assert old(sel).size.Some? && OffersPair(rows, old(sel).size.value, c) ==> Any(rows, IsPair(old(sel).size.value, c)) by {
        if old(sel).size.Some? && OffersPair(rows, old(sel).size.value, c) {
          var k :| 0 <= k < |rows| && rows[k].size == old(sel).size.value && rows[k].color == Some(c);
          assert IsPair(old(sel).size.value, c)(rows[k]);
        }
      }
    }

    method SetQty(raw: Option<int>)
      modifies this`qty
      ensures qty == ClampQty(raw) && 1 <= qty <= 10
    {
      qty := ClampQty(raw);
    }

    method Close()
      modifies this`open
      ensures !open
    {
      open := false;
    }
  }
}

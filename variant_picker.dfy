/**
 * components/variant-picker.tsx: the size and colour picker of a product page. It builds the offered
 * sizes and colours, hides itself when there is a single choice, coerces its state to an existing
 * (size, colour) pair, reports the exactly matching row or nothing, and handles size and colour clicks.
 */
module VariantPicker {
  import opened Options
  import opened ArrayOps
  import opened Variants
  import opened VariantLogic
  import ProductCatalog
  import QuickBuySheet

  /** `hideAllPickers`: one row, or one size and one colour value across all rows. */
  function HideAllPickers(rows: seq<Variant>): (b: bool)
    ensures b <==> |rows| > 0 && forall i :: 0 <= i < |rows| ==> rows[i].size == rows[0].size && rows[i].color == rows[0].color
  {
    SingleSize(rows);
    SingleColor(rows);
    |rows| == 1 || (|SizesOf(rows)| == 1 && |ColorsOf(rows)| == 1)
  }

  lemma SingleSize(rows: seq<Variant>)
    ensures |SizesOf(rows)| == 1 <==> |rows| > 0 && forall i :: 0 <= i < |rows| ==> rows[i].size == rows[0].size
  {
    var r := SizesOf(rows);
    if |r| == 1 {
      assert OffersSize(rows, r[0]);
      forall i | 0 <= i < |rows| ensures rows[i].size == rows[0].size {
        assert OffersSize(rows, rows[i].size);
      }
    }
    if |rows| > 0 && forall i :: 0 <= i < |rows| ==> rows[i].size == rows[0].size {
      if |r| > 1 {
        assert OffersSize(rows, r[1]);
        assert r[1] == rows[0].size == r[0];
      }
    }
  }

  lemma SingleColor(rows: seq<Variant>)
    ensures |ColorsOf(rows)| == 1 <==> |rows| > 0 && forall i :: 0 <= i < |rows| ==> rows[i].color == rows[0].color
  {
    var r := ColorsOf(rows);
    if |r| == 1 {
      assert r[0] in r;
      forall i | 0 <= i < |rows| ensures rows[i].color == rows[0].color {
        assert rows[i].color in r;
      }
    }
    if |rows| > 0 && forall i :: 0 <= i < |rows| ==> rows[i].color == rows[0].color {
      if |r| > 1 {
        assert r[1] in r;
        assert r[1] == rows[0].color == r[0];
      }
    }
  }

  /** On the table, the pickers are hidden exactly for the three single-row products. */
  lemma HiddenOnTable(slug: string)
    requires slug in ProductVariants
    ensures HideAllPickers(RowsFor(slug)) <==> slug in SingleVariantSlugs
  {
    TableShape(slug);
    var rows := RowsFor(slug);
    if slug !in SingleVariantSlugs {
      assert rows[1].color == Some(White) && rows[0].color == Some(Black);
    }
  }

  /** `variants.filter(v => v.size === s).map(v => v.color)` */
  function ColorsForSize(rows: seq<Variant>, s: Size): (r: seq<Option<Color>>)
    ensures forall c :: c in r <==> exists i :: 0 <= i < |rows| && rows[i].size == s && rows[i].color == c
    ensures |r| > 0 <==> OffersSize(rows, s)
    ensures |r| > 0 ==> FirstColorOfSize(rows, s, r[0])
  {
    var f := Filter(rows, HasSize(s));
    var r := seq(|f|, i requires 0 <= i < |f| => f[i].color);
    ColorsFromFilter(rows, s, f, r);
    if |r| > 0 then
      ColorsFromFilterHead(rows, s, f);
      r
    else r
  }

  lemma ColorsFromFilter(rows: seq<Variant>, s: Size, f: seq<Variant>, r: seq<Option<Color>>)
    requires f == Filter(rows, HasSize(s))
    requires |r| == |f| && forall i :: 0 <= i < |f| ==> r[i] == f[i].color
    ensures forall c :: c in r <==> exists i :: 0 <= i < |rows| && rows[i].size == s && rows[i].color == c
  {
    forall c | c in r ensures exists i :: 0 <= i < |rows| && rows[i].size == s && rows[i].color == c {
      var k :| 0 <= k < |r| && r[k] == c;
      assert f[k] in rows && HasSize(s)(f[k]);
      var i :| 0 <= i < |rows| && rows[i] == f[k];
      assert rows[i].size == s && rows[i].color == c;
    }
    forall c | exists i :: 0 <= i < |rows| && rows[i].size == s && rows[i].color == c ensures c in r {
      var i :| 0 <= i < |rows| && rows[i].size == s && rows[i].color == c;
      assert HasSize(s)(rows[i]);
      assert rows[i] in f;
      var k :| 0 <= k < |f| && f[k] == rows[i];
      assert r[k] == c;
    }
  }

  lemma ColorsFromFilterHead(rows: seq<Variant>, s: Size, f: seq<Variant>)
    requires f == Filter(rows, HasSize(s)) && |f| > 0
    ensures FirstColorOfSize(rows, s, f[0].color)
  {
    var i := FindIndex(rows, HasSize(s));
    assert i.Some? by {
      assert f[0] in rows && HasSize(s)(f[0]);
    }
    FilterFirst(rows, HasSize(s), i.value);
    forall j | 0 <= j < i.value ensures rows[j].size != s {
      assert !HasSize(s)(rows[j]);
    }
  }

  /**
   * `selected`: nothing for a product without rows (the picker is not rendered); the first row when
   * the pickers are hidden; otherwise the row matching size and colour exactly, or nothing.
   */
  function Selected(rows: seq<Variant>, sel: Selection): (r: Option<Variant>)
    ensures |rows| == 0 ==> r.None?
    ensures HideAllPickers(rows) ==> r == Some(rows[0])
    ensures !HideAllPickers(rows) && (sel.size.None? || sel.color.None?) ==> r.None?
    ensures !HideAllPickers(rows) && sel.size.Some? && sel.color.Some? ==>
      (r.Some? <==> OffersPair(rows, sel.size.value, sel.color.value))
    ensures r.Some? ==> r.value in rows
    ensures r.Some? && !HideAllPickers(rows) ==> Some(r.value.size) == sel.size && r.value.color == sel.color
  {
    if |rows| == 0 then None
    else if HideAllPickers(rows) then Some(rows[0])
    else if sel.size.None? || sel.color.None? then None
    else
      var f := Find(rows, IsPair(sel.size.value, sel.color.value));
      assert f.Some? <==> OffersPair(rows, sel.size.value, sel.color.value) by {
        if OffersPair(rows, sel.size.value, sel.color.value) {
          var k :| 0 <= k < |rows| && rows[k].size == sel.size.value && rows[k].color == sel.color;
          assert IsPair(sel.size.value, sel.color.value)(rows[k]);
        }
      }
      f
  }

  /**
   * The coercion effect: hidden pickers lock to the first row; otherwise an offered size is kept (else
   * the first offered size) and a colour listed for that size is kept (else the size's first colour).
   */
  function Coerced(rows: seq<Variant>, sel: Selection): (r: Selection)
    ensures |rows| == 0 ==> r == sel
    ensures HideAllPickers(rows) ==> r == Selection(Some(rows[0].size), rows[0].color)
    ensures |rows| > 0 ==> r.size.Some? && OffersSize(rows, r.size.value)
    ensures |rows| > 0 && !HideAllPickers(rows) && sel.size.Some? && OffersSize(rows, sel.size.value) ==> r.size == sel.size
    ensures |rows| > 0 ==> exists i :: 0 <= i < |rows| && rows[i].size == r.size.value && rows[i].color == r.color
  {
    if |rows| == 0 then sel
    else if HideAllPickers(rows) then Selection(Some(rows[0].size), rows[0].color)
    else
      var sizes := SizesOf(rows);
      var nextSize := if sel.size.Some? && sel.size.value in sizes then sel.size.value else sizes[0];
      var colorsForSize := ColorsForSize(rows, nextSize);
      var nextColor := if sel.color.Some? && sel.color in colorsForSize then sel.color else colorsForSize[0];
      assert nextColor in colorsForSize;
      Selection(Some(nextSize), nextColor)
  }

  /** After the coercion effect a product with rows, every one coloured, always has a selected row. */
  lemma CoercedResolves(rows: seq<Variant>, sel: Selection)
    requires |rows| > 0 && Coloured(rows)
    ensures Selected(rows, Coerced(rows, sel)).Some?
  {
    var r := Coerced(rows, sel);
    var i :| 0 <= i < |rows| && rows[i].size == r.size.value && rows[i].color == r.color;
    assert rows[i].color.Some?;
  }

  /** On mount the coercion effect finds the first row's selection already valid and leaves it alone. */
  lemma MountCoerceNoChange(rows: seq<Variant>)
    ensures Coerced(rows, FirstValidSelection(rows)) == FirstValidSelection(rows)
  {
    if |rows| > 0 && !HideAllPickers(rows) {
      var first := FirstValidSelection(rows);
      assert rows[0].size in SizesOf(rows);
      var cs := ColorsForSize(rows, rows[0].size);
      assert rows[0].color in cs;
      if rows[0].color.None? {
        var k :| 0 <= k < |rows| && rows[k].size == rows[0].size && rows[k].color == cs[0] && forall j :: 0 <= j < k ==> rows[j].size != rows[0].size;
        assert k == 0;
      }
    }
  }

  /** Coercing a coerced state changes nothing. */
  lemma CoercedStable(rows: seq<Variant>, sel: Selection)
    ensures Coerced(rows, Coerced(rows, sel)) == Coerced(rows, sel)
  {
    if |rows| > 0 && !HideAllPickers(rows) {
      var r := Coerced(rows, sel);
      var i :| 0 <= i < |rows| && rows[i].size == r.size.value && rows[i].color == r.color;
      assert r.size.value in SizesOf(rows);
      assert r.color in ColorsForSize(rows, r.size.value);
      if r.color.None? {
        var cs := ColorsForSize(rows, r.size.value);
        var k :| 0 <= k < |rows| && rows[k].size == r.size.value && rows[k].color == cs[0] && forall j :: 0 <= j < k ==> rows[j].size != r.size.value;
        assert Coerced(rows, r).color == cs[0];
      }
    }
  }

  /**
   * Where the picker and the canonical rules agree: on coloured rows an offered (size, colour) pair
   * selects the same row as `findVariant`.
   */
  lemma SelectedAgreesWithFindVariant(rows: seq<Variant>, s: Size, c: Color)
    requires Coloured(rows) && !HideAllPickers(rows) && OffersPair(rows, s, c)
    ensures Selected(rows, Selection(Some(s), Some(c))) == FindVariant(rows, Selection(Some(s), Some(c)))
  {
    ProductCatalog.PanelChoiceAgreesWithFindVariant(rows, s, c);
    assert HasContainer(rows) by {
      assert rows[0].color.Some?;
    }
  }

  /**
   * Where they disagree: for a pair the product does not offer the picker reports nothing, while both
   * quick-buy widgets fall back to the first row.
   */
  lemma SelectedRefusesToGuess(rows: seq<Variant>, s: Size, c: Color)
    requires |rows| > 0 && HasContainer(rows) && !HideAllPickers(rows) && !OffersPair(rows, s, c)
    ensures Selected(rows, Selection(Some(s), Some(c))).None?
    ensures ProductCatalog.PanelChoice(rows, Selection(Some(s), Some(c))) == Some(rows[0])
    ensures QuickBuySheet.SheetChoice(rows, Selection(Some(s), Some(c))) == Some(rows[0])
  {
    QuickBuySheet.SheetChoiceAgreesWithPanel(rows, Selection(Some(s), Some(c)));
  }

  /**
   * A size chosen without a colour: `findVariant` resolves it to the size's first row, the picker
   * reports nothing.
   */
  lemma PartialSelectionDiffers(rows: seq<Variant>, s: Size)
    requires !HideAllPickers(rows) && OffersSize(rows, s)
    ensures FindVariant(rows, Selection(Some(s), None)).Some?
    ensures Selected(rows, Selection(Some(s), None)).None?
  {
    var i :| 0 <= i < |rows| && rows[i].size == s;
    assert Matches(rows[i], Selection(Some(s), None));
  }

  /**
   * The single row of "iced-coffee-era" is 10 oz black. Asked for 6 oz black, `findVariant` finds
   * nothing and both quick-buy widgets add the 10 oz row; the picker never offers the choice at all.
   */
  lemma IcedCoffeeEraExample()
    ensures RowsFor("iced-coffee-era") == IcedCoffeeEraRows
    ensures FindVariant(IcedCoffeeEraRows, Selection(Some(Oz6), Some(Black))).None?
    ensures ProductCatalog.PanelChoice(IcedCoffeeEraRows, Selection(Some(Oz6), Some(Black))) == Some(IcedCoffeeEraRows[0])
    ensures QuickBuySheet.SheetChoice(IcedCoffeeEraRows, Selection(Some(Oz6), Some(Black))) == Some(IcedCoffeeEraRows[0])
    ensures IcedCoffeeEraRows[0].size == Oz10
    ensures HideAllPickers(IcedCoffeeEraRows)
  {
    var rows := IcedCoffeeEraRows;
    var sel := Selection(Some(Oz6), Some(Black));
    assert !Matches(rows[0], sel);
    assert !OffersPair(rows, Oz6, Black);
    QuickBuySheet.SheetChoiceAgreesWithPanel(rows, sel);
  }

  /** One `VariantPicker` instance: its slug's rows and the two picker states (`""` is `None`). */
  class Picker {
    var slug: string
    var rows: seq<Variant>
    var size: Option<Size>
    var color: Option<Color>

    predicate Valid()
      reads this
    {
      rows == RowsFor(slug)
    }

    function Choice(): Selection
      reads this
    {
      Selection(size, color)
    }

    /** The row reported to the parent. */
    function Current(): Option<Variant>
      reads this
    {
      Selected(rows, Choice())
    }

    /** The state is seeded from the first row. */
    constructor (s: string)
      ensures slug == s && Valid()
      ensures Choice() == FirstValidSelection(rows)
      ensures Coerced(rows, Choice()) == Choice()
    {
      var rs := RowsFor(s);
      slug, rows := s, rs;
      size := if |rs| > 0 then Some(rs[0].size) else None;
      color := if |rs| > 0 then rs[0].color else None;
      MountCoerceNoChange(rs);
    }

    /**
     * A new `slug` prop: the rows are looked up again and, when the slug changes, the coercion effect
     * runs on the new rows. The component returns before its hooks when there are no rows, so a
     * change between a slug with rows and one without renders a different number of hooks and React
     * throws; `ok` is false then and nothing changes.
     */
    method ChangeSlug(s: string) returns (ok: bool)
      requires Valid()
      modifies this
      ensures ok <==> (|old(rows)| > 0 <==> |RowsFor(s)| > 0)
      ensures !ok ==> unchanged(this)
      ensures ok ==> slug == s && Valid()
      ensures ok && s != old(slug) ==> Choice() == Coerced(rows, old(Choice()))
      ensures ok && s == old(slug) ==> Choice() == old(Choice())
      ensures ok && |rows| > 0 && s != old(slug) ==> Current().Some?
    {
      if (|rows| > 0) != (|RowsFor(s)| > 0) {
        return false;
      }
      ok := true;
      var before := slug;
      slug, rows := s, RowsFor(s);
      if s != before {
        Coerce();
        if |rows| > 0 {
          EveryRowColoured(s);
          CoercedResolves(rows, old(Choice()));
        }
      }
    }

    /** The coercion effect, applied to both states. */
    method Coerce()
      modifies this`size, this`color
      ensures Choice() == Coerced(rows, old(Choice()))
    {
      if |rows| == 0 {
        return;
      }
      var r := Coerced(rows, Choice());
      if r.size != size {
        size := r.size;
      }
      if r.color != color {
        color := r.color;
      }
    }

    /** `handleSizeClick(s)`: take `s` and the colour of its first row (else the first colour), when one is set. */
    method ClickSize(s: Size)
      modifies this`size, this`color
      ensures size == Some(s)
      ensures Coloured(rows) && OffersSize(rows, s) ==> FirstColorOfSize(rows, s, color) && color.Some?
      ensures Coloured(rows) && |rows| > 0 && !OffersSize(rows, s) ==> color == rows[0].color
      ensures |rows| == 0 ==> color == old(color)
    {
      size := Some(s);
      var found := QuickBuySheet.FirstColorFor(rows, s);
      var colors := ColorsOf(rows);
      var next := if found.Some? then found else if |colors| > 0 then colors[0] else None;
      if next.Some? {
        color := next;
      }
      if Coloured(rows) && OffersSize(rows, s) {
        var k :| 0 <= k < |rows| && rows[k].size == s && rows[k].color == found && forall j :: 0 <= j < k ==> rows[j].size != s;
        assert rows[k].color.Some?;
      }
      if Coloured(rows) && |rows| > 0 {
        assert rows[0].color.Some?;
      }
    }

    /** `handleColorClick(c)`: keep the size when it comes in `c`, else move to the first size that does; then take `c`. */
    method ClickColor(c: Color)
      modifies this`size, this`color
      ensures color == Some(c)
      ensures old(size).Some? && OffersPair(rows, old(size).value, c) ==> size == old(size)
      ensures (exists i :: 0 <= i < |rows| && rows[i].color == Some(c)) ==> size.Some? && OffersPair(rows, size.value, c)
      ensures !(old(size).Some? && OffersPair(rows, old(size).value, c)) && (exists i :: 0 <= i < |rows| && rows[i].color == Some(c)) ==>
        size.Some? && FirstSizeOfColor(rows, c, size.value)
      ensures !(exists i :: 0 <= i < |rows| && rows[i].color == Some(c)) ==> size == old(size)
    {
      var paired := size.Some? && Any(rows, IsPair(size.value, c));
      assert paired <==> size.Some? && OffersPair(rows, size.value, c) by {
        if size.Some? && OffersPair(rows, size.value, c) {
          var k :| 0 <= k < |rows| && rows[k].size == size.value && rows[k].color == Some(c);
          assert IsPair(size.value, c)(rows[k]);
        }
      }
      if !paired {
        var f := Find(rows, InColor(c));
        if f.Some? {
          size := Some(f.value.size);
          var k := FindWitness(rows, InColor(c));
          assert rows[k].size == size.value && rows[k].color == Some(c);
          forall j | 0 <= j < k ensures rows[j].color != Some(c) {
            assert !InColor(c)(rows[j]);
          }
        }
        assert (exists i :: 0 <= i < |rows| && rows[i].color == Some(c)) ==> f.Some? by {
          if exists i :: 0 <= i < |rows| && rows[i].color == Some(c) {
            var k :| 0 <= k < |rows| && rows[k].color == Some(c);
            assert InColor(c)(rows[k]);
          }
        }
      }
      color := Some(c);
    }
  }

  /** `v => v.color === c` */
  function InColor(c: Color): Variant -> bool {
    (v: Variant) => v.color == Some(c)
  }
}

/**
 * The canonical selection rules of lib/variant-logic.ts: a shopper's partial choice of size and
 * container colour, resolved against the variant rows of one product slug.
 *
 * Every function of the source begins with `rows = productVariants[slug] ?? []`; here that lookup is
 * `RowsFor(slug)`, done by the caller, and each rule takes the rows it produced.
 */
module VariantLogic {
  import opened Options
  import opened ArrayOps
  import opened Variants

  /**
   * `{ size?, container? }`: each dimension may be unset. The storefront's components call the
   * second field `color`; it is the same choice.
   */
  datatype Selection = Selection(size: Option<Size>, color: Option<Color>)

  /** `{}` */
  const NoSelection: Selection := Selection(None, None)

  /** A row is compatible with a chosen size when no size is chosen or the sizes are equal. */
  predicate SizeAgrees(v: Variant, size: Option<Size>) {
    size.None? || v.size == size.value
  }

  /** A row is compatible with a chosen colour unless both sides name a colour and they differ. */
  predicate ColorAgrees(v: Variant, color: Option<Color>) {
    v.color.None? || color.None? || v.color == color
  }

  /** The predicate `findVariant` searches with. */
  predicate Matches(v: Variant, sel: Selection) {
    SizeAgrees(v, sel.size) && ColorAgrees(v, sel.color)
  }

  /** `hasContainer(slug)`: some row of the slug names a colour. */
  function HasContainer(rows: seq<Variant>): (b: bool)
    ensures b <==> exists i :: 0 <= i < |rows| && rows[i].color.Some?
  {
    Any(rows, (v: Variant) => v.color.Some?)
  }

  /** A slug the table does not know has no container option; every slug it knows has one. */
  lemma HasContainerTable(slug: string)
    ensures HasContainer(RowsFor(slug)) <==> slug in ProductVariants
  {
    EveryRowColoured(slug);
    TableShape(slug);
    if slug in ProductVariants {
      assert |RowsFor(slug)| > 0 && RowsFor(slug)[0].color.Some?;
    }
  }

  /** `firstValidSelection(slug)`: the first row's size and colour, or `{}` for a slug without rows. */
  function FirstValidSelection(rows: seq<Variant>): (r: Selection)
    ensures r == NoSelection <==> |rows| == 0
    ensures |rows| > 0 ==> r.size == Some(rows[0].size) && r.color == rows[0].color
  {
    if |rows| == 0 then NoSelection else Selection(Some(rows[0].size), rows[0].color)
  }

  /** `findVariant(slug, sel)`: the first row, in table order, compatible with the selection. */
  function FindVariant(rows: seq<Variant>, sel: Selection): (r: Option<Variant>)
    ensures r.Some? ==> r.value in rows && Matches(r.value, sel)
    ensures r.Some? && sel.size.Some? ==> r.value.size == sel.size.value
    ensures r.Some? && sel.color.Some? && r.value.color.Some? ==> r.value.color == sel.color
    ensures r.None? <==> forall j :: 0 <= j < |rows| ==> !Matches(rows[j], sel)
  {
    Find(rows, (v: Variant) => Matches(v, sel))
  }

  /** The row `findVariant` returns is the first compatible one. */
  lemma FindVariantFirst(rows: seq<Variant>, sel: Selection, i: nat)
    requires i < |rows| && Matches(rows[i], sel)
    requires forall j :: 0 <= j < i ==> !Matches(rows[j], sel)
    ensures FindVariant(rows, sel) == Some(rows[i])
  {
    FindFirst(rows, (v: Variant) => Matches(v, sel), i);
  }

  /** The empty selection resolves, to the first row, exactly when the slug has rows. */
  lemma FindVariantNoSelection(rows: seq<Variant>)
    ensures FindVariant(rows, NoSelection).Some? <==> |rows| > 0
    ensures |rows| > 0 ==> FindVariant(rows, NoSelection) == Some(rows[0])
  {
    if |rows| > 0 {
      FindVariantFirst(rows, NoSelection, 0);
    }
  }

  /** The default selection resolves to the first row. */
  lemma FirstValidSelectionResolves(rows: seq<Variant>)
    requires |rows| > 0
    ensures FindVariant(rows, FirstValidSelection(rows)) == Some(rows[0])
  {
    FindVariantFirst(rows, FirstValidSelection(rows), 0);
  }

  /**
   * `validSizes(slug, sel)`: size `s` is selectable iff some row has size `s` and a colour
   * compatible with the chosen one. The chosen size plays no part.
   */
  method ValidSizes(rows: seq<Variant>, sel: Selection) returns (m: map<Size, bool>)
    ensures m.Keys == {Oz6, Oz8, Oz10}
    ensures forall s :: s in m ==> (m[s] <==> exists i :: 0 <= i < |rows| && rows[i].size == s && ColorAgrees(rows[i], sel.color))
  {
    m := map[Oz6 := false, Oz8 := false, Oz10 := false];
    for i := 0 to |rows|
      invariant m.Keys == {Oz6, Oz8, Oz10}
      invariant forall s :: s in m ==> (m[s] <==> exists k :: 0 <= k < i && rows[k].size == s && ColorAgrees(rows[k], sel.color))
    {
      var row := rows[i];
      // a chosen container rules out rows of the other colour
      if sel.color.Some? && row.color.Some? && row.color != sel.color {
        continue;
      }
      assert row.size in {Oz6, Oz8, Oz10} by {
        assert row.size.Oz6? || row.size.Oz8? || row.size.Oz10?;
      }
      m := m[row.size := true];
    }
  }

  /**
   * `validContainers(slug, sel)`: all false for a product without a container option; otherwise
   * colour `c` is selectable iff some row has colour `c` and agrees with the chosen size.
   */
  method ValidContainers(rows: seq<Variant>, sel: Selection) returns (m: map<Color, bool>)
    ensures m.Keys == {Black, White}
    ensures !HasContainer(rows) ==> forall c :: c in m ==> !m[c]
    ensures forall c :: c in m ==> (m[c] <==> exists i :: 0 <= i < |rows| && rows[i].color == Some(c) && SizeAgrees(rows[i], sel.size))
  {
    m := map[Black := false, White := false];
    if !HasContainer(rows) {
      return;
    }
    for i := 0 to |rows|
      invariant m.Keys == {Black, White}
      invariant forall c :: c in m ==> (m[c] <==> exists k :: 0 <= k < i && rows[k].color == Some(c) && SizeAgrees(rows[k], sel.size))
    {
      var row := rows[i];
      if sel.size.Some? && row.size != sel.size.value {
        continue;
      }
      if row.color.Some? {
        assert row.color.value in {Black, White} by {
          assert row.color.value.Black? || row.color.value.White?;
        }
        m := m[row.color.value := true];
      }
    }
  }

  /** The colour of the first row with size `s`: `rows.filter(v => v.size === s)[0].color`. */
  predicate FirstColorOfSize(rows: seq<Variant>, s: Size, color: Option<Color>) {
    exists i :: 0 <= i < |rows| && rows[i].size == s && rows[i].color == color && forall j :: 0 <= j < i ==> rows[j].size != s
  }

  /** The size of the first row in colour `c`: `rows.find(v => v.color === c)?.size`. */
  predicate FirstSizeOfColor(rows: seq<Variant>, c: Color, size: Size) {
    exists i :: 0 <= i < |rows| && rows[i].color == Some(c) && rows[i].size == size && forall j :: 0 <= j < i ==> rows[j].color != Some(c)
  }

  /**
   * `coerceSelection(slug, sel)`: a selection that resolves is kept; otherwise a chosen size that the
   * product offers is kept with the colour of its first row; otherwise the first row is taken.
   */
  function CoerceSelection(rows: seq<Variant>, sel: Selection): (r: Selection)
    ensures FindVariant(rows, sel).Some? ==> r == sel
    ensures r == NoSelection <==> sel == NoSelection || |rows| == 0
    ensures FindVariant(rows, sel).None? && sel.size.Some? && (exists i :: 0 <= i < |rows| && rows[i].size == sel.size.value) ==>
      r.size == sel.size && FirstColorOfSize(rows, sel.size.value, r.color)
    ensures FindVariant(rows, sel).None? && |rows| > 0 && (sel.size.None? || forall i :: 0 <= i < |rows| ==> rows[i].size != sel.size.value) ==>
      r == FirstValidSelection(rows)
  {
    if FindVariant(rows, sel).Some? then sel
    else if |rows| == 0 then NoSelection
    else
      var cands := if sel.size.Some? then Filter(rows, (v: Variant) => v.size == sel.size.value) else [];
      if |cands| > 0 then
        CandidateHead(rows, sel.size.value);
        Selection(sel.size, cands[0].color)
      else Selection(Some(rows[0].size), rows[0].color)
  }

  /** The head of the size filter is the first row of that size. */
  lemma CandidateHead(rows: seq<Variant>, s: Size)
    requires |Filter(rows, (v: Variant) => v.size == s)| > 0
    ensures FirstColorOfSize(rows, s, Filter(rows, (v: Variant) => v.size == s)[0].color)
    ensures Filter(rows, (v: Variant) => v.size == s)[0].size == s
  {
    var p := (v: Variant) => v.size == s;
    var i := FindIndex(rows, p);
    assert i.Some? by {
      assert Filter(rows, p)[0] in rows;
    }
    FilterFirst(rows, p, i.value);
  }

  /** For a product with rows, the coerced selection always resolves to a row. */
  lemma CoerceResolves(rows: seq<Variant>, sel: Selection)
    requires |rows| > 0
    ensures FindVariant(rows, CoerceSelection(rows, sel)).Some?
  {
    var r := CoerceSelection(rows, sel);
    if FindVariant(rows, sel).None? {
      if sel.size.Some? && |Filter(rows, (v: Variant) => v.size == sel.size.value)| > 0 {
        var cands := Filter(rows, (v: Variant) => v.size == sel.size.value);
        CandidateHead(rows, sel.size.value);
        assert cands[0] in rows && Matches(cands[0], r);
      } else {
        assert Matches(rows[0], r);
      }
    }
  }

  /** Coercing twice is coercing once. */
  lemma CoerceIdempotent(rows: seq<Variant>, sel: Selection)
    ensures CoerceSelection(rows, CoerceSelection(rows, sel)) == CoerceSelection(rows, sel)
  {
    if |rows| > 0 {
      CoerceResolves(rows, sel);
    }
  }
  // ---------------------------------------------------------------------------------------------
  // Searches the storefront's components run over the same rows

  /** `r => r.size === s` */
  function HasSize(s: Size): Variant -> bool {
    (v: Variant) => v.size == s
  }

  /** `r => r.size === s && r.color === c` */
  function IsPair(s: Size, c: Color): Variant -> bool {
    (v: Variant) => v.size == s && v.color == Some(c)
  }

  /** The product offers size `s` in some row. */
  predicate OffersSize(rows: seq<Variant>, s: Size) {
    exists i :: 0 <= i < |rows| && rows[i].size == s
  }

  /** The product offers size `s` in colour `c`. */
  predicate OffersPair(rows: seq<Variant>, s: Size, c: Color) {
    exists i :: 0 <= i < |rows| && rows[i].size == s && rows[i].color == Some(c)
  }

  /** `Array.from(new Set(rows.map(r => r.size)))`: each offered size once, in order of first appearance. */
  function SizesOf(rows: seq<Variant>): (r: seq<Size>)
    ensures forall s :: s in r <==> OffersSize(rows, s)
    ensures forall i, j :: 0 <= i < j < |r| ==> r[i] != r[j]
    ensures |rows| > 0 ==> |r| > 0 && r[0] == rows[0].size
  {
    var xs := seq(|rows|, i requires 0 <= i < |rows| => rows[i].size);
    var r := Distinct(xs);
    assert forall s :: s in r ==> OffersSize(rows, s) by {
      forall s | s in r ensures OffersSize(rows, s) {
        var k :| 0 <= k < |xs| && xs[k] == s;
        assert rows[k].size == s;
      }
    }
    assert forall s :: OffersSize(rows, s) ==> s in r by {
      forall s | OffersSize(rows, s) ensures s in r {
        var k :| 0 <= k < |rows| && rows[k].size == s;
        assert xs[k] == s;
      }
    }
    r
  }

  /** `Array.from(new Set(rows.map(r => r.color)))`: each colour value once, unset included if it occurs. */
  function ColorsOf(rows: seq<Variant>): (r: seq<Option<Color>>)
    ensures forall c :: c in r <==> exists i :: 0 <= i < |rows| && rows[i].color == c
    ensures forall i, j :: 0 <= i < j < |r| ==> r[i] != r[j]
    ensures |rows| > 0 ==> |r| > 0 && r[0] == rows[0].color
  {
    var xs := seq(|rows|, i requires 0 <= i < |rows| => rows[i].color);
    var r := Distinct(xs);
    assert forall c :: c in r ==> exists i :: 0 <= i < |rows| && rows[i].color == c by {
      forall c | c in r ensures exists i :: 0 <= i < |rows| && rows[i].color == c {
        var k :| 0 <= k < |xs| && xs[k] == c;
        assert rows[k].color == c;
      }
    }
    assert forall c :: (exists i :: 0 <= i < |rows| && rows[i].color == c) ==> c in r by {
      forall c | exists i :: 0 <= i < |rows| && rows[i].color == c ensures c in r {
        var k :| 0 <= k < |rows| && rows[k].color == c;
        assert xs[k] == c;
      }
    }
    r
  }
}

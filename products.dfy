/**
 * The product catalog of data/products.ts: the product records, the `slugify` normaliser that turns a
 * product name into its URL slug, and the two `??` fallbacks that pick a product's slug and display name.
 */
module Products {
  import opened Options
  import opened ArrayOps

  datatype ProductType = Candle | WaxMelt | WaxSachet | WaxMelters | Bag | Clutch | Jewelry

  datatype CandleCollection = Classic | Dessert

  /** A catalog entry; the optional fields of the record are `Option`s. */
  datatype Product = Product(
    name: string,
    displayName: Option<string>,
    notes: string,
    ptype: ProductType,
    collection: Option<CandleCollection>,
    image: Option<string>,
    slug: Option<string>)

  // 12 classic candles
  const FirstLove: Product := Product("First Love", None, "Fresh Cut Roses • Sandalwood • Wild Rose", Candle, Some(Classic), Some("/images/products/first-love-10oz.jpg"), None)
  const FrazerFir: Product := Product("Frazer Fir", None, "Cypress • Fir • Lemon Peel • Evergreen", Candle, Some(Classic), None, None)
  const LavenderOasis: Product := Product("Lavender Oasis", None, "Lavender • White Sage • Lemongrass", Candle, Some(Classic), None, None)
  const WoodzySpell: Product := Product("Woodzy Spell", None, "Warm Mahogany • Earthy Wood", Candle, Some(Classic), None, None)
  const JamaicaMeCrazy: Product := Product("Jamaica Me Crazy", None, "Orange • Pineapple • Coconut • Rum", Candle, Some(Classic), None, None)
  const SweetCitrusMedley: Product := Product("Sweet Citrus Medley", None, "Mango • Gardenia • Blood Orange", Candle, Some(Classic), None, None)
  const LittleMystery1: Product := Product("Little Mystery 1", None, "Smoke Oud • Amber Noir • Patchouli", Candle, Some(Classic), None, None)
  const PreciousMemories: Product := Product("Precious Memories", None, "Black Violet • Geraniums • Saffron", Candle, Some(Classic), None, None)
  const FantasyBouquet: Product := Product("Fantasy Bouquet", None, "White Jasmine • Neroli • Honeysuckle", Candle, Some(Classic), None, None)
  const GourmetTreat: Product := Product("Gourmet Treat", None, "Black Cardamom • Mahogany Shea • Vanilla", Candle, Some(Classic), None, None)
  const LittleMystery2: Product := Product("Little Mystery 2", None, "Oud • Turmeric • Saffron • Patchouli", Candle, Some(Classic), None, None)
  const LittleMystery3: Product := Product("Little Mystery 3", None, "Smoked Oud • Cedar • Sandalwood • Incense", Candle, Some(Classic), None, None)
  // 3 dessert candles
  const SheerKhurma: Product := Product("Sheer Khurma", None, "Cardamom • Almond • Milk", Candle, Some(Dessert), None, None)
  const IcedMangoLassi: Product := Product("Iced Mango Lassi", None, "Mango", Candle, Some(Dessert), None, None)
  const IcedCoffeeEra: Product := Product("Iced Coffee Era", None, "Coffee", Candle, Some(Dessert), None, None)
  // 12 wax melts mirroring the classic candles; `name` keeps their slugs apart, `displayName` keeps the classic label
  const FirstLoveMelts: Product := Product("First Love — Wax Melts", Some("First Love"), "Fresh Cut Roses • Sandalwood • Wild Rose", WaxMelt, None, None, None)
  const FrazerFirMelts: Product := Product("Frazer Fir — Wax Melts", Some("Frazer Fir"), "Cypress • Fir • Lemon Peel • Evergreen", WaxMelt, None, None, None)
  const LavenderOasisMelts: Product := Product("Lavender Oasis — Wax Melts", Some("Lavender Oasis"), "Lavender • White Sage • Lemongrass", WaxMelt, None, None, None)
  const WoodzySpellMelts: Product := Product("Woodzy Spell — Wax Melts", Some("Woodzy Spell"), "Warm Mahogany • Earthy Wood", WaxMelt, None, None, None)
  const JamaicaMeCrazyMelts: Product := Product("Jamaica Me Crazy — Wax Melts", Some("Jamaica Me Crazy"), "Orange • Pineapple • Coconut • Rum", WaxMelt, None, None, None)
  const SweetCitrusMedleyMelts: Product := Product("Sweet Citrus Medley — Wax Melts", Some("Sweet Citrus Medley"), "Mango • Gardenia • Blood Orange", WaxMelt, None, None, None)
  const LittleMystery1Melts: Product := Product("Little Mystery 1 — Wax Melts", Some("Little Mystery 1"), "Smoke Oud • Amber Noir • Patchouli", WaxMelt, None, None, None)
  const PreciousMemoriesMelts: Product := Product("Precious Memories - Wax Melts", Some("Precious Memories"), "Black Violet • Geraniums • Saffron", WaxMelt, None, None, None)
  const FantasyBouquetMelts: Product := Product("Fantasy Bouquet - Wax Melts", Some("Fantasy Bouquet"), "White Jasmine • Neroli • Honeysuckle", WaxMelt, None, None, None)
  const GourmetTreatMelts: Product := Product("Gourmet Treat — Wax Melts", Some("Gourmet Treat"), "Black Cardamom • Mahogany Shea • Vanilla", WaxMelt, None, None, None)
  const LittleMystery2Melts: Product := Product("Little Mystery 2 - Wax Melts", Some("Little Mystery 2"), "Oud • Turmeric • Saffron • Patchouli", WaxMelt, None, None, None)
  const LittleMystery3Melts: Product := Product("Little Mystery 3 - Wax Melts", Some("Little Mystery 3"), "Smoked Oud • Cedar • Sandalwood • Incense", WaxMelt, None, None, None)
  // wax sachets, bags, clutches, jewelry and wax melters
  const RoseWaxSachet: Product := Product("Rose Wax Sachet", None, "Rose petals • Wardrobe fresh", WaxSachet, None, None, None)
  const LavenderWaxSachet: Product := Product("Lavender Wax Sachet", None, "Lavender • Calm", WaxSachet, None, None, None)
  const HandmadeBeadedTote: Product := Product("Handmade Beaded Tote", None, "Intricate beadwork • Durable", Bag, None, None, None)
  const MiniBeadedCrossbody: Product := Product("Mini Beaded Crossbody", None, "Compact • Everyday carry", Bag, None, None, None)
  const EveningClutch: Product := Product("Evening Clutch", None, "Handcrafted • Elegant", Clutch, None, None, None)
  const PearlAccentClutch: Product := Product("Pearl Accent Clutch", None, "Statement • Handmade", Clutch, None, None, None)
  const GoldHoopEarrings: Product := Product("Gold Hoop Earrings", None, "14k plated • Light", Jewelry, None, None, None)
  const MinimalPendant: Product := Product("Minimal Pendant", None, "Everyday • Delicate", Jewelry, None, None, None)
  const CeramicWaxMelter: Product := Product("Ceramic Wax Melter", None, "Electric warmer • Even heat", WaxMelters, None, None, None)
  const MinimalPlugInWaxMelter: Product := Product("Minimal Plug-In Wax Melter", None, "Compact • Bedroom friendly", WaxMelters, None, None, None)

  /** The catalog, in source order. */
  const Catalog: seq<Product> := [
    FirstLove,
    FrazerFir,
    LavenderOasis,
    WoodzySpell,
    JamaicaMeCrazy,
    SweetCitrusMedley,
    LittleMystery1,
    PreciousMemories,
    FantasyBouquet,
    GourmetTreat,
    LittleMystery2,
    LittleMystery3,
    SheerKhurma,
    IcedMangoLassi,
    IcedCoffeeEra,
    FirstLoveMelts,
    FrazerFirMelts,
    LavenderOasisMelts,
    WoodzySpellMelts,
    JamaicaMeCrazyMelts,
    SweetCitrusMedleyMelts,
    LittleMystery1Melts,
    PreciousMemoriesMelts,
    FantasyBouquetMelts,
    GourmetTreatMelts,
    LittleMystery2Melts,
    LittleMystery3Melts,
    RoseWaxSachet,
    LavenderWaxSachet,
    HandmadeBeadedTote,
    MiniBeadedCrossbody,
    EveningClutch,
    PearlAccentClutch,
    GoldHoopEarrings,
    MinimalPendant,
    CeramicWaxMelter,
    MinimalPlugInWaxMelter
  ]

  // ---------------------------------------------------------------------------------------------
  // slugify

  /** The characters `[a-z0-9]` that survive into a slug unchanged. */
  predicate IsSlugChar(c: char) {
    'a' <= c <= 'z' || '0' <= c <= '9'
  }

  predicate NotDash(c: char) {
    c != '-'
  }

  /** `toLowerCase` on one character, restricted to ASCII: A-Z become a-z, everything else is kept. */
  function LowerChar(c: char): (r: char)
    ensures IsSlugChar(r) <==> ('a' <= c <= 'z' || 'A' <= c <= 'Z' || '0' <= c <= '9')
    ensures r == '-' <==> c == '-'
  {
    if 'A' <= c <= 'Z' then (c as int + 32) as char else c
  }

  function Lower(s: string): (r: string)
    ensures |r| == |s| && forall i :: 0 <= i < |s| ==> r[i] == LowerChar(s[i])
  {
    seq(|s|, i requires 0 <= i < |s| => LowerChar(s[i]))
  }

  /** The length of the run of characters outside `[a-z0-9]` that starts s. */
  function SeparatorRun(s: string): (n: nat)
    ensures n <= |s| && (n < |s| ==> IsSlugChar(s[n]))
    ensures forall i :: 0 <= i < n ==> !IsSlugChar(s[i])
  {
    if |s| > 0 && !IsSlugChar(s[0]) then
      var n := SeparatorRun(s[1..]);
      assert forall i :: 1 <= i < 1 + n ==> s[i] == s[1..][i - 1];
      1 + n
    else 0
  }

  /** `.replace(/[^a-z0-9]+/g, "-")`: every maximal run of other characters becomes one dash. */
  function CollapseSeparators(s: string): string
    decreases |s|
  {
    if |s| == 0 then ""
    else if IsSlugChar(s[0]) then [s[0]] + CollapseSeparators(s[1..])
    else "-" + CollapseSeparators(s[1 + SeparatorRun(s[1..])..])
  }

  /** `.replace(/(^-|-$)/g, "")`: drops one leading and one trailing dash. */
  function TrimDashes(s: string): string {
    var t := if |s| > 0 && s[0] == '-' then s[1..] else s;
    if |t| > 0 && t[|t| - 1] == '-' then t[..|t| - 1] else t
  }

  function Slugify(s: string): string {
    TrimDashes(CollapseSeparators(Lower(s)))
  }

  predicate SlugAlphabet(t: string) {
    forall i :: 0 <= i < |t| ==> IsSlugChar(t[i]) || t[i] == '-'
  }

  predicate NoDoubleDash(t: string) {
    forall i :: 0 <= i < |t| - 1 && t[i] == '-' ==> t[i + 1] != '-'
  }

  predicate NoEdgeDash(t: string) {
    |t| > 0 ==> t[0] != '-' && t[|t| - 1] != '-'
  }

  /** What `slugify` promises of its output. */
  predicate IsSlug(t: string) {
    SlugAlphabet(t) && NoDoubleDash(t) && NoEdgeDash(t)
  }

  lemma {:induction false} CollapseShape(s: string)
    ensures SlugAlphabet(CollapseSeparators(s)) && NoDoubleDash(CollapseSeparators(s))
    ensures |s| > 0 && IsSlugChar(s[0]) ==> |CollapseSeparators(s)| > 0 && CollapseSeparators(s)[0] == s[0]
    ensures |s| == 0 <==> CollapseSeparators(s) == ""
    decreases |s|
  {
    if |s| > 0 {
      if IsSlugChar(s[0]) {
        CollapseShape(s[1..]);
      } else {
        var rest := s[1 + SeparatorRun(s[1..])..];
        CollapseShape(rest);
        var c := CollapseSeparators(rest);
        assert CollapseSeparators(s) == "-" + c;
        assert |c| > 0 ==> c[0] != '-';
      }
    }
  }

  lemma SlugifyIsSlug(s: string)
    ensures IsSlug(Slugify(s))
  {
    CollapseShape(Lower(s));
  }

  lemma {:induction false} CollapseFixed(t: string)
    requires SlugAlphabet(t) && NoDoubleDash(t)
    ensures CollapseSeparators(t) == t
    decreases |t|
  {
    if |t| > 0 {
      assert SlugAlphabet(t[1..]) && NoDoubleDash(t[1..]);
      if IsSlugChar(t[0]) {
        CollapseFixed(t[1..]);
      } else {
        assert |t| > 1 ==> IsSlugChar(t[1]);
        assert SeparatorRun(t[1..]) == 0;
        CollapseFixed(t[1..]);
      }
    }
  }

  /** The strings `slugify` leaves alone are exactly the slugs. */
  lemma SlugifyFixedPoints(t: string)
    ensures Slugify(t) == t <==> IsSlug(t)
  {
    SlugifyIsSlug(t);
    if IsSlug(t) {
      assert Lower(t) == t;
      CollapseFixed(t);
    }
  }

  lemma SlugifyIdempotent(s: string)
    ensures Slugify(Slugify(s)) == Slugify(s)
  {
    SlugifyIsSlug(s);
    SlugifyFixedPoints(Slugify(s));
  }

  lemma {:induction false} CollapseKeeps(s: string)
    ensures Filter(CollapseSeparators(s), NotDash) == Filter(s, IsSlugChar)
    decreases |s|
  {
    if |s| > 0 {
      if IsSlugChar(s[0]) {
        CollapseKeeps(s[1..]);
        FilterAppend([s[0]], CollapseSeparators(s[1..]), NotDash);
      } else {
        var rest := s[1 + SeparatorRun(s[1..])..];
        CollapseKeeps(rest);
        FilterAppend("-", CollapseSeparators(rest), NotDash);
        SkipSeparators(s);
      }
    }
  }

  /** A leading separator and the run after it contribute no letters or digits. */
  lemma SkipSeparators(s: string)
    requires |s| > 0 && !IsSlugChar(s[0])
    ensures Filter(s, IsSlugChar) == Filter(s[1 + SeparatorRun(s[1..])..], IsSlugChar)
  {
    SeparatorPrefix(s);
    FilterSkipPrefix(s, 1 + SeparatorRun(s[1..]), IsSlugChar);
  }

  /** A separator character and the run after it. */
  lemma SeparatorPrefix(s: string)
    requires |s| > 0 && !IsSlugChar(s[0])
    ensures 1 + SeparatorRun(s[1..]) <= |s|
    ensures forall j :: 0 <= j < 1 + SeparatorRun(s[1..]) ==> !IsSlugChar(s[j])
  {
    var n := SeparatorRun(s[1..]);
    forall j | 0 <= j < 1 + n ensures !IsSlugChar(s[j]) {
      if j > 0 {
        assert s[j] == s[1..][j - 1];
      }
    }
  }

  lemma TrimKeeps(x: string)
    ensures Filter(TrimDashes(x), NotDash) == Filter(x, NotDash)
  {
    var t := if |x| > 0 && x[0] == '-' then x[1..] else x;
    if |x| > 0 && x[0] == '-' {
      assert x == [x[0]] + t;
      FilterAppend([x[0]], t, NotDash);
    }
    if |t| > 0 && t[|t| - 1] == '-' {
      assert t == t[..|t| - 1] + [t[|t| - 1]];
      FilterAppend(t[..|t| - 1], [t[|t| - 1]], NotDash);
    }
  }

  /** Deleting the dashes from a slug gives the ASCII letters and digits of the input, lowercased, in order. */
  lemma SlugifyKeepsLettersAndDigits(s: string)
    ensures Filter(Slugify(s), NotDash) == Filter(Lower(s), IsSlugChar)
  {
    CollapseKeeps(Lower(s));
    TrimKeeps(CollapseSeparators(Lower(s)));
  }

  // ---------------------------------------------------------------------------------------------
  // Names made of words and separators

  /** words[0] + seps[0] + words[1] + ... + words[|seps|]: a name such as "First Love — Wax Melts". */
  function Interleave(words: seq<string>, seps: seq<string>): string
    requires |words| == |seps| + 1
    decreases |seps|
  {
    if |seps| == 0 then words[0] else words[0] + seps[0] + Interleave(words[1..], seps[1..])
  }

  /** The words joined by single dashes. */
  function DashJoin(words: seq<string>): string
    requires |words| > 0
    decreases |words|
  {
    if |words| == 1 then words[0] else words[0] + "-" + DashJoin(words[1..])
  }

  function LowerAll(words: seq<string>): (r: seq<string>)
    ensures |r| == |words| && forall i :: 0 <= i < |words| ==> r[i] == Lower(words[i])
  {
    seq(|words|, i requires 0 <= i < |words| => Lower(words[i]))
  }

  /** A non-empty run of ASCII letters and digits. */
  predicate IsWord(w: string) {
    |w| > 0 && forall i :: 0 <= i < |w| ==> IsSlugChar(LowerChar(w[i]))
  }

  /** A non-empty run of characters that are not ASCII letters or digits ("  ", " — ", " - "). */
  predicate IsSeparator(w: string) {
    |w| > 0 && forall i :: 0 <= i < |w| ==> !IsSlugChar(LowerChar(w[i]))
  }

  predicate AllSlugChars(w: string) {
    forall i :: 0 <= i < |w| ==> IsSlugChar(w[i])
  }

  lemma {:induction false} CollapseWord(w: string, rest: string)
    requires AllSlugChars(w)
    ensures CollapseSeparators(w + rest) == w + CollapseSeparators(rest)
    decreases |w|
  {
    if |w| > 0 {
      assert (w + rest)[1..] == w[1..] + rest;
      CollapseWord(w[1..], rest);
    } else {
      assert w + rest == rest;
    }
  }

  lemma CollapseSeparator(sep: string, rest: string)
    requires |sep| > 0 && forall i :: 0 <= i < |sep| ==> !IsSlugChar(sep[i])
    requires |rest| > 0 ==> IsSlugChar(rest[0])
    ensures CollapseSeparators(sep + rest) == "-" + CollapseSeparators(rest)
  {
    var s := sep + rest;
    var m := |sep| - 1;
    assert SeparatorRun(s[1..]) == m by {
      var t := s[1..];
      assert t == sep[1..] + rest;
      forall i | 0 <= i < m ensures !IsSlugChar(t[i]) {
        assert t[i] == sep[i + 1];
      }
      assert m < |t| ==> t[m] == rest[0];
      SeparatorRunExact(t, m);
    }
    assert s[1 + m..] == rest;
    assert !IsSlugChar(s[0]) by {
      assert s[0] == sep[0];
    }
  }

  /** The separator run is exactly `m` long when `m` non-slug characters are followed by a slug character or the end. */
  lemma {:induction false} SeparatorRunExact(t: string, m: nat)
    requires m <= |t| && forall i :: 0 <= i < m ==> !IsSlugChar(t[i])
    requires m < |t| ==> IsSlugChar(t[m])
    ensures SeparatorRun(t) == m
    decreases m
  {
    if m > 0 {
      forall i | 0 <= i < m - 1 ensures !IsSlugChar(t[1..][i]) {
        assert t[1..][i] == t[i + 1];
      }
      SeparatorRunExact(t[1..], m - 1);
    }
  }

  lemma {:induction false} InterleaveStartsWith(words: seq<string>, seps: seq<string>)
    requires |words| == |seps| + 1 && |words[0]| > 0
    ensures |Interleave(words, seps)| > 0 && Interleave(words, seps)[0] == words[0][0]
  {
  }

  lemma {:induction false} CollapseInterleave(words: seq<string>, seps: seq<string>)
    requires |words| == |seps| + 1
    requires forall i :: 0 <= i < |words| ==> |words[i]| > 0 && AllSlugChars(words[i])
    requires forall i :: 0 <= i < |seps| ==> |seps[i]| > 0 && forall k :: 0 <= k < |seps[i]| ==> !IsSlugChar(seps[i][k])
    ensures CollapseSeparators(Interleave(words, seps)) == DashJoin(words)
    decreases |seps|
  {
    if |seps| == 0 {
      CollapseWord(words[0], "");
      assert words[0] + "" == words[0];
    } else {
      var r := Interleave(words[1..], seps[1..]);
      assert Interleave(words, seps) == words[0] + (seps[0] + r);
      CollapseWord(words[0], seps[0] + r);
      InterleaveStartsWith(words[1..], seps[1..]);
      CollapseSeparator(seps[0], r);
      CollapseInterleave(words[1..], seps[1..]);
    }
  }

  lemma {:induction false} LowerInterleave(words: seq<string>, seps: seq<string>)
    requires |words| == |seps| + 1
    ensures Lower(Interleave(words, seps)) == Interleave(LowerAll(words), LowerAll(seps))
    decreases |seps|
  {
    if |seps| > 0 {
      LowerInterleave(words[1..], seps[1..]);
      assert LowerAll(words)[1..] == LowerAll(words[1..]);
      assert LowerAll(seps)[1..] == LowerAll(seps[1..]);
      var r := Interleave(words[1..], seps[1..]);
      LowerConcat(words[0] + seps[0], r);
      LowerConcat(words[0], seps[0]);
    }
  }

  lemma LowerConcat(a: string, b: string)
    ensures Lower(a + b) == Lower(a) + Lower(b)
  {
  }

  lemma {:induction false} DashJoinEdges(words: seq<string>)
    requires |words| > 0 && forall i :: 0 <= i < |words| ==> |words[i]| > 0
    ensures |DashJoin(words)| > 0
    ensures DashJoin(words)[0] == words[0][0]
    ensures DashJoin(words)[|DashJoin(words)| - 1] == words[|words| - 1][|words[|words| - 1]| - 1]
    decreases |words|
  {
    if |words| > 1 {
      DashJoinEdges(words[1..]);
    }
  }

  /** A non-empty list of non-empty words over [a-z0-9]. */
  predicate SlugWords(words: seq<string>) {
    |words| > 0 && forall i :: 0 <= i < |words| ==> |words[i]| > 0 && AllSlugChars(words[i])
  }

  /** A dash-joined list starts with its first word, followed by a dash when more words follow. */
  lemma DashJoinHead(words: seq<string>)
    requires |words| > 0
    ensures |DashJoin(words)| >= |words[0]| && DashJoin(words)[..|words[0]|] == words[0]
    ensures |words| == 1 ==> DashJoin(words) == words[0]
    ensures |words| > 1 ==> |DashJoin(words)| > |words[0]| && DashJoin(words)[|words[0]|] == '-'
    ensures |words| > 1 ==> DashJoin(words)[|words[0]| + 1..] == DashJoin(words[1..])
  {
  }

  /** Different lists of dash-free words join to different strings: the dash is an unambiguous separator. */
  lemma {:induction false} DashJoinInjective(a: seq<string>, b: seq<string>)
    requires SlugWords(a) && SlugWords(b)
    requires a != b
    ensures DashJoin(a) != DashJoin(b)
    decreases |a|
  {
    DashJoinHead(a);
    DashJoinHead(b);
    var x, y := DashJoin(a), DashJoin(b);
    if a[0] == b[0] {
      var n := |a[0]|;
      if |a| > 1 && |b| > 1 {
        assert a == [a[0]] + a[1..] && b == [b[0]] + b[1..];
        DashJoinInjective(a[1..], b[1..]);
        assert x[n + 1..] != y[n + 1..];
      } else if |a| > 1 {
        assert |x| > n == |y|;
      } else if |b| > 1 {
        assert |y| > n == |x|;
      }
    } else if |a[0]| == |b[0]| {
      assert x[..|a[0]|] != y[..|b[0]|];
    } else if |a[0]| < |b[0]| {
      var n := |a[0]|;
      assert b[0][n] != '-';
      assert y[..|b[0]|][n] == b[0][n];
      if |a| > 1 {
        assert x[n] != y[n];
      } else {
        assert |x| < |y|;
      }
    } else {
      var n := |b[0]|;
      assert a[0][n] != '-';
      assert x[..|a[0]|][n] == a[0][n];
      if |b| > 1 {
        assert x[n] != y[n];
      } else {
        assert |y| < |x|;
      }
    }
  }

  /** The slug of a name made of words and separators is its lowercased words joined by dashes. */
  lemma SlugifyWords(words: seq<string>, seps: seq<string>, lowered: seq<string>)
    requires |words| == |seps| + 1 && |lowered| == |words|
    requires forall i :: 0 <= i < |words| ==> IsWord(words[i]) && Lower(words[i]) == lowered[i]
    requires forall i :: 0 <= i < |seps| ==> IsSeparator(seps[i])
    ensures Slugify(Interleave(words, seps)) == DashJoin(lowered)
    ensures SlugWords(lowered)
  {
    LowerInterleave(words, seps);
    assert LowerAll(words) == lowered;
    CollapseInterleave(lowered, LowerAll(seps));
    DashJoinEdges(lowered);
  }

  // ---------------------------------------------------------------------------------------------
  // productSlug and productDisplayName

  /** `p.slug ?? slugify(p.name)` */
  function ProductSlug(p: Product): string {
    p.slug.GetOr(Slugify(p.name))
  }

  /** `p.displayName ?? p.name` */
  function ProductDisplayName(p: Product): string {
    p.displayName.GetOr(p.name)
  }

  /** A product's slug is its explicit override, or else the `slugify` of its name, and then a well-formed slug. */
  lemma ProductSlugChoice(p: Product)
    ensures p.slug.Some? ==> ProductSlug(p) == p.slug.value
    ensures p.slug.None? ==> ProductSlug(p) == Slugify(p.name) && IsSlug(ProductSlug(p))
    ensures p.slug.None? ==> Filter(ProductSlug(p), NotDash) == Filter(Lower(p.name), IsSlugChar)
  {
    SlugifyIsSlug(p.name);
    SlugifyKeepsLettersAndDigits(p.name);
  }

  /**
   * The label and the slug are independent: giving a product a display name changes what its card
   * shows and never its slug, and without either override the slug is derived from the label shown.
   */
  lemma DisplayNameChoice(p: Product, d: string)
    ensures ProductDisplayName(p.(displayName := Some(d))) == d
    ensures ProductSlug(p.(displayName := Some(d))) == ProductSlug(p)
    ensures p.displayName.None? ==> ProductDisplayName(p) == p.name
    ensures p.displayName.None? && p.slug.None? ==> ProductSlug(p) == Slugify(ProductDisplayName(p))
  {
  }
}

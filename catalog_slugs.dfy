/**
 * The slug of every catalog entry, read off the words of its name, and what follows from that:
 * the slugs are pairwise distinct, and every key of the variant table is the slug of a catalog entry.
 *
 * Each entry gets a few small lemmas (its name as words, its slug, its place in the catalog) so that
 * no single proof has to evaluate the whole catalog and a slug at once.
 */
module CatalogSlugs {
  import opened Products
  import Variants

  // ---------------------------------------------------------------------------------------------
  // Each name as words and separators, and hence its slug

  lemma FirstLoveName()
    ensures FirstLove.name == Interleave(["First", "Love"], [" "])
  {
  }

  lemma FirstLoveSlug()
    ensures ProductSlug(FirstLove) == DashJoin(["first", "love"]) && SlugWords(["first", "love"])
  {
    SlugifyWords(["First", "Love"], [" "], ["first", "love"]);
    FirstLoveName();
  }

  lemma FrazerFirName()
    ensures FrazerFir.name == Interleave(["Frazer", "Fir"], [" "])
  {
  }

  lemma FrazerFirSlug()
    ensures ProductSlug(FrazerFir) == DashJoin(["frazer", "fir"]) && SlugWords(["frazer", "fir"])
  {
    SlugifyWords(["Frazer", "Fir"], [" "], ["frazer", "fir"]);
    FrazerFirName();
  }

  lemma LavenderOasisName()
    ensures LavenderOasis.name == Interleave(["Lavender", "Oasis"], [" "])
  {
  }

  lemma LavenderOasisSlug()
    ensures ProductSlug(LavenderOasis) == DashJoin(["lavender", "oasis"]) && SlugWords(["lavender", "oasis"])
  {
    SlugifyWords(["Lavender", "Oasis"], [" "], ["lavender", "oasis"]);
    LavenderOasisName();
  }

  lemma WoodzySpellName()
    ensures WoodzySpell.name == Interleave(["Woodzy", "Spell"], [" "])
  {
  }

  lemma WoodzySpellSlug()
    ensures ProductSlug(WoodzySpell) == DashJoin(["woodzy", "spell"]) && SlugWords(["woodzy", "spell"])
  {
    SlugifyWords(["Woodzy", "Spell"], [" "], ["woodzy", "spell"]);
    WoodzySpellName();
  }

  lemma JamaicaMeCrazyName()
    ensures JamaicaMeCrazy.name == Interleave(["Jamaica", "Me", "Crazy"], [" ", " "])
  {
  }

  lemma JamaicaMeCrazySlug()
    ensures ProductSlug(JamaicaMeCrazy) == DashJoin(["jamaica", "me", "crazy"]) && SlugWords(["jamaica", "me", "crazy"])
  {
    SlugifyWords(["Jamaica", "Me", "Crazy"], [" ", " "], ["jamaica", "me", "crazy"]);
    JamaicaMeCrazyName();
  }

  lemma SweetCitrusMedleyName()
    ensures SweetCitrusMedley.name == Interleave(["Sweet", "Citrus", "Medley"], [" ", " "])
  {
  }

  lemma SweetCitrusMedleySlug()
    ensures ProductSlug(SweetCitrusMedley) == DashJoin(["sweet", "citrus", "medley"]) && SlugWords(["sweet", "citrus", "medley"])
  {
    SlugifyWords(["Sweet", "Citrus", "Medley"], [" ", " "], ["sweet", "citrus", "medley"]);
    SweetCitrusMedleyName();
  }

  lemma LittleMystery1Name()
    ensures LittleMystery1.name == Interleave(["Little", "Mystery", "1"], [" ", " "])
  {
  }

  lemma LittleMystery1Slug()
    ensures ProductSlug(LittleMystery1) == DashJoin(["little", "mystery", "1"]) && SlugWords(["little", "mystery", "1"])
  {
    SlugifyWords(["Little", "Mystery", "1"], [" ", " "], ["little", "mystery", "1"]);
    LittleMystery1Name();
  }

  lemma PreciousMemoriesName()
    ensures PreciousMemories.name == Interleave(["Precious", "Memories"], [" "])
  {
  }

  lemma PreciousMemoriesSlug()
    ensures ProductSlug(PreciousMemories) == DashJoin(["precious", "memories"]) && SlugWords(["precious", "memories"])
  {
    SlugifyWords(["Precious", "Memories"], [" "], ["precious", "memories"]);
    PreciousMemoriesName();
  }

  lemma FantasyBouquetName()
    ensures FantasyBouquet.name == Interleave(["Fantasy", "Bouquet"], [" "])
  {
  }

  lemma FantasyBouquetSlug()
    ensures ProductSlug(FantasyBouquet) == DashJoin(["fantasy", "bouquet"]) && SlugWords(["fantasy", "bouquet"])
  {
    SlugifyWords(["Fantasy", "Bouquet"], [" "], ["fantasy", "bouquet"]);
    FantasyBouquetName();
  }

  lemma GourmetTreatName()
    ensures GourmetTreat.name == Interleave(["Gourmet", "Treat"], [" "])
  {
  }

  lemma GourmetTreatSlug()
    ensures ProductSlug(GourmetTreat) == DashJoin(["gourmet", "treat"]) && SlugWords(["gourmet", "treat"])
  {
    SlugifyWords(["Gourmet", "Treat"], [" "], ["gourmet", "treat"]);
    GourmetTreatName();
  }

  lemma LittleMystery2Name()
    ensures LittleMystery2.name == Interleave(["Little", "Mystery", "2"], [" ", " "])
  {
  }

  lemma LittleMystery2Slug()
    ensures ProductSlug(LittleMystery2) == DashJoin(["little", "mystery", "2"]) && SlugWords(["little", "mystery", "2"])
  {
    SlugifyWords(["Little", "Mystery", "2"], [" ", " "], ["little", "mystery", "2"]);
    LittleMystery2Name();
  }

  lemma LittleMystery3Name()
    ensures LittleMystery3.name == Interleave(["Little", "Mystery", "3"], [" ", " "])
  {
  }

  lemma LittleMystery3Slug()
    ensures ProductSlug(LittleMystery3) == DashJoin(["little", "mystery", "3"]) && SlugWords(["little", "mystery", "3"])
  {
    SlugifyWords(["Little", "Mystery", "3"], [" ", " "], ["little", "mystery", "3"]);
    LittleMystery3Name();
  }

  lemma SheerKhurmaName()
    ensures SheerKhurma.name == Interleave(["Sheer", "Khurma"], [" "])
  {
  }

  lemma SheerKhurmaSlug()
    ensures ProductSlug(SheerKhurma) == DashJoin(["sheer", "khurma"]) && SlugWords(["sheer", "khurma"])
  {
    SlugifyWords(["Sheer", "Khurma"], [" "], ["sheer", "khurma"]);
    SheerKhurmaName();
  }

  lemma IcedMangoLassiName()
    ensures IcedMangoLassi.name == Interleave(["Iced", "Mango", "Lassi"], [" ", " "])
  {
  }

  lemma IcedMangoLassiSlug()
    ensures ProductSlug(IcedMangoLassi) == DashJoin(["iced", "mango", "lassi"]) && SlugWords(["iced", "mango", "lassi"])
  {
    SlugifyWords(["Iced", "Mango", "Lassi"], [" ", " "], ["iced", "mango", "lassi"]);
    IcedMangoLassiName();
  }

  lemma IcedCoffeeEraName()
    ensures IcedCoffeeEra.name == Interleave(["Iced", "Coffee", "Era"], [" ", " "])
  {
  }

  lemma IcedCoffeeEraSlug()
    ensures ProductSlug(IcedCoffeeEra) == DashJoin(["iced", "coffee", "era"]) && SlugWords(["iced", "coffee", "era"])
  {
    SlugifyWords(["Iced", "Coffee", "Era"], [" ", " "], ["iced", "coffee", "era"]);
    IcedCoffeeEraName();
  }

  lemma FirstLoveMeltsName()
    ensures FirstLoveMelts.name == Interleave(["First", "Love", "Wax", "Melts"], [" ", " — ", " "])
  {
  }

  lemma FirstLoveMeltsSlug()
    ensures ProductSlug(FirstLoveMelts) == DashJoin(["first", "love", "wax", "melts"]) && SlugWords(["first", "love", "wax", "melts"])
  {
    SlugifyWords(["First", "Love", "Wax", "Melts"], [" ", " — ", " "], ["first", "love", "wax", "melts"]);
    FirstLoveMeltsName();
  }

  lemma FrazerFirMeltsName()
    ensures FrazerFirMelts.name == Interleave(["Frazer", "Fir", "Wax", "Melts"], [" ", " — ", " "])
  {
  }

  lemma FrazerFirMeltsSlug()
    ensures ProductSlug(FrazerFirMelts) == DashJoin(["frazer", "fir", "wax", "melts"]) && SlugWords(["frazer", "fir", "wax", "melts"])
  {
    SlugifyWords(["Frazer", "Fir", "Wax", "Melts"], [" ", " — ", " "], ["frazer", "fir", "wax", "melts"]);
    FrazerFirMeltsName();
  }

  lemma LavenderOasisMeltsName()
    ensures LavenderOasisMelts.name == Interleave(["Lavender", "Oasis", "Wax", "Melts"], [" ", " — ", " "])
  {
  }

  lemma LavenderOasisMeltsSlug()
    ensures ProductSlug(LavenderOasisMelts) == DashJoin(["lavender", "oasis", "wax", "melts"]) && SlugWords(["lavender", "oasis", "wax", "melts"])
  {
    SlugifyWords(["Lavender", "Oasis", "Wax", "Melts"], [" ", " — ", " "], ["lavender", "oasis", "wax", "melts"]);
    LavenderOasisMeltsName();
  }

  lemma WoodzySpellMeltsName()
    ensures WoodzySpellMelts.name == Interleave(["Woodzy", "Spell", "Wax", "Melts"], [" ", " — ", " "])
  {
  }

  lemma WoodzySpellMeltsSlug()
    ensures ProductSlug(WoodzySpellMelts) == DashJoin(["woodzy", "spell", "wax", "melts"]) && SlugWords(["woodzy", "spell", "wax", "melts"])
  {
    SlugifyWords(["Woodzy", "Spell", "Wax", "Melts"], [" ", " — ", " "], ["woodzy", "spell", "wax", "melts"]);
    WoodzySpellMeltsName();
  }

  lemma JamaicaMeCrazyMeltsName()
    ensures JamaicaMeCrazyMelts.name == Interleave(["Jamaica", "Me", "Crazy", "Wax", "Melts"], [" ", " ", " — ", " "])
  {
  }

  lemma JamaicaMeCrazyMeltsSlug()
    ensures ProductSlug(JamaicaMeCrazyMelts) == DashJoin(["jamaica", "me", "crazy", "wax", "melts"]) && SlugWords(["jamaica", "me", "crazy", "wax", "melts"])
  {
    SlugifyWords(["Jamaica", "Me", "Crazy", "Wax", "Melts"], [" ", " ", " — ", " "], ["jamaica", "me", "crazy", "wax", "melts"]);
    JamaicaMeCrazyMeltsName();
  }

  lemma SweetCitrusMedleyMeltsName()
    ensures SweetCitrusMedleyMelts.name == Interleave(["Sweet", "Citrus", "Medley", "Wax", "Melts"], [" ", " ", " — ", " "])
  {
  }

  lemma SweetCitrusMedleyMeltsSlug()
    ensures ProductSlug(SweetCitrusMedleyMelts) == DashJoin(["sweet", "citrus", "medley", "wax", "melts"]) && SlugWords(["sweet", "citrus", "medley", "wax", "melts"])
  {
    SlugifyWords(["Sweet", "Citrus", "Medley", "Wax", "Melts"], [" ", " ", " — ", " "], ["sweet", "citrus", "medley", "wax", "melts"]);
    SweetCitrusMedleyMeltsName();
  }

  lemma LittleMystery1MeltsName()
    ensures LittleMystery1Melts.name == Interleave(["Little", "Mystery", "1", "Wax", "Melts"], [" ", " ", " — ", " "])
  {
  }

  lemma LittleMystery1MeltsSlug()
    ensures ProductSlug(LittleMystery1Melts) == DashJoin(["little", "mystery", "1", "wax", "melts"]) && SlugWords(["little", "mystery", "1", "wax", "melts"])
  {
    SlugifyWords(["Little", "Mystery", "1", "Wax", "Melts"], [" ", " ", " — ", " "], ["little", "mystery", "1", "wax", "melts"]);
    LittleMystery1MeltsName();
  }

  lemma PreciousMemoriesMeltsName()
    ensures PreciousMemoriesMelts.name == Interleave(["Precious", "Memories", "Wax", "Melts"], [" ", " - ", " "])
  {
  }

  lemma PreciousMemoriesMeltsSlug()
    ensures ProductSlug(PreciousMemoriesMelts) == DashJoin(["precious", "memories", "wax", "melts"]) && SlugWords(["precious", "memories", "wax", "melts"])
  {
    SlugifyWords(["Precious", "Memories", "Wax", "Melts"], [" ", " - ", " "], ["precious", "memories", "wax", "melts"]);
    PreciousMemoriesMeltsName();
  }

  lemma FantasyBouquetMeltsName()
    ensures FantasyBouquetMelts.name == Interleave(["Fantasy", "Bouquet", "Wax", "Melts"], [" ", " - ", " "])
  {
  }

  lemma FantasyBouquetMeltsSlug()
    ensures ProductSlug(FantasyBouquetMelts) == DashJoin(["fantasy", "bouquet", "wax", "melts"]) && SlugWords(["fantasy", "bouquet", "wax", "melts"])
  {
    SlugifyWords(["Fantasy", "Bouquet", "Wax", "Melts"], [" ", " - ", " "], ["fantasy", "bouquet", "wax", "melts"]);
    FantasyBouquetMeltsName();
  }

  lemma GourmetTreatMeltsName()
    ensures GourmetTreatMelts.name == Interleave(["Gourmet", "Treat", "Wax", "Melts"], [" ", " — ", " "])
  {
  }

  lemma GourmetTreatMeltsSlug()
    ensures ProductSlug(GourmetTreatMelts) == DashJoin(["gourmet", "treat", "wax", "melts"]) && SlugWords(["gourmet", "treat", "wax", "melts"])
  {
    SlugifyWords(["Gourmet", "Treat", "Wax", "Melts"], [" ", " — ", " "], ["gourmet", "treat", "wax", "melts"]);
    GourmetTreatMeltsName();
  }

  lemma LittleMystery2MeltsName()
    ensures LittleMystery2Melts.name == Interleave(["Little", "Mystery", "2", "Wax", "Melts"], [" ", " ", " - ", " "])
  {
  }

  lemma LittleMystery2MeltsSlug()
    ensures ProductSlug(LittleMystery2Melts) == DashJoin(["little", "mystery", "2", "wax", "melts"]) && SlugWords(["little", "mystery", "2", "wax", "melts"])
  {
    SlugifyWords(["Little", "Mystery", "2", "Wax", "Melts"], [" ", " ", " - ", " "], ["little", "mystery", "2", "wax", "melts"]);
    LittleMystery2MeltsName();
  }

  lemma LittleMystery3MeltsName()
    ensures LittleMystery3Melts.name == Interleave(["Little", "Mystery", "3", "Wax", "Melts"], [" ", " ", " - ", " "])
  {
  }

  lemma LittleMystery3MeltsSlug()
    ensures ProductSlug(LittleMystery3Melts) == DashJoin(["little", "mystery", "3", "wax", "melts"]) && SlugWords(["little", "mystery", "3", "wax", "melts"])
  {
    SlugifyWords(["Little", "Mystery", "3", "Wax", "Melts"], [" ", " ", " - ", " "], ["little", "mystery", "3", "wax", "melts"]);
    LittleMystery3MeltsName();
  }

  lemma RoseWaxSachetName()
    ensures RoseWaxSachet.name == Interleave(["Rose", "Wax", "Sachet"], [" ", " "])
  {
  }

  lemma RoseWaxSachetSlug()
    ensures ProductSlug(RoseWaxSachet) == DashJoin(["rose", "wax", "sachet"]) && SlugWords(["rose", "wax", "sachet"])
  {
    SlugifyWords(["Rose", "Wax", "Sachet"], [" ", " "], ["rose", "wax", "sachet"]);
    RoseWaxSachetName();
  }

  lemma LavenderWaxSachetName()
    ensures LavenderWaxSachet.name == Interleave(["Lavender", "Wax", "Sachet"], [" ", " "])
  {
  }

  lemma LavenderWaxSachetSlug()
    ensures ProductSlug(LavenderWaxSachet) == DashJoin(["lavender", "wax", "sachet"]) && SlugWords(["lavender", "wax", "sachet"])
  {
    SlugifyWords(["Lavender", "Wax", "Sachet"], [" ", " "], ["lavender", "wax", "sachet"]);
    LavenderWaxSachetName();
  }

  lemma HandmadeBeadedToteName()
    ensures HandmadeBeadedTote.name == Interleave(["Handmade", "Beaded", "Tote"], [" ", " "])
  {
  }

  lemma HandmadeBeadedToteSlug()
    ensures ProductSlug(HandmadeBeadedTote) == DashJoin(["handmade", "beaded", "tote"]) && SlugWords(["handmade", "beaded", "tote"])
  {
    SlugifyWords(["Handmade", "Beaded", "Tote"], [" ", " "], ["handmade", "beaded", "tote"]);
    HandmadeBeadedToteName();
  }

  lemma MiniBeadedCrossbodyName()
    ensures MiniBeadedCrossbody.name == Interleave(["Mini", "Beaded", "Crossbody"], [" ", " "])
  {
  }

  lemma MiniBeadedCrossbodySlug()
    ensures ProductSlug(MiniBeadedCrossbody) == DashJoin(["mini", "beaded", "crossbody"]) && SlugWords(["mini", "beaded", "crossbody"])
  {
    SlugifyWords(["Mini", "Beaded", "Crossbody"], [" ", " "], ["mini", "beaded", "crossbody"]);
    MiniBeadedCrossbodyName();
  }

  lemma EveningClutchName()
    ensures EveningClutch.name == Interleave(["Evening", "Clutch"], [" "])
  {
  }

  lemma EveningClutchSlug()
    ensures ProductSlug(EveningClutch) == DashJoin(["evening", "clutch"]) && SlugWords(["evening", "clutch"])
  {
    SlugifyWords(["Evening", "Clutch"], [" "], ["evening", "clutch"]);
    EveningClutchName();
  }

  lemma PearlAccentClutchName()
    ensures PearlAccentClutch.name == Interleave(["Pearl", "Accent", "Clutch"], [" ", " "])
  {
  }

  lemma PearlAccentClutchSlug()
    ensures ProductSlug(PearlAccentClutch) == DashJoin(["pearl", "accent", "clutch"]) && SlugWords(["pearl", "accent", "clutch"])
  {
    SlugifyWords(["Pearl", "Accent", "Clutch"], [" ", " "], ["pearl", "accent", "clutch"]);
    PearlAccentClutchName();
  }

  lemma GoldHoopEarringsName()
    ensures GoldHoopEarrings.name == Interleave(["Gold", "Hoop", "Earrings"], [" ", " "])
  {
  }

  lemma GoldHoopEarringsSlug()
    ensures ProductSlug(GoldHoopEarrings) == DashJoin(["gold", "hoop", "earrings"]) && SlugWords(["gold", "hoop", "earrings"])
  {
    SlugifyWords(["Gold", "Hoop", "Earrings"], [" ", " "], ["gold", "hoop", "earrings"]);
    GoldHoopEarringsName();
  }

  lemma MinimalPendantName()
    ensures MinimalPendant.name == Interleave(["Minimal", "Pendant"], [" "])
  {
  }

  lemma MinimalPendantSlug()
    ensures ProductSlug(MinimalPendant) == DashJoin(["minimal", "pendant"]) && SlugWords(["minimal", "pendant"])
  {
    SlugifyWords(["Minimal", "Pendant"], [" "], ["minimal", "pendant"]);
    MinimalPendantName();
  }

  lemma CeramicWaxMelterName()
    ensures CeramicWaxMelter.name == Interleave(["Ceramic", "Wax", "Melter"], [" ", " "])
  {
  }

  lemma CeramicWaxMelterSlug()
    ensures ProductSlug(CeramicWaxMelter) == DashJoin(["ceramic", "wax", "melter"]) && SlugWords(["ceramic", "wax", "melter"])
  {
    SlugifyWords(["Ceramic", "Wax", "Melter"], [" ", " "], ["ceramic", "wax", "melter"]);
    CeramicWaxMelterName();
  }

  lemma MinimalPlugInWaxMelterName()
    ensures MinimalPlugInWaxMelter.name == Interleave(["Minimal", "Plug", "In", "Wax", "Melter"], [" ", "-", " ", " "])
  {
  }

  lemma MinimalPlugInWaxMelterSlug()
    ensures ProductSlug(MinimalPlugInWaxMelter) == DashJoin(["minimal", "plug", "in", "wax", "melter"]) && SlugWords(["minimal", "plug", "in", "wax", "melter"])
  {
    SlugifyWords(["Minimal", "Plug", "In", "Wax", "Melter"], [" ", "-", " ", " "], ["minimal", "plug", "in", "wax", "melter"]);
    MinimalPlugInWaxMelterName();
  }

  // ---------------------------------------------------------------------------------------------
  // Catalog positions

  /** The words of each catalog entry's slug, in catalog order. */
  ghost const CatalogSlugWords: seq<seq<string>> := [
    ["first", "love"],
    ["frazer", "fir"],
    ["lavender", "oasis"],
    ["woodzy", "spell"],
    ["jamaica", "me", "crazy"],
    ["sweet", "citrus", "medley"],
    ["little", "mystery", "1"],
    ["precious", "memories"],
    ["fantasy", "bouquet"],
    ["gourmet", "treat"],
    ["little", "mystery", "2"],
    ["little", "mystery", "3"],
    ["sheer", "khurma"],
    ["iced", "mango", "lassi"],
    ["iced", "coffee", "era"],
    ["first", "love", "wax", "melts"],
    ["frazer", "fir", "wax", "melts"],
    ["lavender", "oasis", "wax", "melts"],
    ["woodzy", "spell", "wax", "melts"],
    ["jamaica", "me", "crazy", "wax", "melts"],
    ["sweet", "citrus", "medley", "wax", "melts"],
    ["little", "mystery", "1", "wax", "melts"],
    ["precious", "memories", "wax", "melts"],
    ["fantasy", "bouquet", "wax", "melts"],
    ["gourmet", "treat", "wax", "melts"],
    ["little", "mystery", "2", "wax", "melts"],
    ["little", "mystery", "3", "wax", "melts"],
    ["rose", "wax", "sachet"],
    ["lavender", "wax", "sachet"],
    ["handmade", "beaded", "tote"],
    ["mini", "beaded", "crossbody"],
    ["evening", "clutch"],
    ["pearl", "accent", "clutch"],
    ["gold", "hoop", "earrings"],
    ["minimal", "pendant"],
    ["ceramic", "wax", "melter"],
    ["minimal", "plug", "in", "wax", "melter"]
  ]

  lemma FirstLoveEntry()
    ensures Catalog[0] == FirstLove && CatalogSlugWords[0] == ["first", "love"]
  {
  }

  lemma FrazerFirEntry()
    ensures Catalog[1] == FrazerFir && CatalogSlugWords[1] == ["frazer", "fir"]
  {
  }

  lemma LavenderOasisEntry()
    ensures Catalog[2] == LavenderOasis && CatalogSlugWords[2] == ["lavender", "oasis"]
  {
  }

  lemma WoodzySpellEntry()
    ensures Catalog[3] == WoodzySpell && CatalogSlugWords[3] == ["woodzy", "spell"]
  {
  }

  lemma JamaicaMeCrazyEntry()
    ensures Catalog[4] == JamaicaMeCrazy && CatalogSlugWords[4] == ["jamaica", "me", "crazy"]
  {
  }

  lemma SweetCitrusMedleyEntry()
    ensures Catalog[5] == SweetCitrusMedley && CatalogSlugWords[5] == ["sweet", "citrus", "medley"]
  {
  }

  lemma LittleMystery1Entry()
    ensures Catalog[6] == LittleMystery1 && CatalogSlugWords[6] == ["little", "mystery", "1"]
  {
  }

  lemma PreciousMemoriesEntry()
    ensures Catalog[7] == PreciousMemories && CatalogSlugWords[7] == ["precious", "memories"]
  {
  }

  lemma FantasyBouquetEntry()
    ensures Catalog[8] == FantasyBouquet && CatalogSlugWords[8] == ["fantasy", "bouquet"]
  {
  }

  lemma GourmetTreatEntry()
    ensures Catalog[9] == GourmetTreat && CatalogSlugWords[9] == ["gourmet", "treat"]
  {
  }

  lemma LittleMystery2Entry()
    ensures Catalog[10] == LittleMystery2 && CatalogSlugWords[10] == ["little", "mystery", "2"]
  {
  }

  lemma LittleMystery3Entry()
    ensures Catalog[11] == LittleMystery3 && CatalogSlugWords[11] == ["little", "mystery", "3"]
  {
  }

  lemma SheerKhurmaEntry()
    ensures Catalog[12] == SheerKhurma && CatalogSlugWords[12] == ["sheer", "khurma"]
  {
  }

  lemma IcedMangoLassiEntry()
    ensures Catalog[13] == IcedMangoLassi && CatalogSlugWords[13] == ["iced", "mango", "lassi"]
  {
  }

  lemma IcedCoffeeEraEntry()
    ensures Catalog[14] == IcedCoffeeEra && CatalogSlugWords[14] == ["iced", "coffee", "era"]
  {
  }

  lemma FirstLoveMeltsEntry()
    ensures Catalog[15] == FirstLoveMelts && CatalogSlugWords[15] == ["first", "love", "wax", "melts"]
  {
  }

  lemma FrazerFirMeltsEntry()
    ensures Catalog[16] == FrazerFirMelts && CatalogSlugWords[16] == ["frazer", "fir", "wax", "melts"]
  {
  }

  lemma LavenderOasisMeltsEntry()
    ensures Catalog[17] == LavenderOasisMelts && CatalogSlugWords[17] == ["lavender", "oasis", "wax", "melts"]
  {
  }

  lemma WoodzySpellMeltsEntry()
    ensures Catalog[18] == WoodzySpellMelts && CatalogSlugWords[18] == ["woodzy", "spell", "wax", "melts"]
  {
  }

  lemma JamaicaMeCrazyMeltsEntry()
    ensures Catalog[19] == JamaicaMeCrazyMelts && CatalogSlugWords[19] == ["jamaica", "me", "crazy", "wax", "melts"]
  {
  }

  lemma SweetCitrusMedleyMeltsEntry()
    ensures Catalog[20] == SweetCitrusMedleyMelts && CatalogSlugWords[20] == ["sweet", "citrus", "medley", "wax", "melts"]
  {
  }

  lemma LittleMystery1MeltsEntry()
    ensures Catalog[21] == LittleMystery1Melts && CatalogSlugWords[21] == ["little", "mystery", "1", "wax", "melts"]
  {
  }

  lemma PreciousMemoriesMeltsEntry()
    ensures Catalog[22] == PreciousMemoriesMelts && CatalogSlugWords[22] == ["precious", "memories", "wax", "melts"]
  {
  }

  lemma FantasyBouquetMeltsEntry()
    ensures Catalog[23] == FantasyBouquetMelts && CatalogSlugWords[23] == ["fantasy", "bouquet", "wax", "melts"]
  {
  }

  lemma GourmetTreatMeltsEntry()
    ensures Catalog[24] == GourmetTreatMelts && CatalogSlugWords[24] == ["gourmet", "treat", "wax", "melts"]
  {
  }

  lemma LittleMystery2MeltsEntry()
    ensures Catalog[25] == LittleMystery2Melts && CatalogSlugWords[25] == ["little", "mystery", "2", "wax", "melts"]
  {
  }

  lemma LittleMystery3MeltsEntry()
    ensures Catalog[26] == LittleMystery3Melts && CatalogSlugWords[26] == ["little", "mystery", "3", "wax", "melts"]
  {
  }

  lemma RoseWaxSachetEntry()
    ensures Catalog[27] == RoseWaxSachet && CatalogSlugWords[27] == ["rose", "wax", "sachet"]
  {
  }

  lemma LavenderWaxSachetEntry()
    ensures Catalog[28] == LavenderWaxSachet && CatalogSlugWords[28] == ["lavender", "wax", "sachet"]
  {
  }

  lemma HandmadeBeadedToteEntry()
    ensures Catalog[29] == HandmadeBeadedTote && CatalogSlugWords[29] == ["handmade", "beaded", "tote"]
  {
  }

  lemma MiniBeadedCrossbodyEntry()
    ensures Catalog[30] == MiniBeadedCrossbody && CatalogSlugWords[30] == ["mini", "beaded", "crossbody"]
  {
  }

  lemma EveningClutchEntry()
    ensures Catalog[31] == EveningClutch && CatalogSlugWords[31] == ["evening", "clutch"]
  {
  }

  lemma PearlAccentClutchEntry()
    ensures Catalog[32] == PearlAccentClutch && CatalogSlugWords[32] == ["pearl", "accent", "clutch"]
  {
  }

  lemma GoldHoopEarringsEntry()
    ensures Catalog[33] == GoldHoopEarrings && CatalogSlugWords[33] == ["gold", "hoop", "earrings"]
  {
  }

  lemma MinimalPendantEntry()
    ensures Catalog[34] == MinimalPendant && CatalogSlugWords[34] == ["minimal", "pendant"]
  {
  }

  lemma CeramicWaxMelterEntry()
    ensures Catalog[35] == CeramicWaxMelter && CatalogSlugWords[35] == ["ceramic", "wax", "melter"]
  {
  }

  lemma MinimalPlugInWaxMelterEntry()
    ensures Catalog[36] == MinimalPlugInWaxMelter && CatalogSlugWords[36] == ["minimal", "plug", "in", "wax", "melter"]
  {
  }

  lemma CatalogSlugWordsA()
    ensures |CatalogSlugWords| == |Catalog|
    ensures forall k :: 0 <= k < 10 ==> ProductSlug(Catalog[k]) == DashJoin(CatalogSlugWords[k]) && SlugWords(CatalogSlugWords[k])
  {
    forall k | 0 <= k < 10
      ensures ProductSlug(Catalog[k]) == DashJoin(CatalogSlugWords[k]) && SlugWords(CatalogSlugWords[k])
    {
      if k == 0 {
        FirstLoveEntry();
        FirstLoveSlug();
      } else if k == 1 {
        FrazerFirEntry();
        FrazerFirSlug();
      } else if k == 2 {
        LavenderOasisEntry();
        LavenderOasisSlug();
      } else if k == 3 {
        WoodzySpellEntry();
        WoodzySpellSlug();
      } else if k == 4 {
        JamaicaMeCrazyEntry();
        JamaicaMeCrazySlug();
      } else if k == 5 {
        SweetCitrusMedleyEntry();
        SweetCitrusMedleySlug();
      } else if k == 6 {
        LittleMystery1Entry();
        LittleMystery1Slug();
      } else if k == 7 {
        PreciousMemoriesEntry();
        PreciousMemoriesSlug();
      } else if k == 8 {
        FantasyBouquetEntry();
        FantasyBouquetSlug();
      } else if k == 9 {
        GourmetTreatEntry();
        GourmetTreatSlug();
      }
    }
  }

  lemma CatalogSlugWordsB()
    ensures |CatalogSlugWords| == |Catalog|
    ensures forall k :: 10 <= k < 19 ==> ProductSlug(Catalog[k]) == DashJoin(CatalogSlugWords[k]) && SlugWords(CatalogSlugWords[k])
  {
    forall k | 10 <= k < 19
      ensures ProductSlug(Catalog[k]) == DashJoin(CatalogSlugWords[k]) && SlugWords(CatalogSlugWords[k])
    {
      if k == 10 {
        LittleMystery2Entry();
        LittleMystery2Slug();
      } else if k == 11 {
        LittleMystery3Entry();
        LittleMystery3Slug();
      } else if k == 12 {
        SheerKhurmaEntry();
        SheerKhurmaSlug();
      } else if k == 13 {
        IcedMangoLassiEntry();
        IcedMangoLassiSlug();
      } else if k == 14 {
        IcedCoffeeEraEntry();
        IcedCoffeeEraSlug();
      } else if k == 15 {
        FirstLoveMeltsEntry();
        FirstLoveMeltsSlug();
      } else if k == 16 {
        FrazerFirMeltsEntry();
        FrazerFirMeltsSlug();
      } else if k == 17 {
        LavenderOasisMeltsEntry();
        LavenderOasisMeltsSlug();
      } else if k == 18 {
        WoodzySpellMeltsEntry();
        WoodzySpellMeltsSlug();
      }
    }
  }

  lemma CatalogSlugWordsC()
    ensures |CatalogSlugWords| == |Catalog|
    ensures forall k :: 19 <= k < 28 ==> ProductSlug(Catalog[k]) == DashJoin(CatalogSlugWords[k]) && SlugWords(CatalogSlugWords[k])
  {
    forall k | 19 <= k < 28
      ensures ProductSlug(Catalog[k]) == DashJoin(CatalogSlugWords[k]) && SlugWords(CatalogSlugWords[k])
    {
      if k == 19 {
        JamaicaMeCrazyMeltsEntry();
        JamaicaMeCrazyMeltsSlug();
      } else if k == 20 {
        SweetCitrusMedleyMeltsEntry();
        SweetCitrusMedleyMeltsSlug();
      } else if k == 21 {
        LittleMystery1MeltsEntry();
        LittleMystery1MeltsSlug();
      } else if k == 22 {
        PreciousMemoriesMeltsEntry();
        PreciousMemoriesMeltsSlug();
      } else if k == 23 {
        FantasyBouquetMeltsEntry();
        FantasyBouquetMeltsSlug();
      } else if k == 24 {
        GourmetTreatMeltsEntry();
        GourmetTreatMeltsSlug();
      } else if k == 25 {
        LittleMystery2MeltsEntry();
        LittleMystery2MeltsSlug();
      } else if k == 26 {
        LittleMystery3MeltsEntry();
        LittleMystery3MeltsSlug();
      } else if k == 27 {
        RoseWaxSachetEntry();
        RoseWaxSachetSlug();
      }
    }
  }

  lemma CatalogSlugWordsD()
    ensures |CatalogSlugWords| == |Catalog|
    ensures forall k :: 28 <= k < 37 ==> ProductSlug(Catalog[k]) == DashJoin(CatalogSlugWords[k]) && SlugWords(CatalogSlugWords[k])
  {
    forall k | 28 <= k < 37
      ensures ProductSlug(Catalog[k]) == DashJoin(CatalogSlugWords[k]) && SlugWords(CatalogSlugWords[k])
    {
      if k == 28 {
        LavenderWaxSachetEntry();
        LavenderWaxSachetSlug();
      } else if k == 29 {
        HandmadeBeadedToteEntry();
        HandmadeBeadedToteSlug();
      } else if k == 30 {
        MiniBeadedCrossbodyEntry();
        MiniBeadedCrossbodySlug();
      } else if k == 31 {
        EveningClutchEntry();
        EveningClutchSlug();
      } else if k == 32 {
        PearlAccentClutchEntry();
        PearlAccentClutchSlug();
      } else if k == 33 {
        GoldHoopEarringsEntry();
        GoldHoopEarringsSlug();
      } else if k == 34 {
        MinimalPendantEntry();
        MinimalPendantSlug();
      } else if k == 35 {
        CeramicWaxMelterEntry();
        CeramicWaxMelterSlug();
      } else if k == 36 {
        MinimalPlugInWaxMelterEntry();
        MinimalPlugInWaxMelterSlug();
      }
    }
  }

  lemma WordListsDistinctA()
    ensures forall i, j :: 0 <= i < 2 && i < j < |CatalogSlugWords| ==> CatalogSlugWords[i] != CatalogSlugWords[j]
  {
  }

  lemma WordListsDistinctB()
    ensures forall i, j :: 2 <= i < 4 && i < j < |CatalogSlugWords| ==> CatalogSlugWords[i] != CatalogSlugWords[j]
  {
  }

  lemma WordListsDistinctC()
    ensures forall i, j :: 4 <= i < 8 && i < j < |CatalogSlugWords| ==> CatalogSlugWords[i] != CatalogSlugWords[j]
  {
  }

  lemma WordListsDistinctD()
    ensures forall i, j :: 8 <= i < 18 && i < j < |CatalogSlugWords| ==> CatalogSlugWords[i] != CatalogSlugWords[j]
  {
  }

  lemma WordListsDistinctE()
    ensures forall i, j :: 18 <= i < 37 && i < j < |CatalogSlugWords| ==> CatalogSlugWords[i] != CatalogSlugWords[j]
  {
  }

  // ---------------------------------------------------------------------------------------------
  // Slugs are unique across the catalog

  /** No two catalog entries share a slug, so every product has its own URL. */
  lemma CatalogSlugsUnique(i: nat, j: nat)
    requires i < j < |Catalog|
    ensures ProductSlug(Catalog[i]) != ProductSlug(Catalog[j])
  {
    CatalogSlugWordsA();
    CatalogSlugWordsB();
    CatalogSlugWordsC();
    CatalogSlugWordsD();
    WordListsDistinctA();
    WordListsDistinctB();
    WordListsDistinctC();
    WordListsDistinctD();
    WordListsDistinctE();
    DashJoinInjective(CatalogSlugWords[i], CatalogSlugWords[j]);
  }

  // ---------------------------------------------------------------------------------------------
  // Every key of the variant table names a catalog entry

  lemma FirstLoveSlugText()
    ensures DashJoin(["first", "love"]) == "first-love"
  {
  }

  lemma FirstLoveKey()
    ensures ProductSlug(FirstLove) == "first-love"
  {
    FirstLoveSlug();
    FirstLoveSlugText();
  }

  lemma LittleMystery2SlugText()
    ensures DashJoin(["little", "mystery", "2"]) == "little-mystery-2"
  {
  }

  lemma LittleMystery2Key()
    ensures ProductSlug(LittleMystery2) == "little-mystery-2"
  {
    LittleMystery2Slug();
    LittleMystery2SlugText();
  }

  lemma LittleMystery3SlugText()
    ensures DashJoin(["little", "mystery", "3"]) == "little-mystery-3"
  {
  }

  lemma LittleMystery3Key()
    ensures ProductSlug(LittleMystery3) == "little-mystery-3"
  {
    LittleMystery3Slug();
    LittleMystery3SlugText();
  }

  /** The variant table has no entry for the slugs of Little Mystery 2 and 3. */
  lemma MysteryCandlesUnlisted()
    ensures Variants.RowsFor(ProductSlug(LittleMystery2)) == [] && Variants.RowsFor(ProductSlug(LittleMystery3)) == []
  {
    LittleMystery2Key();
    LittleMystery3Key();
    assert "little-mystery-2" !in Variants.ProductVariants;
    assert "little-mystery-3" !in Variants.ProductVariants;
  }

  lemma FrazerFirSlugText()
    ensures DashJoin(["frazer", "fir"]) == "frazer-fir"
  {
  }

  lemma FrazerFirKey()
    ensures ProductSlug(FrazerFir) == "frazer-fir"
  {
    FrazerFirSlug();
    FrazerFirSlugText();
  }

  lemma LavenderOasisSlugText()
    ensures DashJoin(["lavender", "oasis"]) == "lavender-oasis"
  {
  }

  lemma LavenderOasisKey()
    ensures ProductSlug(LavenderOasis) == "lavender-oasis"
  {
    LavenderOasisSlug();
    LavenderOasisSlugText();
  }

  lemma WoodzySpellSlugText()
    ensures DashJoin(["woodzy", "spell"]) == "woodzy-spell"
  {
  }

  lemma WoodzySpellKey()
    ensures ProductSlug(WoodzySpell) == "woodzy-spell"
  {
    WoodzySpellSlug();
    WoodzySpellSlugText();
  }

  lemma JamaicaMeCrazySlugText()
    ensures DashJoin(["jamaica", "me", "crazy"]) == "jamaica-me-crazy"
  {
  }

  lemma JamaicaMeCrazyKey()
    ensures ProductSlug(JamaicaMeCrazy) == "jamaica-me-crazy"
  {
    JamaicaMeCrazySlug();
    JamaicaMeCrazySlugText();
  }

  lemma SweetCitrusMedleySlugText()
    ensures DashJoin(["sweet", "citrus", "medley"]) == "sweet-citrus-medley"
  {
  }

  lemma SweetCitrusMedleyKey()
    ensures ProductSlug(SweetCitrusMedley) == "sweet-citrus-medley"
  {
    SweetCitrusMedleySlug();
    SweetCitrusMedleySlugText();
  }

  lemma LittleMystery1SlugText()
    ensures DashJoin(["little", "mystery", "1"]) == "little-mystery-1"
  {
  }

  lemma LittleMystery1Key()
    ensures ProductSlug(LittleMystery1) == "little-mystery-1"
  {
    LittleMystery1Slug();
    LittleMystery1SlugText();
  }

  lemma PreciousMemoriesSlugText()
    ensures DashJoin(["precious", "memories"]) == "precious-memories"
  {
  }

  lemma PreciousMemoriesKey()
    ensures ProductSlug(PreciousMemories) == "precious-memories"
  {
    PreciousMemoriesSlug();
    PreciousMemoriesSlugText();
  }

  lemma FantasyBouquetSlugText()
    ensures DashJoin(["fantasy", "bouquet"]) == "fantasy-bouquet"
  {
  }

  lemma FantasyBouquetKey()
    ensures ProductSlug(FantasyBouquet) == "fantasy-bouquet"
  {
    FantasyBouquetSlug();
    FantasyBouquetSlugText();
  }

  lemma GourmetTreatSlugText()
    ensures DashJoin(["gourmet", "treat"]) == "gourmet-treat"
  {
  }

  lemma GourmetTreatKey()
    ensures ProductSlug(GourmetTreat) == "gourmet-treat"
  {
    GourmetTreatSlug();
    GourmetTreatSlugText();
  }

  lemma SheerKhurmaSlugText()
    ensures DashJoin(["sheer", "khurma"]) == "sheer-khurma"
  {
  }

  lemma SheerKhurmaKey()
    ensures ProductSlug(SheerKhurma) == "sheer-khurma"
  {
    SheerKhurmaSlug();
    SheerKhurmaSlugText();
  }

  lemma IcedMangoLassiSlugText()
    ensures DashJoin(["iced", "mango", "lassi"]) == "iced-mango-lassi"
  {
  }

  lemma IcedMangoLassiKey()
    ensures ProductSlug(IcedMangoLassi) == "iced-mango-lassi"
  {
    IcedMangoLassiSlug();
    IcedMangoLassiSlugText();
  }

  lemma IcedCoffeeEraSlugText()
    ensures DashJoin(["iced", "coffee", "era"]) == "iced-coffee-era"
  {
  }

  lemma IcedCoffeeEraKey()
    ensures ProductSlug(IcedCoffeeEra) == "iced-coffee-era"
  {
    IcedCoffeeEraSlug();
    IcedCoffeeEraSlugText();
  }

  /** Each slug the variant table is keyed by is the slug of some catalog entry. */
  lemma VariantKeysInCatalog(slug: string)
    requires slug in Variants.ProductVariants
    ensures exists i :: 0 <= i < |Catalog| && ProductSlug(Catalog[i]) == slug
  {
    if slug == "first-love" {
      FirstLoveKey();
      FirstLoveEntry();
    } else if slug == "frazer-fir" {
      FrazerFirKey();
      FrazerFirEntry();
    } else if slug == "lavender-oasis" {
      LavenderOasisKey();
      LavenderOasisEntry();
    } else if slug == "woodzy-spell" {
      WoodzySpellKey();
      WoodzySpellEntry();
    } else if slug == "jamaica-me-crazy" {
      JamaicaMeCrazyKey();
      JamaicaMeCrazyEntry();
    } else if slug == "sweet-citrus-medley" {
      SweetCitrusMedleyKey();
      SweetCitrusMedleyEntry();
    } else if slug == "little-mystery-1" {
      LittleMystery1Key();
      LittleMystery1Entry();
    } else if slug == "precious-memories" {
      PreciousMemoriesKey();
      PreciousMemoriesEntry();
    } else if slug == "fantasy-bouquet" {
      FantasyBouquetKey();
      FantasyBouquetEntry();
    } else if slug == "gourmet-treat" {
      GourmetTreatKey();
      GourmetTreatEntry();
    } else if slug == "sheer-khurma" {
      SheerKhurmaKey();
      SheerKhurmaEntry();
    } else if slug == "iced-mango-lassi" {
      IcedMangoLassiKey();
      IcedMangoLassiEntry();
    } else {
      assert slug == "iced-coffee-era";
      IcedCoffeeEraKey();
      IcedCoffeeEraEntry();
    }
  }

  // ---------------------------------------------------------------------------------------------
  // Collections and wax-melt labels

  lemma CollectionsOnCandlesA()
    ensures forall k :: 0 <= k < 10 ==> (Catalog[k].collection.Some? <==> Catalog[k].ptype == Candle)
  {
    forall k | 0 <= k < 10
      ensures Catalog[k].collection.Some? <==> Catalog[k].ptype == Candle
    {
      if k == 0 {
        FirstLoveEntry();
      } else if k == 1 {
        FrazerFirEntry();
      } else if k == 2 {
        LavenderOasisEntry();
      } else if k == 3 {
        WoodzySpellEntry();
      } else if k == 4 {
        JamaicaMeCrazyEntry();
      } else if k == 5 {
        SweetCitrusMedleyEntry();
      } else if k == 6 {
        LittleMystery1Entry();
      } else if k == 7 {
        PreciousMemoriesEntry();
      } else if k == 8 {
        FantasyBouquetEntry();
      } else if k == 9 {
        GourmetTreatEntry();
      }
    }
  }

  lemma CollectionsOnCandlesB()
    ensures forall k :: 10 <= k < 19 ==> (Catalog[k].collection.Some? <==> Catalog[k].ptype == Candle)
  {
    forall k | 10 <= k < 19
      ensures Catalog[k].collection.Some? <==> Catalog[k].ptype == Candle
    {
      if k == 10 {
        LittleMystery2Entry();
      } else if k == 11 {
        LittleMystery3Entry();
      } else if k == 12 {
        SheerKhurmaEntry();
      } else if k == 13 {
        IcedMangoLassiEntry();
      } else if k == 14 {
        IcedCoffeeEraEntry();
      } else if k == 15 {
        FirstLoveMeltsEntry();
      } else if k == 16 {
        FrazerFirMeltsEntry();
      } else if k == 17 {
        LavenderOasisMeltsEntry();
      } else if k == 18 {
        WoodzySpellMeltsEntry();
      }
    }
  }

  lemma CollectionsOnCandlesC()
    ensures forall k :: 19 <= k < 28 ==> (Catalog[k].collection.Some? <==> Catalog[k].ptype == Candle)
  {
    forall k | 19 <= k < 28
      ensures Catalog[k].collection.Some? <==> Catalog[k].ptype == Candle
    {
      if k == 19 {
        JamaicaMeCrazyMeltsEntry();
      } else if k == 20 {
        SweetCitrusMedleyMeltsEntry();
      } else if k == 21 {
        LittleMystery1MeltsEntry();
      } else if k == 22 {
        PreciousMemoriesMeltsEntry();
      } else if k == 23 {
        FantasyBouquetMeltsEntry();
      } else if k == 24 {
        GourmetTreatMeltsEntry();
      } else if k == 25 {
        LittleMystery2MeltsEntry();
      } else if k == 26 {
        LittleMystery3MeltsEntry();
      } else if k == 27 {
        RoseWaxSachetEntry();
      }
    }
  }

  lemma CollectionsOnCandlesD()
    ensures forall k :: 28 <= k < 37 ==> (Catalog[k].collection.Some? <==> Catalog[k].ptype == Candle)
  {
    forall k | 28 <= k < 37
      ensures Catalog[k].collection.Some? <==> Catalog[k].ptype == Candle
    {
      if k == 28 {
        LavenderWaxSachetEntry();
      } else if k == 29 {
        HandmadeBeadedToteEntry();
      } else if k == 30 {
        MiniBeadedCrossbodyEntry();
      } else if k == 31 {
        EveningClutchEntry();
      } else if k == 32 {
        PearlAccentClutchEntry();
      } else if k == 33 {
        GoldHoopEarringsEntry();
      } else if k == 34 {
        MinimalPendantEntry();
      } else if k == 35 {
        CeramicWaxMelterEntry();
      } else if k == 36 {
        MinimalPlugInWaxMelterEntry();
      }
    }
  }

  /** Only candles are tagged with a collection, and every candle is. */
  lemma OnlyCandlesHaveCollection(p: Product)
    requires p in Catalog
    ensures p.collection.Some? <==> p.ptype == Candle
  {
    CollectionsOnCandlesA();
    CollectionsOnCandlesB();
    CollectionsOnCandlesC();
    CollectionsOnCandlesD();
  }

  lemma FirstLoveMeltsLabel()
    ensures FirstLoveMelts.ptype == WaxMelt && ProductDisplayName(FirstLoveMelts) == ProductDisplayName(FirstLove)
  {
  }

  lemma FrazerFirMeltsLabel()
    ensures FrazerFirMelts.ptype == WaxMelt && ProductDisplayName(FrazerFirMelts) == ProductDisplayName(FrazerFir)
  {
  }

  lemma LavenderOasisMeltsLabel()
    ensures LavenderOasisMelts.ptype == WaxMelt && ProductDisplayName(LavenderOasisMelts) == ProductDisplayName(LavenderOasis)
  {
  }

  lemma WoodzySpellMeltsLabel()
    ensures WoodzySpellMelts.ptype == WaxMelt && ProductDisplayName(WoodzySpellMelts) == ProductDisplayName(WoodzySpell)
  {
  }

  lemma JamaicaMeCrazyMeltsLabel()
    ensures JamaicaMeCrazyMelts.ptype == WaxMelt && ProductDisplayName(JamaicaMeCrazyMelts) == ProductDisplayName(JamaicaMeCrazy)
  {
  }

  lemma SweetCitrusMedleyMeltsLabel()
    ensures SweetCitrusMedleyMelts.ptype == WaxMelt && ProductDisplayName(SweetCitrusMedleyMelts) == ProductDisplayName(SweetCitrusMedley)
  {
  }

  lemma LittleMystery1MeltsLabel()
    ensures LittleMystery1Melts.ptype == WaxMelt && ProductDisplayName(LittleMystery1Melts) == ProductDisplayName(LittleMystery1)
  {
  }

  lemma PreciousMemoriesMeltsLabel()
    ensures PreciousMemoriesMelts.ptype == WaxMelt && ProductDisplayName(PreciousMemoriesMelts) == ProductDisplayName(PreciousMemories)
  {
  }

  lemma FantasyBouquetMeltsLabel()
    ensures FantasyBouquetMelts.ptype == WaxMelt && ProductDisplayName(FantasyBouquetMelts) == ProductDisplayName(FantasyBouquet)
  {
  }

  lemma GourmetTreatMeltsLabel()
    ensures GourmetTreatMelts.ptype == WaxMelt && ProductDisplayName(GourmetTreatMelts) == ProductDisplayName(GourmetTreat)
  {
  }

  lemma LittleMystery2MeltsLabel()
    ensures LittleMystery2Melts.ptype == WaxMelt && ProductDisplayName(LittleMystery2Melts) == ProductDisplayName(LittleMystery2)
  {
  }

  lemma LittleMystery3MeltsLabel()
    ensures LittleMystery3Melts.ptype == WaxMelt && ProductDisplayName(LittleMystery3Melts) == ProductDisplayName(LittleMystery3)
  {
  }

  lemma WaxMeltLabels()
    ensures forall m {:trigger Catalog[m]} :: 0 <= m < 12 ==> Catalog[15 + m].ptype == WaxMelt && Catalog[m].ptype == Candle
    ensures forall m {:trigger Catalog[m]} :: 0 <= m < 12 ==> ProductDisplayName(Catalog[15 + m]) == ProductDisplayName(Catalog[m])
  {
    forall m {:trigger Catalog[m]} | 0 <= m < 12
      ensures Catalog[15 + m].ptype == WaxMelt && Catalog[m].ptype == Candle
      ensures ProductDisplayName(Catalog[15 + m]) == ProductDisplayName(Catalog[m])
    {
      if m == 0 {
        FirstLoveMeltsLabel();
        FirstLoveEntry();
        FirstLoveMeltsEntry();
      } else if m == 1 {
        FrazerFirMeltsLabel();
        FrazerFirEntry();
        FrazerFirMeltsEntry();
      } else if m == 2 {
        LavenderOasisMeltsLabel();
        LavenderOasisEntry();
        LavenderOasisMeltsEntry();
      } else if m == 3 {
        WoodzySpellMeltsLabel();
        WoodzySpellEntry();
        WoodzySpellMeltsEntry();
      } else if m == 4 {
        JamaicaMeCrazyMeltsLabel();
        JamaicaMeCrazyEntry();
        JamaicaMeCrazyMeltsEntry();
      } else if m == 5 {
        SweetCitrusMedleyMeltsLabel();
        SweetCitrusMedleyEntry();
        SweetCitrusMedleyMeltsEntry();
      } else if m == 6 {
        LittleMystery1MeltsLabel();
        LittleMystery1Entry();
        LittleMystery1MeltsEntry();
      } else if m == 7 {
        PreciousMemoriesMeltsLabel();
        PreciousMemoriesEntry();
        PreciousMemoriesMeltsEntry();
      } else if m == 8 {
        FantasyBouquetMeltsLabel();
        FantasyBouquetEntry();
        FantasyBouquetMeltsEntry();
      } else if m == 9 {
        GourmetTreatMeltsLabel();
        GourmetTreatEntry();
        GourmetTreatMeltsEntry();
      } else if m == 10 {
        LittleMystery2MeltsLabel();
        LittleMystery2Entry();
        LittleMystery2MeltsEntry();
      } else if m == 11 {
        LittleMystery3MeltsLabel();
        LittleMystery3Entry();
        LittleMystery3MeltsEntry();
      }
    }
  }

  /**
   * The twelve wax melts mirror the first twelve candles: each shows the candle's label on cards,
   * while its own name keeps its slug apart from the candle's.
   */
  lemma WaxMeltsMirrorCandles(m: nat)
    requires m < 12
    ensures Catalog[15 + m].ptype == WaxMelt && Catalog[m].ptype == Candle
    ensures ProductDisplayName(Catalog[15 + m]) == ProductDisplayName(Catalog[m])
    ensures ProductSlug(Catalog[15 + m]) != ProductSlug(Catalog[m])
  {
    WaxMeltLabels();
    CatalogSlugsUnique(m, 15 + m);
  }
}

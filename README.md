# fsblends storefront core, modelled in Dafny

The fsblends storefront sells hand-poured candles, wax melts, sachets, bags, clutches, jewelry and
wax melters. This project models the parts of the storefront that hold real rules:

- **The catalog** (`src/data/products.ts`). This is the product list and `slugify`, which lowercases a
  name, collapses every run of non-alphanumerics to one dash and trims edge dashes. It also holds the
  `productSlug` and `productDisplayName` fallbacks. Module `Products` models it; module `CatalogSlugs`
  proves the catalog's data invariants.
- **The variant table** (`src/data/variants.ts`). It maps a product slug to its purchasable
  (size, container colour, price in cents) rows. Module `Variants` models it and proves the invariants
  the table is meant to keep.
- **The canonical variant rules** (`src/lib/variant-logic.ts`). These are `hasContainer`,
  `firstValidSelection`, `findVariant`, the two "which options are selectable" maps and
  `coerceSelection`, in module `VariantLogic`.
- **The cart store** (`src/lib/cart.tsx`). It is a list of lines plus the drawer flag, with its
  mutations, its derived unit count and subtotal, and hydration/persistence. Module `Cart` models it
  as the class `CartStore` over the pure list transforms.
- **Three components that carry their own copies of the variant rules.**
  - The catalog grid and its per-card `InlineQuickBuy` (`src/components/ProductCatalog.tsx`), in
    module `ProductCatalog`.
  - The `QuickBuySheet` panel (`src/components/QuickBuySheet.tsx`), in module `QuickBuySheet`.
  - The `VariantPicker` (`src/components/variant-picker.tsx`), in module `VariantPicker`.

  Each component's state becomes a class with a method per handler or effect. Its derived values are
  functions, and lemmas say where its rules agree with `VariantLogic` and where they differ.

`Options` (an `Option` datatype) and `ArrayOps` (the JavaScript `find`/`findIndex`/`some`/`filter`/`Set`
idioms with their contracts) are shared helpers.

Decisions the model takes from the code:

- **`findVariant` accepts partial selections.** The code resolves the empty selection `{}` to the first
  row. The model follows the code (`VariantLogic.FindVariantNoSelection`). As a consequence,
  `coerceSelection` returns `{}` exactly when it is given `{}` or the product has no rows, not only in
  the second case.
- **Gourmet Treat has six rows.** The table lists all six 6/8/10 oz × black/white rows for
  `gourmet-treat`, like every other product with a choice (`Variants.RegularProductsFullGrid`).
- **Little Mystery 2 and 3 cannot be bought from their card.** Both are classic candles, so their card
  opens the panel, but the variant table has no rows for their slugs, so the panel never chooses a row
  and "Add" does nothing (`ProductCatalog.MysteryCandlesCannotBeAdded`).
- **Wax melters are never listed.** No grid section lists products of type `wax-melters`, although they
  are in the catalog (`ProductCatalog.CatalogCoverage`).
- **`InlineQuickBuy`'s resync effect reads a stale size.** The effect that resyncs the selection when
  the product changes looks up the colour with the size held *before* the update, exactly as the code
  does (`ProductCatalog.Synced`). The colour is that of the first row of that size, whatever colour was
  chosen, so a card on an offered (size, colour) pair that is not its size's first loses the colour,
  where the panel's repair keeps it (`ProductCatalog.SyncedColour`,
  `QuickBuySheet.SyncedDropsColourRepairedKeeps`).
- **Every card is remounted after a cart change.** `Section` is declared inside `ProductCatalog`,
  which reads the cart context, and the provider builds a new value on every render, so each add
  gives `Section` a new identity and React mounts every card afresh: panel closed, quantity 1, first
  row (`ProductCatalog.InlineQuickBuy.Remount`, called by the adding methods).
- **A picker cannot move between a slug with rows and one without.** `VariantPicker` returns before
  its hooks when there are no rows, so such a change renders a different number of hooks and React
  throws; `VariantPicker.Picker.ChangeSlug` reports it as `ok = false`.
- **`QuickBuySheet.addToCart` is refused on a product with no rows.** In the code, `rows[0]` would be
  undefined there and the line could not be built. The model returns `ok = false` and changes nothing.
- **Variant colours are optional.** The TypeScript `Variant` type makes `color` required, but every reader
  guards against it being missing. The model therefore makes the colour an `Option` and proves the
  table never omits it (`Variants.EveryRowColoured`).

## Model

The plain definitions `Products.Slugify`, `Products.ProductSlug`, `Products.ProductDisplayName`,
`Cart.Count`, `Cart.Subtotal`, `Cart.CartStore.UnitCount`, `Cart.CartStore.SubtotalCents` and
`ProductCatalog.Shown` carry no contract of their own; the lemma rows citing the same lines state
their properties.

| member | source | states |
|---|---|---|
| Products.LowerChar | src/data/products.ts:93 | ASCII lowercasing: the result is a slug letter/digit exactly when the input is an ASCII letter or digit, and only a dash stays a dash |
| Products.SlugifyIsSlug | src/data/products.ts:92-93 | every slug uses only `a-z`, `0-9` and `-`, has no `--` and does not start or end with `-` |
| Products.SlugifyFixedPoints | src/data/products.ts:92-93 | `slugify` leaves a string unchanged exactly when it already has the slug shape |
| Products.SlugifyIdempotent | src/data/products.ts:92-93 | slugifying a slug gives the same slug |
| Products.SlugifyKeepsLettersAndDigits | src/data/products.ts:92-93 | deleting the dashes from a slug leaves exactly the input's lowercased ASCII letters and digits, in order |
| Products.CollapseShape | src/data/products.ts:93 | replacing each run of non-alphanumerics by one dash yields only slug characters, no double dash, keeps a leading letter or digit, and is empty only for empty input |
| Products.CollapseKeeps | src/data/products.ts:93 | collapsing separators keeps every letter and digit in order and adds nothing but dashes |
| Products.TrimKeeps | src/data/products.ts:93 | trimming edge dashes removes only dashes |
| Products.SlugifyWords | src/data/products.ts:92-93 | a name made of alphanumeric words joined by non-empty separator runs slugifies to its lowercased words joined by single dashes (so "First Love — Wax Melts" gives "first-love-wax-melts") |
| Products.DashJoinInjective | src/data/products.ts:92-93 | different lists of dash-free, non-empty words give different dash-joined slugs |
| Products.CollapseInterleave | src/data/products.ts:93 | words interleaved with separator runs collapse to the words joined by single dashes |
| Products.ProductSlugChoice | src/data/products.ts:96 | a product's slug is its explicit slug when present, otherwise the slug of its name, which then has slug shape and keeps the name's letters and digits |
| Products.DisplayNameChoice | src/data/products.ts:96-99 | a display name changes the label cards show and never the slug; without one the label is the name, and without either override the slug is the slugified label |
| CatalogSlugs.CatalogSlugsUnique | src/data/products.ts:29-89 | no two catalog entries share a slug |
| CatalogSlugs.VariantKeysInCatalog | src/data/variants.ts:21-122 | every slug the variant table is keyed by is the slug of some catalog entry |
| CatalogSlugs.OnlyCandlesHaveCollection | src/data/products.ts:20-89 | a catalog entry carries a collection exactly when it is a candle |
| CatalogSlugs.WaxMeltsMirrorCandles | src/data/products.ts:55-68 | each of the twelve wax melts shows the label of the matching classic candle, yet has a slug different from it |
| Variants.PriceDependsOnlyOnSize | src/data/variants.ts:12-122 | every row costs 2200, 2800 or 3500 cents according to its size 6, 8 or 10 oz |
| Variants.EveryRowColoured | src/data/variants.ts:21-122 | every row of the table has a container colour |
| Variants.OptionsUnique | src/data/variants.ts:23-121 | within one product no two rows offer the same (size, colour) pair |
| Variants.RegularProductsFullGrid | src/data/variants.ts:17-106 | every product with more than one row has exactly six rows covering all 6/8/10 oz × black/white combinations |
| Variants.TableShape | src/data/variants.ts:108-121 | exactly iced-mango-lassi, sheer-khurma and iced-coffee-era have a single row, and every other product follows the 6/8/10 oz × black/white grid order |
| Variants.IdsDistinctWithin | src/data/variants.ts:21-122 | no two rows of one product share an id |
| Variants.IdsUnique | src/data/variants.ts:21-122 | no two rows anywhere in the table share an id |
| Variants.IdStemOfKey | src/data/variants.ts:21-122 | all ids of a product start with a stem that belongs to that product alone |
| VariantLogic.HasContainer | src/lib/variant-logic.ts:14-18 | a product has a container option exactly when some row has a colour |
| VariantLogic.HasContainerTable | src/lib/variant-logic.ts:14-18 | on the table, a slug has a container option exactly when it is a known slug; unknown slugs have none |
| VariantLogic.FirstValidSelection | src/lib/variant-logic.ts:21-26 | the default selection is empty exactly when there are no rows, and otherwise is the first row's size and colour |
| VariantLogic.FindVariant | src/lib/variant-logic.ts:29-37 | a found row is a row of the product, has the chosen size when one is set and the chosen colour when both sides have one; nothing is found exactly when no row matches |
| VariantLogic.FindVariantFirst | src/lib/variant-logic.ts:31-36 | the row found is the first matching row in table order |
| VariantLogic.FindVariantNoSelection | src/lib/variant-logic.ts:31-36 | the empty selection resolves exactly when there are rows, and then to the first row |
| VariantLogic.FirstValidSelectionResolves | src/lib/variant-logic.ts:21-37 | the default selection resolves to the first row |
| VariantLogic.ValidSizes | src/lib/variant-logic.ts:40-50 | the map has the three sizes as keys, and a size is selectable exactly when some row has it and is compatible with the chosen container; the chosen size is ignored |
| VariantLogic.ValidContainers | src/lib/variant-logic.ts:53-64 | the map has both colours as keys, is all false without a container option, and a colour is selectable exactly when some row has it and the chosen size if one is set |
| VariantLogic.CoerceSelection | src/lib/variant-logic.ts:67-85 | a resolvable selection is kept; the result is empty exactly when the input is empty or there are no rows; a known size is kept with the colour of its first row; otherwise the first row is taken |
| VariantLogic.CoerceResolves | src/lib/variant-logic.ts:67-85 | for a product with rows, the coerced selection always resolves to a row |
| VariantLogic.CoerceIdempotent | src/lib/variant-logic.ts:67-85 | coercing twice gives the same selection as coercing once |
| VariantLogic.SizesOf | src/components/variant-picker.tsx:25-28 | the distinct sizes are exactly the offered ones, each listed once, the first row's first |
| VariantLogic.ColorsOf | src/components/variant-picker.tsx:29-32 | the distinct colours are exactly the rows' colours, each listed once, the first row's first |
| Cart.Removed | src/lib/cart.tsx:57-59 | no kept line has the removed id, every line with another id is kept, and the kept lines stay in order |
| Cart.RemovedAt | src/lib/cart.tsx:57-59 | in a cart with unique ids, removing a line's id cuts out exactly that line |
| Cart.Incremented | src/lib/cart.tsx:61-63 | length, ids, names and prices are unchanged, and exactly the lines with the id gain one unit |
| Cart.Decremented | src/lib/cart.tsx:65-72 | the cart never grows, and no line of that id is kept with zero or fewer units |
| Cart.DecrementMatching | src/lib/cart.tsx:65-72 | on every list, duplicate ids included, the lines with that id come out one unit lighter, in their order, with those that reach zero dropped |
| Cart.DecrementKeepsOthers | src/lib/cart.tsx:65-72 | the lines with other ids are unchanged and in the same order |
| Cart.DecrementLowers | src/lib/cart.tsx:65-72 | in a cart with unique ids, a matching line with more than one unit loses exactly one unit in place |
| Cart.DecrementDrops | src/lib/cart.tsx:65-72 | in a cart with unique ids, a matching line with at most one unit is removed |
| Cart.AbsentIdNoChange | src/lib/cart.tsx:57-72 | remove, increment and decrement on an id not in the cart leave it unchanged |
| Cart.TotalsAppend | src/lib/cart.tsx:74-75 | unit count and subtotal add up over concatenated carts |
| Cart.IncrementTotals | src/lib/cart.tsx:61-75 | with unique ids, incrementing a line raises the count by one and the subtotal by that line's price |
| Cart.DecrementTotals | src/lib/cart.tsx:65-75 | with unique ids, decrementing a line lowers the count by one and the subtotal by its price, or removes the line when it had at most one unit |
| Cart.RemovedKeepsUnique | src/lib/cart.tsx:57-59 | removing keeps at most one line per id |
| Cart.IncrementedKeepsUnique | src/lib/cart.tsx:61-63 | incrementing keeps at most one line per id |
| Cart.DecrementedKeepsUnique | src/lib/cart.tsx:65-72 | decrementing keeps at most one line per id |
| Cart.IndexOf | src/components/ProductCatalog.tsx:216 | `findIndex` by id: a found index holds that id and no earlier line has it, and nothing is found exactly when no line has it |
| Cart.Merged | src/components/ProductCatalog.tsx:214-220 | the add-to-cart merge: with the id present the length is kept, every line but the first with that id is unchanged, and that line grows by the item's quantity; otherwise the item is appended |
| Cart.MergedKeepsUnique | src/components/ProductCatalog.tsx:214-220 | the merge keeps at most one line per id and grows the cart by at most one line |
| Cart.MergedTotals | src/components/ProductCatalog.tsx:214-220 | with unique ids, the merge raises the count by the item's quantity and the subtotal by that quantity times the price of the line it lands on (the item's own price when appended) |
| Cart.Hydrated | src/lib/cart.tsx:35-43 | stored data is adopted only when it parses as an array; missing, unparsable or non-array data leaves the cart as it was |
| Cart.CartStore.constructor | src/lib/cart.tsx:33-50 | the drawer starts closed, the items are the hydrated ones, and storage holds them |
| Cart.CartStore.Toggle | src/lib/cart.tsx:53 | flips the drawer flag and changes nothing else |
| Cart.CartStore.OpenCart | src/lib/cart.tsx:54 | opens the drawer and changes nothing else |
| Cart.CartStore.Close | src/lib/cart.tsx:55 | closes the drawer and changes nothing else |
| Cart.CartStore.SetItems | src/lib/cart.tsx:46-50 | replaces the items and persists them; the drawer flag is untouched and never stored |
| Cart.CartStore.Remove | src/lib/cart.tsx:57-59 | the items become the removed list and are persisted; unique ids stay unique |
| Cart.CartStore.Increment | src/lib/cart.tsx:61-63 | the items become the incremented list and are persisted; unique ids stay unique |
| Cart.CartStore.Decrement | src/lib/cart.tsx:65-72 | the items become the decremented list and are persisted; unique ids stay unique; the lines with that id are the old ones one unit lighter, those at zero dropped |
| Cart.CartStore.Reload | src/lib/cart.tsx:33-50 | a provider mounted over the storage a persisted store wrote back shows the same lines, with the drawer shut, and is itself persisted |
| ProductCatalog.Include | src/components/ProductCatalog.tsx:38-45 | no filter accepts everything, a type filter rejects unlisted types, a collection filter constrains only candles and rejects candles without a collection; stated as a full if-and-only-if |
| ProductCatalog.SectionItems | src/components/ProductCatalog.tsx:48-58 | each section lists, in catalog order, exactly the catalog entries of its kind that the filter accepts |
| ProductCatalog.SectionsDisjoint | src/components/ProductCatalog.tsx:48-58 | no product appears in two sections, so the classic and dessert lists are disjoint |
| ProductCatalog.MeltersNeverListed | src/components/ProductCatalog.tsx:48-58 | no section lists a wax melter |
| ProductCatalog.CatalogCoverage | src/components/ProductCatalog.tsx:48-58 | with no filter, a catalog entry appears in some section exactly when it is not a wax melter |
| ProductCatalog.SectionOfType | src/components/ProductCatalog.tsx:48-58 | every listed product type has the section that holds it |
| ProductCatalog.OnlyCandles | src/components/ProductCatalog.tsx:61-62 | the "only candles" flag holds exactly when the type filter is the single type candle |
| ProductCatalog.OnlyCandlesGuardRedundant | src/components/ProductCatalog.tsx:61-62 | under an only-candles filter every non-candle section is already empty, and a section is shown exactly when it has items |
| ProductCatalog.LineIdInjective | src/components/ProductCatalog.tsx:292 | for one slug, the line id `${slug}-${size}-${color ?? "default"}` determines the size and colour |
| ProductCatalog.OnAdd | src/components/ProductCatalog.tsx:214-222 | the cart's items become the merge of the item into them, the drawer opens, storage holds the new items, and unique ids stay unique |
| ProductCatalog.InitialChoice | src/components/ProductCatalog.tsx:263-264 | the card's first selection is the canonical default selection |
| ProductCatalog.Synced | src/components/ProductCatalog.tsx:267-274 | after a product change the size is an offered one, kept when still offered; a colourless product has no colour; on a coloured product the pair offered |
| ProductCatalog.SyncedColour | src/components/ProductCatalog.tsx:272 | on a product whose rows all name a colour, the resync takes the colour of the first row of the size held before when that size is offered, whatever colour was chosen, and the first row's colour otherwise |
| ProductCatalog.MountSyncNoChange | src/components/ProductCatalog.tsx:262-274 | on mount the resync effect leaves the first selection unchanged |
| ProductCatalog.PanelChoice | src/components/ProductCatalog.tsx:276-281 | nothing exactly when there are no rows; an exact offered pair (or, on a colourless product, an offered size) picks a matching row; every incomplete or failed choice falls back to the first row |
| ProductCatalog.PanelChoiceFirst | src/components/ProductCatalog.tsx:278 | an exact pair picks the first row offering it |
| ProductCatalog.PanelPrice | src/components/ProductCatalog.tsx:277-283 | 3500 without rows; an offered pair (on a product with colours) or an offered size (on one without) shows the price of a row with that option; any other choice shows the first row's price |
| ProductCatalog.PanelPriceBySize | src/components/ProductCatalog.tsx:283 | for a known slug the card's price is one of the three size prices |
| ProductCatalog.PanelPriceOnTable | src/components/ProductCatalog.tsx:277-283 | on the table's data an offered (size, colour) pair previews exactly that size's unified price |
| ProductCatalog.ReadyMeansResolved | src/components/ProductCatalog.tsx:277-286 | on a product whose rows all name a colour, a ready choice the searches find is exactly a complete choice `findVariant` resolves, and both pick the same row |
| ProductCatalog.StartsReady | src/components/ProductCatalog.tsx:262-286 | a card for a product the table lists starts ready, on an offered option, and would add the first row |
| ProductCatalog.MysteryCandlesCannotBeAdded | src/data/products.ts:47-48 | Little Mystery 2 and 3 are classic candles with no variant rows, so the panel never chooses a row for any selection |
| ProductCatalog.PanelChoiceAgreesWithFindVariant | src/components/ProductCatalog.tsx:276-281 | for an offered (size, colour) pair the card and the canonical `findVariant` pick the same row |
| ProductCatalog.PanelChoiceFallsBack | src/components/ProductCatalog.tsx:278 | for a size the product does not offer, `findVariant` finds nothing while the card falls back to the first row |
| ProductCatalog.ClampQty | src/components/ProductCatalog.tsx:428 | the quantity is always 1..10: values in range are kept, larger ones become 10, and missing, zero or negative ones become 1 |
| ProductCatalog.InlineQuickBuy.constructor | src/components/ProductCatalog.tsx:250-265 | the panel starts closed with quantity 1 and the default selection of the product's rows |
| ProductCatalog.InlineQuickBuy.ChangeProduct | src/components/ProductCatalog.tsx:250-274 | the new product's rows are loaded; when the slug changes the selection is resynced as the effect does, and with the same slug it is kept |
| ProductCatalog.InlineQuickBuy.Remount | src/components/ProductCatalog.tsx:162-265 | a remounted card has its panel closed, one unit and the first row's options, which the mount effect leaves alone |
| ProductCatalog.InlineQuickBuy.InstantMatchesPanel | src/components/ProductCatalog.tsx:289-310 | for a product with rows the instant line is the panel's line for the first row with one unit, so both paths merge into one cart line |
| ProductCatalog.InlineQuickBuy.PanelLinesMerge | src/components/ProductCatalog.tsx:303-310 | on a product with colours two panel adds share a line id exactly when they chose the same size and colour |
| ProductCatalog.InlineQuickBuy.AddInstant | src/components/ProductCatalog.tsx:289-299 | the instant line is merged into the cart, the drawer opens and the items are persisted; the cart change remounts the card |
| ProductCatalog.InlineQuickBuy.AddFromPanel | src/components/ProductCatalog.tsx:301-312 | nothing at all changes unless the choice is ready and a row is chosen; then the line chosen before the add is merged, the drawer opens, storage holds the items, and the card is remounted (panel closed, one unit, first row) |
| ProductCatalog.InlineQuickBuy.BuyClick | src/components/ProductCatalog.tsx:314-322 | classic candles toggle the panel and leave the choice, the quantity and the cart alone; every other product is added at once, opening the drawer, persisting the items and remounting the card |
| ProductCatalog.InlineQuickBuy.ClickSize | src/components/ProductCatalog.tsx:363-369 | the size is taken; on a product with colours the colour becomes that of the size's first row, so an offered size yields an offered pair and a ready choice |
| ProductCatalog.InlineQuickBuy.ClickColor | src/components/ProductCatalog.tsx:391-398 | the colour is taken exactly when the chosen size is offered in it; otherwise nothing changes |
| ProductCatalog.InlineQuickBuy.SetQty | src/components/ProductCatalog.tsx:428 | the quantity becomes the clamped input, within 1..10 |
| ProductCatalog.InlineQuickBuy.ClosePanel | src/components/ProductCatalog.tsx:447 | the panel closes |
| QuickBuySheet.InitialSelection | src/components/QuickBuySheet.tsx:47-50 | the sheet starts on the first row's size and colour, or the empty selection without rows, and that start resolves to the first row |
| QuickBuySheet.FirstColorFor | src/components/QuickBuySheet.tsx:59 | the colour of the first row of a size, and none for a size not offered |
| QuickBuySheet.Repaired | src/components/QuickBuySheet.tsx:53-69 | after repair the size is offered, the previous size is kept if still offered and the first row's size otherwise; the previous colour is kept exactly when that pair exists, else the colour of the size's first row |
| QuickBuySheet.MountRepairNoChange | src/components/QuickBuySheet.tsx:53-69 | on mount the repair effect leaves the first row's selection unchanged |
| QuickBuySheet.SyncedDropsColourRepairedKeeps | src/components/ProductCatalog.tsx:267-274 | when the chosen size is offered in the chosen colour but that colour is not the size's first, the catalog card's resync drops the colour and the panel's repair keeps it |
| QuickBuySheet.RepairedReady | src/components/QuickBuySheet.tsx:53-69 | on a product with rows, every one coloured, the repaired selection is ready and names an offered option |
| QuickBuySheet.RepairAgreesWithCoerce | src/components/QuickBuySheet.tsx:56-67 | for an offered size with a colour, the sheet's repair and the canonical coercion give the same selection |
| QuickBuySheet.RepairFillsColour | src/components/QuickBuySheet.tsx:56-67 | for a size with no colour chosen, the canonical coercion keeps the colour missing while the sheet fills it in |
| QuickBuySheet.PriceCents | src/components/QuickBuySheet.tsx:72-83 | 3500 without rows; an offered pair (on a product with colours) or an offered size (on one without) shows the price of a row with that option; any other choice shows the first row's price |
| QuickBuySheet.PriceCentsAgreesWithPanel | src/components/QuickBuySheet.tsx:72-83 | the sheet's price preview equals the card's price for every selection |
| QuickBuySheet.SheetChoice | src/components/QuickBuySheet.tsx:92-95 | the row to add: none exactly without rows, always a row of the product, the first matching row in table order when one matches, and the first row when none does |
| QuickBuySheet.SheetChoiceAgreesWithPanel | src/components/QuickBuySheet.tsx:92-95 | for a ready selection the sheet and the card choose the same row |
| QuickBuySheet.SheetMatchesCard | src/components/QuickBuySheet.tsx:97-112 | opened with a product's own name, the sheet adds the card's line for the same row and quantity but labelled with that name; the labels agree exactly when the product has no separate display name |
| QuickBuySheet.SameIdFromBothWidgets | src/components/QuickBuySheet.tsx:97 | on a product with colours, the sheet and the card build the same line id for a ready selection, so their adds merge into one line |
| QuickBuySheet.Sheet.constructor | src/components/QuickBuySheet.tsx:31-50 | open as requested, quantity 1, and the first row's selection, which is ready and offered whenever the product has rows and which the mount-time repair leaves as it is |
| QuickBuySheet.Sheet.Repair | src/components/QuickBuySheet.tsx:53-69 | the selection becomes its repaired form |
| QuickBuySheet.Sheet.ChangeName | src/components/QuickBuySheet.tsx:31-69 | a new product name looks the rows up again; when the slug changes the selection is repaired against the new rows, and is then ready on a product with rows; otherwise it is kept |
| QuickBuySheet.Sheet.AddToCart | src/components/QuickBuySheet.tsx:91-119 | succeeds exactly when the product has rows, then merges the chosen line, opens the drawer and persists the items; otherwise the cart is entirely unchanged |
| QuickBuySheet.Sheet.TriggerClick | src/components/QuickBuySheet.tsx:122-133 | a single-row product merges that row with one unit into the cart, opens the drawer, persists the items and leaves the sheet's own flag unchanged; any other product opens the sheet and leaves the cart entirely alone |
| QuickBuySheet.Sheet.AddClick | src/components/QuickBuySheet.tsx:289 | when ready (on a product with rows) merges the selection with the sheet's quantity, opens the drawer and persists the items; otherwise the cart is entirely unchanged |
| QuickBuySheet.Sheet.ClickSize | src/components/QuickBuySheet.tsx:196-210 | an unavailable size changes nothing; an available one is taken with the colour of its first row (none on a colourless product), and on coloured rows the choice is then ready |
| QuickBuySheet.Sheet.ClickColor | src/components/QuickBuySheet.tsx:234-243 | a colour is taken exactly when the chosen size is offered in it; otherwise nothing changes |
| QuickBuySheet.Sheet.SetQty | src/components/QuickBuySheet.tsx:275 | the quantity becomes the clamped input, within 1..10 |
| QuickBuySheet.Sheet.Close | src/components/QuickBuySheet.tsx:296 | the sheet closes |
| VariantPicker.HideAllPickers | src/components/variant-picker.tsx:34-36 | the pickers hide exactly when there are rows and they all share one size and one colour |
| VariantPicker.SingleSize | src/components/variant-picker.tsx:25-36 | there is a single distinct size exactly when there are rows and all have the first row's size |
| VariantPicker.SingleColor | src/components/variant-picker.tsx:29-36 | there is a single distinct colour exactly when there are rows and all have the first row's colour |
| VariantPicker.HiddenOnTable | src/components/variant-picker.tsx:35-36 | on the table the pickers are hidden exactly for the three single-row products |
| VariantPicker.ColorsForSize | src/components/variant-picker.tsx:58 | the colours listed for a size are exactly those offered with it, non-empty exactly when the size is offered, the first row's colour first |
| VariantPicker.Selected | src/components/variant-picker.tsx:68-73 | hidden pickers select the first row; an incomplete choice selects nothing; otherwise only an exact (size, colour) row is selected, never a guess |
| VariantPicker.Coerced | src/components/variant-picker.tsx:45-66 | after coercion a product with rows has an offered size, kept if it was offered, and a colour offered with it; hidden pickers lock to the first row |
| VariantPicker.CoercedResolves | src/components/variant-picker.tsx:46-73 | after coercion the picker always has a selected row |
| VariantPicker.MountCoerceNoChange | src/components/variant-picker.tsx:46-66 | on mount the coercion effect leaves the first row's selection unchanged |
| VariantPicker.CoercedStable | src/components/variant-picker.tsx:46-66 | coercing an already coerced choice changes nothing |
| VariantPicker.SelectedAgreesWithFindVariant | src/components/variant-picker.tsx:69-73 | for an offered pair the picker and the canonical `findVariant` pick the same row |
| VariantPicker.SelectedRefusesToGuess | src/components/variant-picker.tsx:71-72 | for a pair not offered the picker selects nothing, while the card and the sheet both fall back to the first row |
| VariantPicker.PartialSelectionDiffers | src/components/variant-picker.tsx:71 | with a size but no colour, `findVariant` resolves a row while the picker selects nothing |
| VariantPicker.IcedCoffeeEraExample | src/data/variants.ts:119-121 | on iced-coffee-era a 6 oz black choice finds no row canonically, while the card and the sheet add the only 10 oz row, and the picker hides |
| VariantPicker.Picker.constructor | src/components/variant-picker.tsx:18-43 | the picker starts on the default selection of the slug's rows, which the mount-time coercion leaves as it is |
| VariantPicker.Picker.Coerce | src/components/variant-picker.tsx:46-66 | the selection becomes its coerced form |
| VariantPicker.Picker.ChangeSlug | src/components/variant-picker.tsx:17-66 | fails, changing nothing, exactly when the change is between a slug with rows and one without; otherwise the rows are looked up again, a changed slug has its selection coerced against the new rows and then always selects a row, and an unchanged one keeps it |
| VariantPicker.Picker.ClickSize | src/components/variant-picker.tsx:85-91 | the size is taken; the colour becomes that of the size's first row, or the first listed colour when no row has the size |
| VariantPicker.Picker.ClickColor | src/components/variant-picker.tsx:93-100 | the colour is always taken; the size is kept when it offers the colour, and otherwise moves to the size of the first row in that colour |

## Left out

- JSX markup, styling, animation and DOM event plumbing: `preventDefault`, `stopPropagation`, and outside-click and Escape listeners. They carry no rules.
- `localStorage` and real `JSON.parse`/`JSON.stringify`: storage is the abstract `Cart.Stored` value (missing, unparsable, not an array, or a saved list). A throwing storage write is not modelled.
- Cart.Hydrated: a parsed array is adopted as it is. The model does not check that its elements are well-formed lines, and neither does the code; a stored list may hold two lines with one id, so the stores' "unique ids stay unique" holds only from a list that had unique ids.
- `Intl.NumberFormat` price formatting and `cents / 100`: these are floating point and locale formatting.
- `Number(e.target.value)` parsing: the input arrives as an `Option<int>`, with `None` for `NaN`. Fractional quantities are not modelled.
- React scheduling (`useEffect` order, `useMemo`, batching): each effect or handler is an explicit method, called in the order the component would run it.
- Non-ASCII `toLowerCase` in `slugify`: only ASCII letters are lowercased, and every other character counts as a separator.
- The optional `image` field of products, variants and cart lines, and the extra `size`/`color` fields pushed onto cart lines. No rule reads them.
- Cart.Merged: the `(qty ?? 0)` guard for a stored line without a quantity is not modelled, because every modelled line has an integer quantity.
- The components' "" and `undefined` for an unset size or colour are both `None`.
- The `onAdded` callback of `QuickBuySheet` and the `onChange` notification of `VariantPicker`: they call code outside the core.
- `src/components/QuickBuyDialog.tsx`, `src/type/product.ts` and the `src/app/**` pages are not part of this model: they hold no rules of the core.
- `useCart`'s error outside a provider is framework wiring.
- ProductCatalog.InlineQuickBuy.AddFromPanel: only the card that adds is remounted in the model. The cards are independent objects with no link to the cart, so the remount of every other card on the page after any cart change (an add from any card, and also a drawer toggle, open or close, a removal or a quantity change in the drawer) is not captured; a caller has to apply `Remount` to each of them. The same holds for `AddInstant` and `BuyClick`.
- Cart.CartStore.Toggle: "toggling twice restores the flag" follows from its postcondition and is not a separate lemma.

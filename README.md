# Tees-me catalog export and carts, in Dafny

A model of the logic of the Tees-me shop, with proofs about that model. The shop has four pieces of logic:

- **The catalog exporter** (`scripts/fetch-square.mjs`). It reads the merchant's Square catalog page by page and indexes the objects by id. It looks up stock in batches of 50 and turns every listed item into a storefront product with its SKUs and lowest price. It sorts the products by name and writes them to every output path, unless strict mode refuses an empty export. Modules:
  - `OutputPaths`: `collectOutputPaths`;
  - `ExportConfig`: the settings at lines 51-66 and the check at the start of `main`;
  - `CatalogObjects`: the raw objects, `presentAtLocation`, `readPrice` and `firstImageUrl`;
  - `CatalogReader`: `listCatalog` and `fetchCatalogIndex`;
  - `Inventory`: `getInventoryCounts`;
  - `ProductBuilder`: `asWebProduct`;
  - `NameOrder`: the final sort;
  - `Exporter`: the rest of `main`.
- **The preflight check** (`scripts/preflight.mjs`). It loads `.env` without overwriting variables that are already set. It validates the Square credentials and the environment name, warns about an unusual token, and prints a redacted summary. Modules:
  - `EnvFile`: the line parser, and the process environment as a class;
  - `Preflight`: the checks.
- **The shop cart** (`assets/js/cart.js`), in module `ShopCart`. The stored cart is the `lines` field of a `Cart` class, with `addItem`, `updateQuantity`, `removeItem`, the number-field handler, `relativeUrl` and the checkout guard.
- **The agency theme's cart and navigation** (`assets/js/agency.js`), in module `AgencyCart`. It has the active-link matcher, plus a cart whose add raises a quantity by the product's own quantity and whose update never removes a line.

`CartLines` holds the list operations both carts share:
- `find` as a first-match position;
- `filter` by id;
- setting one line's quantity;
- the badge count.

`JsStrings` models the JavaScript string functions the scripts use: `trim`, `split`/`join`, `indexOf`, ASCII lowering, and the trailing-slash `replace`.

Inputs that the scripts get from outside become parameters:
- the catalog endpoint is a finite sequence of page responses, one per request;
- the inventory endpoint is a function from a batch of ids to its response;
- `localeCompare` is a comparator `le`, which must be a total preorder for the ordering lemmas;
- the export timestamp is a string;
- `.env` is its text, or `None` when it cannot be read;
- a number field is its `parseInt` result, or `None` for NaN.

Money is a whole number of minor units. The exported amount is that number divided by 100 as a Dafny `real`, which is exact; the script computes it as a double (see "Left out").

The two scripts read their settings differently, and some behaviours of the code are easy to miss:

- **Environment name.** The preflight trims the name and compares it case-sensitively (scripts/preflight.mjs:52-53). The exporter lowers it and does not trim (scripts/fetch-square.mjs:52). "Sandbox" fails the preflight and passes the exporter (`Preflight.EnvironmentCaseDivergence`).
- **Blank settings.** A token of spaces is missing for the preflight and set for the exporter (`Preflight.BlankTokenDivergence`).
- **Empty STRICT.** An empty `STRICT` shows as empty in the preflight summary, because it uses `??`. The exporter runs strict, because it uses `||` (`Preflight.EmptyStrictDivergence`).
- **Separate processes.** The exporter never loads `.env`, and it never sees the SQUARE_ENVIRONMENT the preflight writes (scripts/preflight.mjs:57): each script runs as its own process. So a passing preflight does not mean the exporter's checks pass. An unset environment name passes the preflight and stops `main` (`Preflight.UnsetEnvironmentDivergence`). " sandbox " passes the preflight, which trims, and fails the exporter (`Preflight.PaddedEnvironmentDivergence`). Credentials set only in `.env` pass the preflight and are missing for the exporter (`Preflight.EnvFileCredentialsDivergence`).
- **Token format.** The preflight only warns about a token without the `EAAA` prefix (scripts/preflight.mjs:59-62); it does not fail (`Preflight.PassesExactlyWhenValid`).
- **Configuration errors.** The exporter stops at the first failing check: output flags, then the environment name, then the credentials, then the list in `main`. `ExportConfig.ResolveConfig` keeps that order. `main`'s list can only ever name `SQUARE_ENVIRONMENT` (`ExportConfig.OnlyEnvironmentCanBeMissing`).
- **Repeated cursors.** The walk has no guard against a repeated cursor: it follows any truthy cursor. Running out of scripted responses while a cursor is pending is the error `NoMoreResponses`, and a run that hits it ends as `ResponsesExhausted`, not as a failed fetch.
- **Inventory failures.** Inventory is best effort. The whole batch loop sits inside one `try`, so the first failed batch ends the lookup with the counts gathered so far (`Inventory.SecondOfThreeBatchesFails`).
- **Dead fallback in `relativeUrl`.** The `|| '/'` fallback of assets/js/cart.js:9 never applies, because a path that starts with `/` is not empty.

## Model

| member | source | states |
|---|---|---|
| JsStrings.TrimStartSpec | scripts/preflight.mjs:10 | `trimStart` leaves a suffix of the text, drops only whitespace, and the rest does not start with whitespace |
| JsStrings.TrimEndSpec | scripts/preflight.mjs:10 | `trimEnd` leaves a prefix of the text, drops only whitespace, and the rest does not end with whitespace |
| JsStrings.Trim | scripts/fetch-square.mjs:25 | `trim` gives "" exactly when the text is all whitespace, and never starts or ends with whitespace |
| JsStrings.TrimUnpadded | scripts/fetch-square.mjs:146 | text that neither starts nor ends with whitespace is its own trim |
| JsStrings.IndexOf | scripts/preflight.mjs:12 | `indexOf` finds the first occurrence, and -1 (`None`) exactly when the character is absent |
| JsStrings.IndexOfFirst | scripts/preflight.mjs:12 | a position holding the character with none before it is what `indexOf` returns |
| JsStrings.Split | scripts/fetch-square.mjs:24 | `split` on one character gives at least one piece, and no piece holds the separator |
| JsStrings.JoinSplit | scripts/fetch-square.mjs:24 | joining the pieces with the separator gives the text back, so splitting loses nothing |
| JsStrings.Lower | scripts/fetch-square.mjs:52 | lowering keeps the length and lowers each ASCII letter in place |
| JsStrings.LowerOfLowerCase | scripts/fetch-square.mjs:52 | text without upper-case ASCII letters is unchanged by lowering |
| JsStrings.DropTrailingSlash | assets/js/agency.js:17 | `replace(/\/$/, '')` removes exactly one trailing slash and changes nothing else |
| OutputPaths.TrimmedEntries | scripts/fetch-square.mjs:24-27 | every environment entry kept is non-empty and trimmed |
| OutputPaths.TrimmedEntriesFromPieces | scripts/fetch-square.mjs:24-27 | each entry kept is the trim of some comma-separated piece, and every piece that is not blank contributes its trim |
| OutputPaths.TrimmedEntriesConcat | scripts/fetch-square.mjs:24-27 | the entries of consecutive pieces follow each other in piece order |
| OutputPaths.CollectOutputPaths | scripts/fetch-square.mjs:19-49 | the loops over the comma-separated setting and over argv give the list, or the flag whose value is missing, of `OutputPathsOf` |
| OutputPaths.AddAllProperties | scripts/fetch-square.mjs:20-48 | adding to an insertion-ordered `Set` keeps what was there as a prefix, never repeats, and holds exactly the union |
| OutputPaths.OutputPathsSpec | scripts/fetch-square.mjs:19-49 | the list never repeats a path. It is exactly `["data/products.json"]` when nothing was given; otherwise it is exactly the trimmed env entries and the flag values, env entries first |
| OutputPaths.FlagScenarios | scripts/fetch-square.mjs:31-41 | a trailing `--out` or an empty value stops the run naming the flag; a value that looks like a flag is still taken as a value |
| ExportConfig.MissingNames | scripts/fetch-square.mjs:183-184 | a name is reported exactly when it is required and unset or empty |
| ExportConfig.ResolveConfig | scripts/fetch-square.mjs:51-66 | the run settings, or the first failing check: flag without value, environment not production/sandbox after lowering, missing token or location, then `main`'s list, each error exactly when the checks before it pass and it fails, and a missing-value error names the flag; success exactly when all pass, with the settings computed from the environment |
| ExportConfig.OnlyEnvironmentCanBeMissing | scripts/fetch-square.mjs:183-188 | once token and location passed the earlier check, `main`'s list is empty or just SQUARE_ENVIRONMENT |
| ExportConfig.StrictDefaultsOn | scripts/fetch-square.mjs:55 | STRICT defaults to on, matches "true" in any case, and "false" turns it off |
| ExportConfig.IncludeOutOfStockDefaultsOff | scripts/fetch-square.mjs:56 | with INCLUDE_OUT_OF_STOCK unset or empty, out-of-stock variations are dropped (only a value equal to "true" in any case turns them on) |
| ExportConfig.EnvironmentIgnoresCase | scripts/fetch-square.mjs:52 | "Sandbox" is read as "sandbox" |
| CatalogObjects.PresentAtLocation | scripts/fetch-square.mjs:137-143 | false exactly when a non-empty presence list lacks the location or the absence list names it |
| CatalogObjects.ReadPrice | scripts/fetch-square.mjs:121-127 | no price for missing money or a non-finite amount. Otherwise the amount is minor units / 100, recoverable exactly, with the first currency found |
| CatalogObjects.FirstImageUrl | scripts/fetch-square.mjs:129-135 | the URL of the indexed image the item names, and none exactly when the id is missing or empty, unindexed, or the image has no URL |
| CatalogObjects.MoneyRoundTrip | scripts/fetch-square.mjs:125 | 1999 minor units in USD read as 19.99 USD, and 19.99 stands for 1999 minor units |
| CatalogObjects.CurrencyFallback | scripts/fetch-square.mjs:124 | the currency comes from `currency`, then from `amount_money.currency`, then "USD" |
| CatalogObjects.AmountFallback | scripts/fetch-square.mjs:123 | the nested amount is used only when the direct one is null or absent; no amount means no price; a null amount reads as 0 |
| CatalogObjects.LocationScenarios | scripts/fetch-square.mjs:137-143 | a presence list naming only A admits A and not B; an absence list excludes its location even with no presence list |
| CatalogReader.ListCatalog | scripts/fetch-square.mjs:74-81 | the page loop yields what `Walk` does: the pages' objects in order until a page has no cursor, a transport error on a failed request |
| CatalogReader.WalkStopsAtFirstPageWithoutCursor | scripts/fetch-square.mjs:76-80 | when pages 0..n-1 carry a cursor and page n does not, the walk yields exactly the objects of pages 0..n in order |
| CatalogReader.WalkFailsOnFailedRequest | scripts/fetch-square.mjs:77 | a failed request ends the whole walk with an error, whatever came before |
| CatalogReader.IndexByIdSpec | scripts/fetch-square.mjs:84-90 | the `Map` holds each id once, exactly the ids of the objects, ordered by where each id first appears, and maps each to the last object with that id |
| CatalogReader.Values | scripts/fetch-square.mjs:194 | `idx.values()` lists the objects in key order |
| CatalogReader.FetchCatalogIndex | scripts/fetch-square.mjs:84-90 | the index of every object the walk yields, or the walk's error |
| Inventory.GetInventoryCounts | scripts/fetch-square.mjs:93-119 | the batch loop and the row loop compute `InventoryCounts` |
| Inventory.BatchesCover | scripts/fetch-square.mjs:99-100 | the slices cover the ids exactly once, in order; each holds 1 to 50 ids, and all but the last hold 50 |
| Inventory.TallySpec | scripts/fetch-square.mjs:107-113 | each id gains exactly its IN_STOCK quantities (NaN counts 0), and every id a row names gets an entry |
| Inventory.AggregateIsTally | scripts/fetch-square.mjs:96-117 | the batches' result is the tally of the rows answered before the first failure |
| Inventory.InventoryCountsSpec | scripts/fetch-square.mjs:93-119 | an empty id list gives an empty map. Otherwise each id's count is the sum of its IN_STOCK rows before the first failed batch, and only ids with such a row get an entry |
| Inventory.SecondOfThreeBatchesFails | scripts/fetch-square.mjs:96-117 | 120 ids go out as 50, 50 and 20; if the second batch fails, only the first batch's rows count |
| ProductBuilder.SkuOfSpec | scripts/fetch-square.mjs:152-166 | a variation is dropped exactly when absent at the location, without data or readable price, or out of stock while those are excluded. A kept one has its id, price and stock, its name is the variation's name or "", and its sku falls back to the id |
| ProductBuilder.MinIndex | scripts/fetch-square.mjs:167 | the lowest-priced SKU, the earliest among ties |
| ProductBuilder.MinPriceSnoc | scripts/fetch-square.mjs:167 | the running minimum changes exactly when there is none yet or the new price is strictly lower |
| ProductBuilder.CollectSkus | scripts/fetch-square.mjs:151-168 | the loop pushes the surviving SKUs in variation order, and ends with the earliest lowest price (`null` when none) |
| ProductBuilder.SkusSpec | scripts/fetch-square.mjs:151-168 | every SKU comes from some variation, and every variation that passes the filters contributes its SKU |
| ProductBuilder.ProductOfSpec | scripts/fetch-square.mjs:169-178 | `null` exactly when the name is missing or trims to "", or no SKU survives. Otherwise the product has the trimmed name, all surviving SKUs, a price no SKU undercuts that belongs to one of them, the description and the image URL |
| ProductBuilder.AsWebProduct | scripts/fetch-square.mjs:145-179 | `asWebProduct` returns `ProductOf` |
| ProductBuilder.ProductSkusQualify | scripts/fetch-square.mjs:151-166 | every SKU of a product comes from a variation present at the location with that price; its stock is the inventory entry or 0, and it is positive unless out-of-stock is included |
| ProductBuilder.TeeScenario | scripts/fetch-square.mjs:145-179 | an item "Tee" with one 2500-minor-unit USD variation and 5 in stock becomes one product at 25.00 USD whose SKU code is the variation id |
| NameOrder.SortByNamePermutes | scripts/fetch-square.mjs:224 | sorting neither drops nor adds a product |
| NameOrder.SortByNameSorts | scripts/fetch-square.mjs:224 | under a total preorder the result is sorted by name |
| NameOrder.SortByNameStable | scripts/fetch-square.mjs:224 | under a total preorder the sort is stable: for every name, the products whose names tie with it come out in the order they went in |
| Exporter.Ids | scripts/fetch-square.mjs:211 | `allVariations.map(v => v.id)` keeps the order |
| Exporter.BuildImageIndex | scripts/fetch-square.mjs:193-196 | the loop builds `ImageIndex` |
| Exporter.ImageIndexSpec | scripts/fetch-square.mjs:193-196 | the images index holds exactly the IMAGE objects, each under its own id |
| Exporter.CollectVariations | scripts/fetch-square.mjs:197-200 | the loop collects the ITEM_VARIATION objects in index order |
| Exporter.VariationObjectsSpec | scripts/fetch-square.mjs:197-200 | `allVariations` holds exactly the ITEM_VARIATION objects of the index |
| Exporter.GroupVariations | scripts/fetch-square.mjs:202-208 | the loop builds `GroupByItem` |
| Exporter.GroupByItemSpec | scripts/fetch-square.mjs:202-208 | each item's group is exactly the variations naming it, in catalog order; variations without an item id are in no group, and no group is empty |
| Exporter.BuildProducts | scripts/fetch-square.mjs:214-221 | the loop builds `Products` |
| Exporter.ProductsSpec | scripts/fetch-square.mjs:214-221 | every product comes from a non-deleted ITEM present at the location, and every such item that yields a product contributes it |
| Exporter.CatalogValuesFromCatalog | scripts/fetch-square.mjs:191-194 | every indexed object was returned by the catalog walk |
| Exporter.Export | scripts/fetch-square.mjs:181-251 | the run gives `ExportOf` |
| Exporter.ExportSpec | scripts/fetch-square.mjs:214-242 | the run fails exactly when a catalog request fails, ends as `ResponsesExhausted` exactly when the walk asks for more than the responses given, and refuses exactly an empty result in strict mode. A written payload goes to every path, with meta `square`, location, environment, time and item count; its items are the built products, sorted by name and permuted, no more and no fewer |
| Exporter.ExportedItemsQualify | scripts/fetch-square.mjs:214-221 | every exported product has a name and a SKU, and comes from a catalog ITEM that is not deleted and is present at the location |
| EnvFile.SplitLines | scripts/preflight.mjs:9 | `split(/\r?\n/)` splits at each line feed, and one carriage return before a line feed goes too |
| EnvFile.Unquote | scripts/preflight.mjs:16-18 | one pair of matching `"` or `'` quotes comes off, and other values are unchanged |
| EnvFile.Unescape | scripts/preflight.mjs:19 | the value never grows when `\n` is replaced |
| EnvFile.UnescapeAtEscape | scripts/preflight.mjs:19 | every backslash-`n` becomes one line feed, and the text on either side is unescaped on its own |
| EnvFile.UnescapeKeepsPlainPrefix | scripts/preflight.mjs:19 | text without backslashes passes through unchanged, whatever follows it |
| EnvFile.UnescapeLeavesNoEscapes | scripts/preflight.mjs:19 | after the replace no backslash-`n` pair is left |
| EnvFile.UnescapeWithoutBackslash | scripts/preflight.mjs:19 | a value without backslashes is unchanged |
| EnvFile.UnescapeKeepsLoneBackslash | scripts/preflight.mjs:19 | a backslash not followed by `n` is kept, and the rest is unescaped on its own |
| EnvFile.UnescapeExample | scripts/preflight.mjs:19 | `a\nb` (literal backslash) becomes a, line feed, b |
| EnvFile.ParseTrimmed | scripts/preflight.mjs:11-19 | a blank line, a comment or a line without `=` gives nothing; a setting's key holds no `=` and its value no escapes |
| EnvFile.SettingAt | scripts/preflight.mjs:14-19 | the key before the first `=` holds no `=`, and the value has no escapes |
| EnvFile.ParseLineSplitsAtFirstEquals | scripts/preflight.mjs:12-19 | the key is the trimmed text before the first `=`, and the value is the rest, unquoted and unescaped |
| EnvFile.SkippedLineChangesNothing | scripts/preflight.mjs:10-13 | a line blank after trimming, a comment, or a line without `=` changes nothing |
| EnvFile.LoadKeepsExisting | scripts/preflight.mjs:20-22 | a variable already set is never overwritten |
| EnvFile.LoadAddsDefinedKeys | scripts/preflight.mjs:20-22 | loading adds exactly the keys the file defines, leaving out the names every object inherits (`constructor`, `toString`, ...), which `in` reports as present, and the empty name, whose assignment `process.env` drops |
| EnvFile.LoadSkipsUnstorable | scripts/preflight.mjs:20-22 | an inherited name or the empty name is present after loading exactly when it was before |
| EnvFile.LoadTakesFirstValue | scripts/preflight.mjs:20-22 | a new key that is neither inherited nor empty takes the value of its first definition in the file |
| EnvFile.LoadIdempotent | scripts/preflight.mjs:20-22 | loading the same file twice is loading it once |
| EnvFile.ProcessEnv.LoadEnvFile | scripts/preflight.mjs:6-30 | an unreadable file changes nothing; otherwise the lines are applied in order, each adding its key unless it is already set, inherited or empty |
| Preflight.BlankMeansTrimsToEmpty | scripts/preflight.mjs:37 | a setting is missing exactly when it is unset or trims to "" |
| Preflight.TokenPrefix | scripts/preflight.mjs:70 | `slice(0, 6)` is the first six characters, or the whole token when shorter |
| Preflight.CheckCredentials | scripts/preflight.mjs:37-45 | a missing token, then a missing location, each add a problem |
| Preflight.ResolveEnvironment | scripts/preflight.mjs:47-52 | the trimmed name, or "production" with the defaulted flag exactly when the setting is blank |
| Preflight.CollectNotices | scripts/preflight.mjs:59-62 | warnings for the defaulted environment and for a token without the `EAAA` prefix, in that order |
| Preflight.Validate | scripts/preflight.mjs:35-67 | the checks give `ReportOf`: every problem, every notice, and the summary only when there is no problem |
| Preflight.ProblemsSpec | scripts/preflight.mjs:35-56 | each missing credential and an unknown environment name is reported (at most three problems); all checks run before the exit |
| Preflight.NoticesSpec | scripts/preflight.mjs:47-62 | the environment-defaulted warning appears exactly when the setting is blank, and the token warning exactly when `/^EAAA/i` fails |
| Preflight.PassesExactlyWhenValid | scripts/preflight.mjs:64-67 | the preflight passes exactly when token and location are given and the trimmed name is production or sandbox, whatever the token's format |
| Preflight.SummaryDefaults | scripts/preflight.mjs:72-77 | STRICT and INCLUDE_OUT_OF_STOCK show their value when set and "true"/"false" otherwise; output paths show OUTPUT_PATHS, then OUTPUT_PATH, then "(default outputs)"; the token shows its first six characters and its length |
| Preflight.RunPreflight | scripts/preflight.mjs:32-57 | the file is loaded, the checks see the loaded environment, and SQUARE_ENVIRONMENT is replaced by the resolved name |
| Preflight.UnsetEnvironmentDivergence | scripts/fetch-square.mjs:183-188 | with SQUARE_ENVIRONMENT unset and the credentials given, the preflight passes with "production", while `main`'s list names SQUARE_ENVIRONMENT as missing |
| Preflight.PaddedEnvironmentDivergence | scripts/preflight.mjs:52-53 | a known name padded with one space each side resolves to the name for the preflight and is unknown to the exporter |
| Preflight.EnvFileCredentialsDivergence | scripts/preflight.mjs:20-22 | a token defined only in `.env` is set after the preflight's load and unset for the exporter |
| Preflight.EnvironmentCaseDivergence | scripts/preflight.mjs:53 | "Sandbox" fails the preflight and is accepted by the exporter |
| Preflight.BlankTokenDivergence | scripts/preflight.mjs:37 | a token of spaces is missing for the preflight and set for the exporter |
| Preflight.EmptyStrictDivergence | scripts/preflight.mjs:74 | an empty STRICT shows as "" in the summary, and the exporter runs strict |
| CartLines.FindIndex | assets/js/cart.js:27-29 | `find` gives the first line with the id, and nothing exactly when no line has it |
| CartLines.Without | assets/js/cart.js:65 | `filter` keeps exactly the lines with another id, and never adds one |
| CartLines.WithoutConcat | assets/js/cart.js:65 | filtering a concatenation filters each part in place |
| CartLines.WithoutAbsent | assets/js/cart.js:63-68 | removing an id that is not in the cart changes nothing |
| CartLines.WithoutIdempotent | assets/js/cart.js:63-68 | removing twice is removing once |
| CartLines.CountConcat | assets/js/cart.js:83 | the count adds up across a concatenation |
| CartLines.CountWithQuantity | assets/js/cart.js:83 | setting one quantity moves the count by the difference |
| CartLines.CountAppend | assets/js/cart.js:83 | appending a line adds its quantity to the count |
| CartLines.CountWithout | assets/js/cart.js:83 | removing an id takes exactly that id's quantities off the count |
| CartLines.QuantityOfUnique | assets/js/cart.js:63-68 | with unique ids, an id's quantity is that of its one line |
| CartLines.AppendKeepsUnique | assets/js/cart.js:37-43 | pushing a line with a new id keeps ids unique |
| CartLines.WithoutKeepsUnique | assets/js/cart.js:65 | filtering keeps ids unique |
| CartLines.WithQuantityKeepsUnique | assets/js/cart.js:58 | setting a quantity keeps ids unique |
| ShopCart.RelativeUrl | assets/js/cart.js:6-12 | the link starts with the base, less one trailing slash, ends with the path, and is never empty |
| ShopCart.RelativeUrlJoinsWithOneSlash | assets/js/cart.js:6-12 | base and path are joined by exactly one slash, whether or not the path starts with one |
| ShopCart.NewLine | assets/js/cart.js:37-43 | a new line has the product's id and quantity 1 |
| ShopCart.InputQuantity | assets/js/cart.js:124-125 | a field that does not parse is applied as 1, and any other value as parsed |
| ShopCart.Checkout | assets/js/cart.js:157-168 | an empty cart only announces, a missing or empty endpoint only announces, and otherwise the whole cart is posted to the endpoint |
| ShopCart.AfterAddCounts | assets/js/cart.js:31-45 | adding raises the count by one |
| ShopCart.AfterAddKeepsUnique | assets/js/cart.js:31-45 | adding keeps ids unique |
| ShopCart.AfterAddPlacesProduct | assets/js/cart.js:31-45 | after adding, the product is in the cart. For a product already there the length stays and its first line gains one; a new product is a last line with its id, details and quantity 1. Every line with another id is unchanged in place |
| ShopCart.AfterUpdateSpec | assets/js/cart.js:50-61 | an unknown id changes nothing; a quantity ≤ 0 gives the cart `removeItem` gives, with the id and its count gone; otherwise the length stays, the first line with the id keeps its id and details with the new quantity, and every other line is unchanged; ids stay unique |
| ShopCart.RemoveSpec | assets/js/cart.js:63-68 | removal takes the line's quantity off the count, changes nothing for an unknown id, and keeps ids unique |
| ShopCart.NonNumericInputKeepsLine | assets/js/cart.js:124-125 | a non-numeric entry never removes the line |
| ShopCart.Cart.AddItem | assets/js/cart.js:31-45 | `addItem` updates the stored cart as `AfterAdd` |
| ShopCart.Cart.UpdateQuantity | assets/js/cart.js:50-61 | `updateQuantity` updates the stored cart as `AfterUpdate` |
| ShopCart.Cart.RemoveItem | assets/js/cart.js:63-68 | `removeItem` leaves the filtered cart |
| ShopCart.Cart.OnQuantityInput | assets/js/cart.js:123-126 | the field handler applies `InputQuantity` through `updateQuantity` |
| AgencyCart.HomeLinkOnlyOnHome | assets/js/agency.js:21-22 | the home link is active exactly on the home page |
| AgencyCart.LinkActiveOnItsPage | assets/js/agency.js:17-26 | every link is active on its own page |
| AgencyCart.LinkActiveBelowBasePath | assets/js/agency.js:23-24 | a non-home link stays active when the site is served below a base path |
| AgencyCart.HomeLinkNotActiveElsewhere | assets/js/agency.js:21-24 | the home link is not active on any other page |
| AgencyCart.FirstMissingHref | assets/js/agency.js:18-20 | the number of links that have an `href` before the first one without; every link before it has one and the link at it has none |
| AgencyCart.MarkActiveLinks | assets/js/agency.js:16-26 | the links are handled up to the first one without an `href`, where `href.replace` throws (all of them when every link has one). Each handled link gets the `active` class exactly when, without one trailing slash each, both are empty or the path ends with the non-empty href. Classes already set stay set, and the links from the throwing one on are unchanged |
| AgencyCart.ClampQuantity | assets/js/agency.js:125 | the field's quantity is at least 1: the parsed value when ≥ 1, else 1 |
| AgencyCart.AfterAddCounts | assets/js/agency.js:46-56 | adding raises the count by the product's own quantity |
| AgencyCart.AfterAddPlacesProduct | assets/js/agency.js:46-56 | adding keeps ids unique and leaves the product's id in the cart. For a product already there the length stays and its first line gains the product's quantity; a new product object is pushed as the last line. Every line with another id is unchanged in place |
| AgencyCart.AfterUpdateSpec | assets/js/agency.js:64-71 | the length never changes; an unknown id changes nothing; otherwise the first line with the id keeps its id and details with the new quantity, every other line is unchanged, and the count moves by the difference |
| AgencyCart.InputKeepsQuantitiesPositive | assets/js/agency.js:122-127 | changes through the number fields keep every quantity at least 1 |
| AgencyCart.Cart.AddToCart | assets/js/agency.js:46-56 | `addToCart` updates the stored cart as `AfterAdd` |
| AgencyCart.Cart.RemoveFromCart | assets/js/agency.js:58-62 | `removeFromCart` leaves the filtered cart |
| AgencyCart.Cart.UpdateQuantity | assets/js/agency.js:64-71 | `updateQuantity` updates the stored cart as `AfterUpdate` |
| AgencyCart.Cart.OnQuantityInput | assets/js/agency.js:123-127 | the field handler applies `ClampQuantity` through `updateQuantity` |

## Left out

- The Square SDK discovery and client construction (scripts/fetch-square.mjs:10-17, 68-69) and the network calls. They become the page-response sequence and the `respond` function.
- Directory creation and the file writes (scripts/fetch-square.mjs:245-250). The model stops at the decision to write the payload to every path. Write failures and JSON serialisation are not modelled.
- Reading `.env` from disk (scripts/preflight.mjs:8). The model takes its text. The missing-file and other-error cases both leave the environment unchanged.
- `process.exit`, console output and the 401 hint (scripts/fetch-square.mjs:253-260). The preflight's messages become the `Problem` and `Notice` values.
- The `Date` timestamp (scripts/fetch-square.mjs:226). It is a parameter.
- `localeCompare` collation. It is the parameter `le`. JavaScript's sort is stable, so for a total preorder it gives the same result as the stable insertion sort modelled here; the algorithm itself is not the engine's.
- `toLowerCase` and `/i` matching. They are modelled on ASCII letters only, which decides every comparison the scripts make against ASCII literals.
- String lengths are counted in characters, not in UTF-16 code units (scripts/preflight.mjs:70).
- Inventory quantities are whole numbers. Square reports decimal strings, and `Number(...)` of a fraction is not modelled. A non-numeric quantity is `None` and counts 0.
- Floating-point arithmetic in the carts: totals, tax, `toFixed` and `parseFloat` prices (assets/js/cart.js:70-79; assets/js/agency.js:83-111, 139). Prices are carried as `real` and never computed with.
- `localStorage` and JSON parsing of the stored carts (assets/js/cart.js:14-25; assets/js/agency.js:32-44). The stored cart is the `lines` field, and the unreadable-storage fallback to `[]` is a constructor argument.
- Aliasing of cart entries. `find` returns the stored object and the scripts change its `quantity` through it. The model replaces the line at the found position instead, which is the same stored result.
- Ids are strings. A JSON number id compared with `===` against a string attribute never matches, and the model does not capture that.
- EnvFile.InheritedNames lists the properties of `Object.prototype` in current JavaScript engines. A property another engine adds, or one a program adds to `Object.prototype` at run time, is not modelled. Node on Windows also matches variable names without regard to case, which the model does not capture.
- AgencyCart.MarkActiveLinks: stops at the first link without an `href` and reports where, but the model does not carry the thrown error further. In the source that error also stops the rest of assets/js/agency.js, so the cart key, the add-to-cart wiring and the first `renderCart` and the checkout wiring (lines 30-180) never run on that page.
- AgencyCart.AfterAdd: does not model a NaN product quantity from `parseInt` (assets/js/agency.js:140), because quantities are integers.
- The agency checkout hand-off (assets/js/agency.js:151-180) and the shop checkout's POST and redirect (assets/js/cart.js:170-203). Only the shop's guards before the POST are modelled.
- DOM rendering and events: `renderCart`, `announce`, ScrollReveal, the navigation toggle and the navbar shrink.
- Any guard against a repeated cursor, which the code does not have.
- CatalogObjects.ReadPrice: the script computes `amount / 100` as an IEEE double (scripts/fetch-square.mjs:125) and compares doubles for the lowest price (line 167); the model's amount is an exact `real`, so rounding of the exported amount is not modelled.
- Exporter.ExportOf: `ResponsesExhausted` is not an exit of the program, which would send another request; it marks a run whose scripted responses ended too early.

/** One run of the exporter once its settings are resolved: `main` in
    scripts/fetch-square.mjs (lines 181-251) and its failure handler
    (lines 253-260). */
module Exporter {
  import opened Wrappers
  import opened CatalogObjects
  import opened CatalogReader
  import Inventory
  import opened ProductBuilder
  import opened NameOrder
  import opened ExportConfig

  datatype Meta = Meta(source: string, locationId: string, environment: string, exportedAt: string, itemCount: nat)

  datatype Payload = Payload(meta: Meta, items: seq<WebProduct>)

  /** How a run ends: a catalog request failed, the scripted responses ran
      out while a cursor was pending (the script would go on asking; it does
      not end there), strict mode refused an empty export, or the payload was
      written to each output path. */
  datatype ExportOutcome =
    | FetchFailed
    | ResponsesExhausted
    | RefusedEmpty
    | Written(paths: seq<string>, payload: Payload)

  /** The objects of the catalog index, in first-seen order. */
  function CatalogValues(objects: seq<CatalogObject>): seq<CatalogObject> {
    IndexByIdValid(objects);
    Values(IndexById(objects))
  }

  /** `imagesIndex`: every IMAGE object by id. */
  function ImageIndex(values: seq<CatalogObject>): map<string, CatalogObject> {
    if values == [] then map[]
    else
      var images := ImageIndex(values[..|values| - 1]);
      var obj := values[|values| - 1];
      if obj.kind == Image then images[obj.id := obj] else images
  }

  /** `allVariations`: the ITEM_VARIATION objects in index order. */
  function VariationObjects(values: seq<CatalogObject>): seq<CatalogObject> {
    if values == [] then []
    else
      var obj := values[|values| - 1];
      VariationObjects(values[..|values| - 1]) + (if obj.kind == ItemVariation then [obj] else [])
  }

  /** `allVariations` keeps exactly the ITEM_VARIATION objects. */
  lemma {:induction false} VariationObjectsSpec(values: seq<CatalogObject>)
    ensures |VariationObjects(values)| <= |values|
    ensures forall obj :: obj in VariationObjects(values) <==> obj in values && obj.kind == ItemVariation
  {
    if values != [] {
      var n := |values| - 1;
      VariationObjectsSpec(values[..n]);
      assert values == values[..n] + [values[n]];
    }
  }

  /** The item a variation belongs to; a missing or empty item id gives none. */
  function ItemIdOf(v: CatalogObject): Option<string> {
    match v.itemVariationData
    case None => None
    case Some(vd) => if vd.itemId.Some? && vd.itemId.value != "" then vd.itemId else None
  }

  /** The variations of one item, in order. */
  function VariationsOf(variations: seq<CatalogObject>, itemId: string): seq<CatalogObject> {
    if variations == [] then []
    else
      var v := variations[|variations| - 1];
      VariationsOf(variations[..|variations| - 1], itemId) + (if ItemIdOf(v) == Some(itemId) then [v] else [])
  }

  /** `map.get(key) ?? []`. */
  function Lookup(groups: map<string, seq<CatalogObject>>, key: string): seq<CatalogObject> {
    if key in groups then groups[key] else []
  }

  /** `variationsByItem`. */
  function GroupByItem(variations: seq<CatalogObject>): map<string, seq<CatalogObject>> {
    if variations == [] then map[]
    else
      var groups := GroupByItem(variations[..|variations| - 1]);
      var v := variations[|variations| - 1];
      match ItemIdOf(v)
      case None => groups
      case Some(k) => groups[k := Lookup(groups, k) + [v]]
  }

  function Ids(objects: seq<CatalogObject>): (ids: seq<string>)
    ensures |ids| == |objects| && forall i :: 0 <= i < |ids| ==> ids[i] == objects[i].id
  {
    seq(|objects|, i requires 0 <= i < |objects| => objects[i].id)
  }

  /** The filters `main` applies before building a product from an object. */
  predicate ListedItem(obj: CatalogObject, location: string) {
    obj.kind == Item && !obj.isDeleted && PresentAtLocation(obj, location)
  }

  /** The products built from the listed items, in index order. */
  function Products(values: seq<CatalogObject>, images: map<string, CatalogObject>, groups: map<string, seq<CatalogObject>>,
                    inventory: map<string, int>, location: string, includeOos: bool): seq<WebProduct> {
    if values == [] then []
    else
      var obj := values[|values| - 1];
      var built := Products(values[..|values| - 1], images, groups, inventory, location, includeOos);
      if !ListedItem(obj, location) then built
      else match ProductOf(obj, Lookup(groups, obj.id), images, inventory, location, includeOos)
        case None => built
        case Some(p) => built + [p]
  }

  /** What a run with settings `cfg` produces from the catalog pages, the
      inventory responses, the collation `le` and the export time. */
  function ExportOf(cfg: Config, pages: seq<PageResponse>, respond: seq<string> -> Inventory.BatchResponse,
                    le: (string, string) -> bool, exportedAt: string): ExportOutcome {
    match Walk(pages)
    case Err(TransportFailed) => FetchFailed
    case Err(NoMoreResponses) => ResponsesExhausted
    case Ok(objects) =>
      var values := CatalogValues(objects);
      var variations := VariationObjects(values);
      var inventory := Inventory.InventoryCounts(Ids(variations), respond);
      var built := Products(values, ImageIndex(values), GroupByItem(variations), inventory, cfg.locationId, cfg.includeOutOfStock);
      var items := SortByName(built, le);
      if cfg.strict && items == [] then RefusedEmpty
      else Written(cfg.outputPaths, Payload(Meta("square", cfg.locationId, cfg.environment, exportedAt, |items|), items))
  }

  method BuildImageIndex(values: seq<CatalogObject>) returns (images: map<string, CatalogObject>)
    ensures images == ImageIndex(values)
  {
    images := map[];
    for i := 0 to |values|
      invariant images == ImageIndex(values[..i])
    {
      assert values[..i + 1][..i] == values[..i];
      if values[i].kind == Image {
        images := images[values[i].id := values[i]];
      }
    }
    assert values[..|values|] == values;
  }

  method CollectVariations(values: seq<CatalogObject>) returns (variations: seq<CatalogObject>)
    ensures variations == VariationObjects(values)
  {
    variations := [];
    for i := 0 to |values|
      invariant variations == VariationObjects(values[..i])
    {
      assert values[..i + 1][..i] == values[..i];
      if values[i].kind == ItemVariation {
        variations := variations + [values[i]];
      }
    }
    assert values[..|values|] == values;
  }

  method GroupVariations(variations: seq<CatalogObject>) returns (groups: map<string, seq<CatalogObject>>)
    ensures groups == GroupByItem(variations)
  {
    groups := map[];
    for i := 0 to |variations|
      invariant groups == GroupByItem(variations[..i])
    {
      assert variations[..i + 1][..i] == variations[..i];
      var v := variations[i];
      var itemId := ItemIdOf(v);
      if itemId.None? {
        continue;
      }
      if itemId.value !in groups {
        groups := groups[itemId.value := []];
      }
      groups := groups[itemId.value := groups[itemId.value] + [v]];
    }
    assert variations[..|variations|] == variations;
  }

  method BuildProducts(values: seq<CatalogObject>, images: map<string, CatalogObject>, groups: map<string, seq<CatalogObject>>,
                       inventory: map<string, int>, location: string, includeOos: bool)
    returns (items: seq<WebProduct>)
    ensures items == Products(values, images, groups, inventory, location, includeOos)
  {
    items := [];
    for i := 0 to |values|
      invariant items == Products(values[..i], images, groups, inventory, location, includeOos)
    {
      assert values[..i + 1][..i] == values[..i];
      var obj := values[i];
      if obj.kind != Item || obj.isDeleted || !PresentAtLocation(obj, location) {
        continue;
      }
      var web := AsWebProduct(obj, Lookup(groups, obj.id), images, inventory, location, includeOos);
      if web.Some? {
        items := items + [web.value];
      }
    }
    assert values[..|values|] == values;
  }

  /** `main`, after the settings are resolved: read the catalog, build and
      sort the products, and write them unless strict mode refuses. */
  method Export(cfg: Config, pages: seq<PageResponse>, respond: seq<string> -> Inventory.BatchResponse,
                le: (string, string) -> bool, exportedAt: string)
    returns (r: ExportOutcome)
    ensures r == ExportOf(cfg, pages, respond, le, exportedAt)
  {
    var idx := FetchCatalogIndex(pages);
    if idx.Err? {
      return if idx.error.TransportFailed? then FetchFailed else ResponsesExhausted;
    }
    IndexByIdValid(Walk(pages).value);
    var values := Values(idx.value);
    var images := BuildImageIndex(values);
    var variations := CollectVariations(values);
    var groups := GroupVariations(variations);
    var inventory := Inventory.GetInventoryCounts(Ids(variations), respond);
    var built := BuildProducts(values, images, groups, inventory, cfg.locationId, cfg.includeOutOfStock);
    var items := SortByName(built, le);
    if cfg.strict && |items| == 0 {
      return RefusedEmpty;
    }
    r := Written(cfg.outputPaths, Payload(Meta("square", cfg.locationId, cfg.environment, exportedAt, |items|), items));
  }

  /** `imagesIndex` holds exactly the IMAGE objects, each under its own id. */
  lemma {:induction false} ImageIndexSpec(values: seq<CatalogObject>)
    ensures forall k :: k in ImageIndex(values) <==>
      exists i :: 0 <= i < |values| && values[i].kind == Image && values[i].id == k
    ensures forall k :: k in ImageIndex(values) ==> ImageIndex(values)[k].kind == Image && ImageIndex(values)[k].id == k
  {
    if values != [] {
      var n := |values| - 1;
      var prefix := values[..n];
      ImageIndexSpec(prefix);
      forall k ensures k in ImageIndex(values) <==> exists i :: 0 <= i < |values| && values[i].kind == Image && values[i].id == k {
        if k in ImageIndex(prefix) {
          var i :| 0 <= i < n && prefix[i].kind == Image && prefix[i].id == k;
          assert values[i] == prefix[i];
        }
        if exists i :: 0 <= i < |values| && values[i].kind == Image && values[i].id == k {
          var i :| 0 <= i < |values| && values[i].kind == Image && values[i].id == k;
          if i < n {
            assert prefix[i] == values[i];
          }
        }
      }
    }
  }

  /** `variationsByItem.get(id) ?? []` is exactly the variations naming that
      item, in catalog order; no group is empty or keyed by an empty id. */
  lemma {:induction false} GroupByItemSpec(variations: seq<CatalogObject>)
    ensures forall k :: Lookup(GroupByItem(variations), k) == VariationsOf(variations, k)
    ensures forall k :: k in GroupByItem(variations) ==> k != "" && GroupByItem(variations)[k] != []
  {
    if variations != [] {
      var n := |variations| - 1;
      GroupByItemSpec(variations[..n]);
    }
  }

  /** Every product comes from a listed item of the catalog, and every listed
      item that yields a product contributes it. */
  lemma ProductsSpec(values: seq<CatalogObject>, images: map<string, CatalogObject>, groups: map<string, seq<CatalogObject>>,
                     inventory: map<string, int>, location: string, includeOos: bool)
    ensures var built := Products(values, images, groups, inventory, location, includeOos);
      && |built| <= |values|
      && (forall p :: p in built ==>
            exists obj :: (obj in values && ListedItem(obj, location)
              && ProductOf(obj, Lookup(groups, obj.id), images, inventory, location, includeOos) == Some(p)))
      && (forall obj :: (obj in values && ListedItem(obj, location)
              && ProductOf(obj, Lookup(groups, obj.id), images, inventory, location, includeOos).Some?) ==>
            ProductOf(obj, Lookup(groups, obj.id), images, inventory, location, includeOos).value in built)
  {
    ProductsComeFromListedItems(values, images, groups, inventory, location, includeOos);
    ListedItemsContribute(values, images, groups, inventory, location, includeOos);
  }

  lemma {:induction false} ProductsComeFromListedItems(values: seq<CatalogObject>, images: map<string, CatalogObject>,
                                                       groups: map<string, seq<CatalogObject>>,
                                                       inventory: map<string, int>, location: string, includeOos: bool)
    ensures var built := Products(values, images, groups, inventory, location, includeOos);
      && |built| <= |values|
      && (forall p :: p in built ==>
            exists obj :: (obj in values && ListedItem(obj, location)
              && ProductOf(obj, Lookup(groups, obj.id), images, inventory, location, includeOos) == Some(p)))
  {
    if values != [] {
      var n := |values| - 1;
      var prefix := values[..n];
      ProductsComeFromListedItems(prefix, images, groups, inventory, location, includeOos);
      assert forall obj :: obj in prefix ==> obj in values;
    }
  }

  lemma {:induction false} ListedItemsContribute(values: seq<CatalogObject>, images: map<string, CatalogObject>,
                                                 groups: map<string, seq<CatalogObject>>,
                                                 inventory: map<string, int>, location: string, includeOos: bool)
    ensures forall obj :: (obj in values && ListedItem(obj, location)
              && ProductOf(obj, Lookup(groups, obj.id), images, inventory, location, includeOos).Some?) ==>
            ProductOf(obj, Lookup(groups, obj.id), images, inventory, location, includeOos).value
              in Products(values, images, groups, inventory, location, includeOos)
  {
    if values != [] {
      var n := |values| - 1;
      var prefix := values[..n];
      ListedItemsContribute(prefix, images, groups, inventory, location, includeOos);
      assert values == prefix + [values[n]];
      var before := Products(prefix, images, groups, inventory, location, includeOos);
      var built := Products(values, images, groups, inventory, location, includeOos);
      assert forall p :: p in before ==> p in built;
      forall obj | obj in values && ListedItem(obj, location)
          && ProductOf(obj, Lookup(groups, obj.id), images, inventory, location, includeOos).Some?
        ensures ProductOf(obj, Lookup(groups, obj.id), images, inventory, location, includeOos).value in built
      {
        if obj != values[n] {
          assert obj in prefix;
        }
      }
    }
  }

  lemma {:induction false} LastWithIdIn(objects: seq<CatalogObject>, id: string)
    ensures LastWithId(objects, id).Some? ==> LastWithId(objects, id).value in objects
  {
    if objects != [] && objects[|objects| - 1].id != id {
      LastWithIdIn(objects[..|objects| - 1], id);
    }
  }

  /** Every value of the index is an object the catalog listing returned. */
  lemma CatalogValuesFromCatalog(objects: seq<CatalogObject>)
    ensures forall obj :: obj in CatalogValues(objects) ==> obj in objects
  {
    IndexByIdSpec(objects);
    var idx := IndexById(objects);
    forall obj | obj in CatalogValues(objects)
      ensures obj in objects
    {
      var i :| 0 <= i < |CatalogValues(objects)| && CatalogValues(objects)[i] == obj;
      LastWithIdIn(objects, idx.keys[i]);
    }
  }

  /** A finished run: the fetch fails exactly when a catalog request fails,
      and the responses run out exactly when the walk asks for more;
      strict mode refuses exactly an empty product list; a written payload
      goes to every configured path, counts its items, and lists the products
      built, sorted by name. */
  lemma ExportSpec(cfg: Config, pages: seq<PageResponse>, respond: seq<string> -> Inventory.BatchResponse,
                   le: (string, string) -> bool, exportedAt: string)
    requires TotalPreorder(le)
    ensures var r := ExportOf(cfg, pages, respond, le, exportedAt);
      && (r.FetchFailed? <==> Walk(pages) == Err(TransportFailed))
      && (r.ResponsesExhausted? <==> Walk(pages) == Err(NoMoreResponses))
      && (Walk(pages).Ok? ==>
            var values := CatalogValues(Walk(pages).value);
            var variations := VariationObjects(values);
            var built := Products(values, ImageIndex(values), GroupByItem(variations),
                                  Inventory.InventoryCounts(Ids(variations), respond), cfg.locationId, cfg.includeOutOfStock);
            && (r.RefusedEmpty? <==> cfg.strict && built == [])
            && (r.Written? ==>
                  && r.paths == cfg.outputPaths
                  && r.payload.meta == Meta("square", cfg.locationId, cfg.environment, exportedAt, |r.payload.items|)
                  && SortedByName(r.payload.items, le)
                  && multiset(r.payload.items) == multiset(built)))
  {
    if Walk(pages).Ok? {
      var values := CatalogValues(Walk(pages).value);
      var variations := VariationObjects(values);
      var built := Products(values, ImageIndex(values), GroupByItem(variations),
                            Inventory.InventoryCounts(Ids(variations), respond), cfg.locationId, cfg.includeOutOfStock);
      SortByNamePermutes(built, le);
      SortByNameSorts(built, le);
    }
  }

  /** Each exported product has a name and at least one SKU, and comes from a
      catalog ITEM that is not deleted and is present at the location. */
  lemma ExportedItemsQualify(cfg: Config, pages: seq<PageResponse>, respond: seq<string> -> Inventory.BatchResponse,
                             le: (string, string) -> bool, exportedAt: string, p: WebProduct)
    requires ExportOf(cfg, pages, respond, le, exportedAt).Written?
    requires p in ExportOf(cfg, pages, respond, le, exportedAt).payload.items
    ensures p.name != "" && |p.skus| >= 1
    ensures exists obj :: obj in Walk(pages).value && obj.id == p.id && ListedItem(obj, cfg.locationId)
  {
    var values := CatalogValues(Walk(pages).value);
    var variations := VariationObjects(values);
    var images := ImageIndex(values);
    var groups := GroupByItem(variations);
    var inventory := Inventory.InventoryCounts(Ids(variations), respond);
    var built := Products(values, images, groups, inventory, cfg.locationId, cfg.includeOutOfStock);
    SortByNamePermutes(built, le);
    assert p in multiset(SortByName(built, le));
    assert p in built;
    ProductsSpec(values, images, groups, inventory, cfg.locationId, cfg.includeOutOfStock);
    var obj :| obj in values && ListedItem(obj, cfg.locationId)
      && ProductOf(obj, Lookup(groups, obj.id), images, inventory, cfg.locationId, cfg.includeOutOfStock) == Some(p);
    ProductOfSpec(obj, Lookup(groups, obj.id), images, inventory, cfg.locationId, cfg.includeOutOfStock);
    CatalogValuesFromCatalog(Walk(pages).value);
  }
}

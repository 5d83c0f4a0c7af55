/** Turning one catalog item and its variations into a storefront product:
    `asWebProduct` in scripts/fetch-square.mjs (lines 145-179). */
module ProductBuilder {
  import opened Wrappers
  import opened JsStrings
  import opened CatalogObjects
  import Inventory

  datatype Sku = Sku(id: string, name: string, sku: string, price: Price, available: int)

  datatype WebProduct = WebProduct(
    id: string,
    name: string,
    description: string,
    imageUrl: Option<string>,
    minPrice: Price,
    skus: seq<Sku>)

  /** `readPrice(vd.priceMoney ?? vd.price_money)`. */
  function VariationPrice(vd: VariationData): Option<Price> {
    ReadPrice(if vd.priceMoney.Some? then vd.priceMoney else vd.priceMoneySnake)
  }

  /** The SKU one variation contributes, if it survives the loop's filters:
      present at the location, carrying variation data and a readable price,
      and in stock unless out-of-stock variations are included. */
  function SkuOf(v: CatalogObject, location: string, inventory: map<string, int>, includeOos: bool): Option<Sku> {
    if !PresentAtLocation(v, location) then None
    else match v.itemVariationData
      case None => None
      case Some(vd) =>
        match VariationPrice(vd)
        case None => None
        case Some(price) =>
          var sku := if vd.sku.Some? && vd.sku.value != "" then vd.sku.value else v.id;
          var name := if vd.name.Some? then vd.name.value else "";
          var available := Inventory.Get(inventory, v.id);
          if !includeOos && available <= 0 then None
          else Some(Sku(v.id, name, sku, price, available))
  }

  /** A variation is dropped exactly when it is absent from the location,
      has no variation data or no readable price, or is out of stock while
      out-of-stock variations are excluded; a surviving one keeps its id,
      price and stock, its name is the variation's name or "", and its SKU
      code falls back to the variation id. */
  lemma SkuOfSpec(v: CatalogObject, location: string, inventory: map<string, int>, includeOos: bool)
    ensures var r := SkuOf(v, location, inventory, includeOos);
      && (r.None? <==>
            || !PresentAtLocation(v, location)
            || v.itemVariationData.None?
            || VariationPrice(v.itemVariationData.value).None?
            || (!includeOos && Inventory.Get(inventory, v.id) <= 0))
      && (r.Some? ==> r.value.id == v.id && r.value.available == Inventory.Get(inventory, v.id))
      && (r.Some? ==> Some(r.value.price) == VariationPrice(v.itemVariationData.value))
      && (r.Some? && !includeOos ==> r.value.available > 0)
      && (r.Some? ==>
            r.value.sku == (var sku := v.itemVariationData.value.sku; if sku.Some? && sku.value != "" then sku.value else v.id))
      && (r.Some? ==>
            r.value.name == (var n := v.itemVariationData.value.name; if n.Some? then n.value else ""))
  {
  }

  /** The SKUs of `variations` that survive, in variation order. */
  function Skus(variations: seq<CatalogObject>, location: string, inventory: map<string, int>, includeOos: bool): seq<Sku> {
    if variations == [] then []
    else
      var last := variations[|variations| - 1];
      Skus(variations[..|variations| - 1], location, inventory, includeOos)
        + (match SkuOf(last, location, inventory, includeOos) case Some(s) => [s] case None => [])
  }

  /** Where `minPrice` comes from: the earliest SKU whose amount no other SKU
      undercuts, since the running minimum is replaced only on a strictly
      smaller amount. */
  function MinIndex(skus: seq<Sku>): (k: nat)
    requires skus != []
    ensures k < |skus|
    ensures forall j :: 0 <= j < |skus| ==> skus[k].price.amount <= skus[j].price.amount
    ensures forall j :: 0 <= j < k ==> skus[j].price.amount > skus[k].price.amount
  {
    if |skus| == 1 then 0
    else
      var prefix := skus[..|skus| - 1];
      var m := MinIndex(prefix);
      assert skus[m] == prefix[m];
      if skus[|skus| - 1].price.amount < skus[m].price.amount then |skus| - 1 else m
  }

  /** `item.itemData.name.trim()`, absent when the item has no name. */
  function TrimmedName(item: CatalogObject): Option<string> {
    match item.itemData
    case None => None
    case Some(d) =>
      match d.name
      case None => None
      case Some(n) => Some(Trim(n))
  }

  /** `safe(descriptionHtml ?? description, "")`. */
  function Description(item: CatalogObject): string {
    match item.itemData
    case None => ""
    case Some(d) => if d.descriptionHtml.Some? then d.descriptionHtml.value else d.description.GetOr("")
  }

  /** The product `asWebProduct` returns, or `None` for its `null`. */
  function ProductOf(item: CatalogObject, variations: seq<CatalogObject>, images: map<string, CatalogObject>,
                     inventory: map<string, int>, location: string, includeOos: bool): Option<WebProduct>
  {
    var skus := Skus(variations, location, inventory, includeOos);
    match TrimmedName(item)
    case None => None
    case Some(name) =>
      if name == "" || skus == [] then None
      else Some(WebProduct(item.id, name, Description(item), FirstImageUrl(item, images), skus[MinIndex(skus)].price, skus))
  }

  /** The empty-item guard: no product without a name or without a surviving
      SKU; otherwise the product carries the trimmed name, every surviving SKU
      and the earliest lowest price among them. */
  lemma ProductOfSpec(item: CatalogObject, variations: seq<CatalogObject>, images: map<string, CatalogObject>,
                      inventory: map<string, int>, location: string, includeOos: bool)
    ensures var r := ProductOf(item, variations, images, inventory, location, includeOos);
      && (r.None? <==>
            TrimmedName(item).None? || TrimmedName(item).value == "" || Skus(variations, location, inventory, includeOos) == [])
      && (r.Some? ==>
            var skus := Skus(variations, location, inventory, includeOos);
            && r.value.id == item.id && r.value.name == TrimmedName(item).value && r.value.name != ""
            && r.value.skus == skus && |r.value.skus| >= 1
            && (forall j :: 0 <= j < |skus| ==> r.value.minPrice.amount <= skus[j].price.amount)
            && (exists j :: 0 <= j < |skus| && r.value.minPrice == skus[j].price)
            && r.value.description == Description(item)
            && r.value.imageUrl == FirstImageUrl(item, images))
  {
  }

  /** Appending one variation appends at most its own SKU. */
  lemma SkusSnoc(variations: seq<CatalogObject>, i: nat, location: string, inventory: map<string, int>, includeOos: bool)
    requires i < |variations|
    ensures Skus(variations[..i + 1], location, inventory, includeOos) ==
      Skus(variations[..i], location, inventory, includeOos)
        + (match SkuOf(variations[i], location, inventory, includeOos) case Some(s) => [s] case None => [])
  {
    assert variations[..i + 1][..i] == variations[..i];
  }

  /** The running minimum moves to a new SKU only when it is strictly cheaper. */
  lemma MinIndexSnoc(skus: seq<Sku>, s: Sku)
    requires skus != []
    ensures MinIndex(skus + [s]) ==
      if s.price.amount < skus[MinIndex(skus)].price.amount then |skus| else MinIndex(skus)
  {
    assert (skus + [s])[..|skus|] == skus;
  }

  /** The price `minPrice` holds once `skus` are collected: `null` for none. */
  function MinPrice(skus: seq<Sku>): Option<Price> {
    if skus == [] then None else Some(skus[MinIndex(skus)].price)
  }

  /** The running minimum is replaced exactly when the new SKU is strictly
      cheaper, or when it is the first. */
  lemma MinPriceSnoc(skus: seq<Sku>, s: Sku)
    ensures MinPrice(skus + [s]) ==
      if MinPrice(skus).None? || s.price.amount < MinPrice(skus).value.amount then Some(s.price) else MinPrice(skus)
  {
    if skus != [] {
      MinIndexSnoc(skus, s);
    }
  }

  method AsWebProduct(item: CatalogObject, variations: seq<CatalogObject>, images: map<string, CatalogObject>,
                      inventory: map<string, int>, location: string, includeOos: bool)
    returns (r: Option<WebProduct>)
    ensures r == ProductOf(item, variations, images, inventory, location, includeOos)
  {
    var name := TrimmedName(item);
    var desc := Description(item);
    var imageUrl := FirstImageUrl(item, images);
    var skus, minPrice := CollectSkus(variations, location, inventory, includeOos);
    if name.None? || name.value == "" || |skus| == 0 {
      return None;
    }
    r := Some(WebProduct(item.id, name.value, desc, imageUrl, minPrice.value, skus));
  }

  /** The loop of lines 151-168: the surviving SKUs in variation order, and
      the running minimum price, replaced only by a strictly smaller amount. */
  method CollectSkus(variations: seq<CatalogObject>, location: string, inventory: map<string, int>, includeOos: bool)
    returns (skus: seq<Sku>, minPrice: Option<Price>)
    ensures skus == Skus(variations, location, inventory, includeOos)
    ensures minPrice == MinPrice(skus)
  {
    skus := [];
    minPrice := None;
    for i := 0 to |variations|
      invariant skus == Skus(variations[..i], location, inventory, includeOos)
      invariant minPrice == MinPrice(skus)
    {
      SkusSnoc(variations, i, location, inventory, includeOos);
      match SkuOf(variations[i], location, inventory, includeOos)
      case None =>
      case Some(s) =>
        MinPriceSnoc(skus, s);
        if minPrice.None? || s.price.amount < minPrice.value.amount {
          minPrice := Some(s.price);
        }
        skus := skus + [s];
    }
    assert variations[..|variations|] == variations;
  }

  /** Every surviving SKU comes from some variation, and every variation that
      passes the filters contributes its SKU. */
  lemma SkusSpec(variations: seq<CatalogObject>, location: string, inventory: map<string, int>, includeOos: bool)
    ensures var skus := Skus(variations, location, inventory, includeOos);
      && |skus| <= |variations|
      && (forall i :: 0 <= i < |skus| ==> exists j :: 0 <= j < |variations| && SkuOf(variations[j], location, inventory, includeOos) == Some(skus[i]))
      && (forall j :: 0 <= j < |variations| && SkuOf(variations[j], location, inventory, includeOos).Some? ==>
            SkuOf(variations[j], location, inventory, includeOos).value in skus)
  {
    SkusComeFromVariations(variations, location, inventory, includeOos);
    QualifyingVariationsContribute(variations, location, inventory, includeOos);
  }

  lemma {:induction false} SkusComeFromVariations(variations: seq<CatalogObject>, location: string,
                                                  inventory: map<string, int>, includeOos: bool)
    ensures var skus := Skus(variations, location, inventory, includeOos);
      && |skus| <= |variations|
      && (forall i :: 0 <= i < |skus| ==> exists j :: 0 <= j < |variations| && SkuOf(variations[j], location, inventory, includeOos) == Some(skus[i]))
  {
    if variations != [] {
      var n := |variations| - 1;
      var prefix := variations[..n];
      SkusComeFromVariations(prefix, location, inventory, includeOos);
      SkusSnoc(variations, n, location, inventory, includeOos);
      assert variations[..n + 1] == variations;
      var skus := Skus(variations, location, inventory, includeOos);
      var before := Skus(prefix, location, inventory, includeOos);
      var last := SkuOf(variations[n], location, inventory, includeOos);
      assert skus == before + (if last.Some? then [last.value] else []);
      forall i | 0 <= i < |skus|
        ensures exists j :: 0 <= j < |variations| && SkuOf(variations[j], location, inventory, includeOos) == Some(skus[i])
      {
        if i < |before| {
          var j :| 0 <= j < |prefix| && SkuOf(prefix[j], location, inventory, includeOos) == Some(before[i]);
          assert variations[j] == prefix[j];
        } else {
          assert last == Some(skus[i]);
        }
      }
    }
  }

  lemma QualifyingVariationsContribute(variations: seq<CatalogObject>, location: string,
                                      inventory: map<string, int>, includeOos: bool)
    ensures forall j :: 0 <= j < |variations| && SkuOf(variations[j], location, inventory, includeOos).Some? ==>
      SkuOf(variations[j], location, inventory, includeOos).value in Skus(variations, location, inventory, includeOos)
  {
    forall j | 0 <= j < |variations| && SkuOf(variations[j], location, inventory, includeOos).Some? {
      VariationContributes(variations, j, location, inventory, includeOos);
    }
  }

  lemma {:induction false} VariationContributes(variations: seq<CatalogObject>, j: nat, location: string,
                                                inventory: map<string, int>, includeOos: bool)
    requires j < |variations| && SkuOf(variations[j], location, inventory, includeOos).Some?
    ensures SkuOf(variations[j], location, inventory, includeOos).value in Skus(variations, location, inventory, includeOos)
  {
    var n := |variations| - 1;
    SkusSnoc(variations, n, location, inventory, includeOos);
    assert variations[..n + 1] == variations;
    if j < n {
      assert variations[..n][j] == variations[j];
      VariationContributes(variations[..n], j, location, inventory, includeOos);
    }
  }

  /** Every SKU of an emitted product is present at the location, priced, and
      (unless out-of-stock variations are included) in stock. */
  lemma ProductSkusQualify(item: CatalogObject, variations: seq<CatalogObject>, images: map<string, CatalogObject>,
                           inventory: map<string, int>, location: string, includeOos: bool, s: Sku)
    requires ProductOf(item, variations, images, inventory, location, includeOos).Some?
    requires s in ProductOf(item, variations, images, inventory, location, includeOos).value.skus
    ensures exists v :: (v in variations && PresentAtLocation(v, location) && v.id == s.id
      && v.itemVariationData.Some? && VariationPrice(v.itemVariationData.value) == Some(s.price))
    ensures !includeOos ==> s.available > 0
    ensures s.available == Inventory.Get(inventory, s.id)
  {
    SkusSpec(variations, location, inventory, includeOos);
    var skus := Skus(variations, location, inventory, includeOos);
    var i :| 0 <= i < |skus| && skus[i] == s;
    var j :| 0 <= j < |variations| && SkuOf(variations[j], location, inventory, includeOos) == Some(skus[i]);
    SkuOfSpec(variations[j], location, inventory, includeOos);
    assert variations[j] in variations;
  }

  /** A variation priced 2500 minor units in USD with 5 in stock yields one
      25.00 USD SKU whose code falls back to the variation id. */
  lemma TeeSkus(v: CatalogObject, location: string)
    requires v.presentAtLocationIds == Some([location]) && v.absentAtLocationIds == None
    requires v.itemVariationData.Some?
    requires v.itemVariationData.value == VariationData(None, None, None, Some(RawMoney(Finite(2500), Some("USD"), None)), None)
    ensures Skus([v], location, map[v.id := 5], false) == [Sku(v.id, "", v.id, Price(25.0, "USD"), 5)]
  {
    assert PresentAtLocation(v, location);
    var price := VariationPrice(v.itemVariationData.value);
    assert price == Some(Price(25.0, "USD")) by {
      assert MinorUnits(price.value) == 2500;
    }
    SkusSnoc([v], 0, location, map[v.id := 5], false);
    assert [v][..1] == [v];
  }

  /** An item named "Tee" with that one variation becomes one product priced
      25.00 USD. */
  lemma TeeScenario(item: CatalogObject, v: CatalogObject, location: string)
    requires item.itemData == Some(ItemData(Some("Tee"), None, None))
    requires v.presentAtLocationIds == Some([location]) && v.absentAtLocationIds == None
    requires v.itemVariationData.Some?
    requires v.itemVariationData.value == VariationData(None, None, None, Some(RawMoney(Finite(2500), Some("USD"), None)), None)
    ensures var p := ProductOf(item, [v], map[], map[v.id := 5], location, false);
      && p.Some? && p.value.name == "Tee" && p.value.minPrice == Price(25.0, "USD")
      && |p.value.skus| == 1 && p.value.skus[0].available == 5 && p.value.skus[0].sku == v.id
  {
    assert Trim("Tee") == "Tee" by {
      assert TrimStart("Tee") == "Tee";
      assert TrimEnd("Tee") == "Tee";
    }
    TeeSkus(v, location);
  }
}

/** The shop's cart script, assets/js/cart.js: the stored cart of the Jekyll
    shop pages, the add/update/remove operations its buttons and inputs
    trigger, the badge count, the site-relative link helper and the checkout
    guard. The cart lives in `localStorage` and every operation loads it,
    changes it and stores it again; here it is the `lines` field of a Cart. */
module ShopCart {
  import opened Wrappers
  import opened JsStrings
  import opened CartLines

  /** What the cart keeps about a product besides its id and quantity. */
  datatype ItemDetails = ItemDetails(name: string, price: real, image: string)

  /** The product a button's `data-product` attribute describes. */
  datatype Product = Product(id: string, name: string, price: real, image: string)

  /** `relativeUrl(path)` (lines 6-12): a path on the site below `baseurl`. */
  function RelativeUrl(baseurl: string, path: string): (r: string)
    ensures r != []
    ensures StartsWith(r, DropTrailingSlash(baseurl))
    ensures EndsWith(r, path)
  {
    var normalizedBase := DropTrailingSlash(baseurl);
    if path != [] && path[0] == '/' then
      // The `|| '/'` fallback of line 9 never applies: the path is not empty.
      (if normalizedBase + path == [] then "/" else normalizedBase + path)
    else normalizedBase + "/" + path
  }

  /** Whatever the path, the base (less one trailing slash) and the path
      (less one leading slash) are joined by exactly one slash. */
  lemma RelativeUrlJoinsWithOneSlash(baseurl: string, path: string)
    ensures RelativeUrl(baseurl, path) ==
      DropTrailingSlash(baseurl) + "/" + (if path != [] && path[0] == '/' then path[1..] else path)
  {
    if path != [] && path[0] == '/' {
      assert path == "/" + path[1..];
      assert DropTrailingSlash(baseurl) + path == DropTrailingSlash(baseurl) + "/" + path[1..];
    }
  }

  /** The new line `addItem` pushes (lines 37-43): quantity one. */
  function NewLine(product: Product): (r: Line<ItemDetails>)
    ensures r.id == product.id && r.quantity == 1
  {
    Line(product.id, 1, ItemDetails(product.name, product.price, product.image))
  }

  /** The cart after `addItem(product)` (lines 31-45). */
  function AfterAdd(cart: seq<Line<ItemDetails>>, product: Product): seq<Line<ItemDetails>> {
    match FindIndex(cart, product.id)
    case Some(i) => WithQuantity(cart, i, cart[i].quantity + 1)
    case None => cart + [NewLine(product)]
  }

  /** The cart after `updateQuantity(id, quantity)` (lines 50-61). */
  function AfterUpdate(cart: seq<Line<ItemDetails>>, id: string, quantity: int): seq<Line<ItemDetails>> {
    match FindIndex(cart, id)
    case None => cart
    case Some(i) => if quantity <= 0 then Without(cart, id) else WithQuantity(cart, i, quantity)
  }

  /** The quantity a change in a line's number field applies (lines 124-125):
      the parsed integer, or 1 when the field does not parse. */
  function InputQuantity(parsed: Option<int>): (r: int)
    ensures parsed.None? ==> r == 1
    ensures parsed.Some? ==> r == parsed.value
  {
    parsed.GetOr(1)
  }

  /** What the checkout button does first (lines 157-168, 176-184). */
  datatype CheckoutStep =
    | AnnounceEmpty
    | AnnounceNotConfigured
    | PostOrder(endpoint: string, items: seq<Line<ItemDetails>>)

  function Checkout(cart: seq<Line<ItemDetails>>, endpoint: Option<string>): (r: CheckoutStep)
    ensures r == AnnounceEmpty <==> cart == []
    ensures r == AnnounceNotConfigured <==> cart != [] && (endpoint.None? || endpoint.value == "")
    ensures r.PostOrder? ==> endpoint == Some(r.endpoint) && r.endpoint != "" && r.items == cart && cart != []
  {
    if |cart| == 0 then AnnounceEmpty
    else if endpoint.None? || endpoint.value == "" then AnnounceNotConfigured
    else PostOrder(endpoint.value, cart)
  }

  /** Adding a product raises the count by one. */
  lemma AfterAddCounts(cart: seq<Line<ItemDetails>>, product: Product)
    ensures Count(AfterAdd(cart, product)) == Count(cart) + 1
  {
    match FindIndex(cart, product.id)
    case Some(i) => CountWithQuantity(cart, i, cart[i].quantity + 1);
    case None => CountAppend(cart, NewLine(product));
  }

  /** Adding a product keeps the ids unique. */
  lemma AfterAddKeepsUnique(cart: seq<Line<ItemDetails>>, product: Product)
    requires UniqueIds(cart)
    ensures UniqueIds(AfterAdd(cart, product))
  {
    match FindIndex(cart, product.id)
    case Some(i) => WithQuantityKeepsUnique(cart, i, cart[i].quantity + 1);
    case None => AppendKeepsUnique(cart, NewLine(product));
  }

  /** After adding, a product already in the cart has one more on its first
      line and the cart keeps its length; a new product is a new last line
      with quantity one. Every line with another id is where and what it was. */
  lemma AfterAddPlacesProduct(cart: seq<Line<ItemDetails>>, product: Product)
    ensures FindIndex(AfterAdd(cart, product), product.id).Some?
    ensures FindIndex(cart, product.id).Some? ==>
      var i := FindIndex(cart, product.id).value;
      |AfterAdd(cart, product)| == |cart|
        && AfterAdd(cart, product)[i] == cart[i].(quantity := cart[i].quantity + 1)
        && forall k :: 0 <= k < |cart| && k != i ==> AfterAdd(cart, product)[k] == cart[k]
    ensures FindIndex(cart, product.id).None? ==>
      |AfterAdd(cart, product)| == |cart| + 1
        && AfterAdd(cart, product)[|cart|] == Line(product.id, 1, ItemDetails(product.name, product.price, product.image))
    ensures forall k :: 0 <= k < |cart| && cart[k].id != product.id ==> AfterAdd(cart, product)[k] == cart[k]
  {
    match FindIndex(cart, product.id)
    case Some(i) =>
      assert AfterAdd(cart, product)[i].id == product.id;
    case None =>
      assert AfterAdd(cart, product)[|cart|].id == product.id;
  }

  /** Updating an id that is not in the cart changes nothing; a quantity of
      zero or less removes the id as `removeItem` does, keeping every other
      line in order; any other quantity replaces that of the first line with
      the id, keeping its id and details, and leaves every other line alone. */
  lemma AfterUpdateSpec(cart: seq<Line<ItemDetails>>, id: string, quantity: int)
    ensures FindIndex(cart, id).None? ==> AfterUpdate(cart, id, quantity) == cart
    ensures FindIndex(cart, id).Some? && quantity <= 0 ==>
      AfterUpdate(cart, id, quantity) == Without(cart, id)
        && FindIndex(AfterUpdate(cart, id, quantity), id).None?
        && Count(AfterUpdate(cart, id, quantity)) == Count(cart) - QuantityOf(cart, id)
    ensures FindIndex(cart, id).Some? && quantity > 0 ==>
      var i := FindIndex(cart, id).value;
      |AfterUpdate(cart, id, quantity)| == |cart|
        && AfterUpdate(cart, id, quantity)[i] == cart[i].(quantity := quantity)
        && Count(AfterUpdate(cart, id, quantity)) == Count(cart) - cart[i].quantity + quantity
        && forall k :: 0 <= k < |cart| && k != i ==> AfterUpdate(cart, id, quantity)[k] == cart[k]
    ensures UniqueIds(cart) ==> UniqueIds(AfterUpdate(cart, id, quantity))
  {
    match FindIndex(cart, id)
    case None =>
    case Some(i) =>
      if quantity <= 0 {
        CountWithout(cart, id);
        if UniqueIds(cart) {
          WithoutKeepsUnique(cart, id);
        }
      } else {
        CountWithQuantity(cart, i, quantity);
        if UniqueIds(cart) {
          WithQuantityKeepsUnique(cart, i, quantity);
        }
      }
  }

  /** Removing an item drops exactly the quantity it had in a cart with
      unique ids, and keeps the ids unique. */
  lemma RemoveSpec(cart: seq<Line<ItemDetails>>, id: string)
    requires UniqueIds(cart)
    ensures FindIndex(cart, id).Some? ==>
      Count(Without(cart, id)) == Count(cart) - cart[FindIndex(cart, id).value].quantity
    ensures FindIndex(cart, id).None? ==> Without(cart, id) == cart
    ensures UniqueIds(Without(cart, id))
  {
    CountWithout(cart, id);
    WithoutKeepsUnique(cart, id);
    match FindIndex(cart, id)
    case Some(i) => QuantityOfUnique(cart, i);
    case None => WithoutAbsent(cart, id);
  }

  /** A number field that does not parse never removes its line. */
  lemma NonNumericInputKeepsLine(cart: seq<Line<ItemDetails>>, id: string)
    requires FindIndex(cart, id).Some?
    ensures FindIndex(AfterUpdate(cart, id, InputQuantity(None)), id).Some?
    ensures |AfterUpdate(cart, id, InputQuantity(None))| == |cart|
  {
    var i := FindIndex(cart, id).value;
    assert AfterUpdate(cart, id, InputQuantity(None))[i].id == id;
  }

  /** The stored cart and the operations the page applies to it. */
  class Cart {
    var lines: seq<Line<ItemDetails>>

    /** `loadCart()` of a stored array. */
    constructor(stored: seq<Line<ItemDetails>>)
      ensures lines == stored
    {
      lines := stored;
    }

    /** `addItem(product)`: one more of a product already in the cart, or
        a new line with quantity one. */
    method AddItem(product: Product)
      modifies this
      ensures lines == AfterAdd(old(lines), product)
    {
      var existing := FindIndex(lines, product.id);
      if existing.Some? {
        var i := existing.value;
        lines := lines[i := lines[i].(quantity := lines[i].quantity + 1)];
      } else {
        lines := lines + [NewLine(product)];
      }
    }

    /** `updateQuantity(id, quantity)`. */
    method UpdateQuantity(id: string, quantity: int)
      modifies this
      ensures lines == AfterUpdate(old(lines), id, quantity)
    {
      var item := FindIndex(lines, id);
      if item.None? {
        return;
      }
      if quantity <= 0 {
        RemoveItem(id);
        return;
      }
      var i := item.value;
      lines := lines[i := lines[i].(quantity := quantity)];
    }

    /** `removeItem(id)`. */
    method RemoveItem(id: string)
      modifies this
      ensures lines == Without(old(lines), id)
    {
      lines := Without(lines, id);
    }

    /** The change handler of a line's number field (lines 123-126), given
        the field's `parseInt` result (`None` for NaN). */
    method OnQuantityInput(id: string, parsed: Option<int>)
      modifies this
      ensures lines == AfterUpdate(old(lines), id, InputQuantity(parsed))
    {
      var quantity := if parsed.None? then 1 else parsed.value;
      UpdateQuantity(id, quantity);
    }
  }
}

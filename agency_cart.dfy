/** The agency theme's script, assets/js/agency.js: the navigation links
    marked active for the current page, and the theme's own cart, whose
    lines carry a variant and whose add and update differ from the shop
    cart's (an add raises the quantity by the product's own quantity, and an
    update never removes a line). */
module AgencyCart {
  import opened Wrappers
  import opened JsStrings
  import opened CartLines

  /** Whether a link whose `href` has already lost one trailing slash
      points at the page whose path has too (lines 21-25). */
  predicate Matches(normalizedHref: string, path: string) {
    (normalizedHref == "" && path == "") || (normalizedHref != "" && EndsWith(path, normalizedHref))
  }

  /** Whether the link gets the `active` class on the page at `pathname`
      (lines 17-26): both lose one trailing slash before they are compared. */
  predicate IsActiveLink(href: string, pathname: string) {
    Matches(DropTrailingSlash(href), DropTrailingSlash(pathname))
  }

  /** The home link (`/` or an empty href) is active on the home page and nowhere else. */
  lemma HomeLinkOnlyOnHome(href: string, pathname: string)
    requires DropTrailingSlash(href) == ""
    ensures IsActiveLink(href, pathname) <==> DropTrailingSlash(pathname) == ""
  {
  }

  /** Every link is active on its own page. */
  lemma LinkActiveOnItsPage(href: string)
    ensures IsActiveLink(href, href)
  {
    var n := DropTrailingSlash(href);
    assert n[|n| - |n|..] == n;
  }

  /** A link other than the home link stays active when the site is served
      below a base path: the page path only has to end with the href. */
  lemma LinkActiveBelowBasePath(base: string, href: string)
    requires DropTrailingSlash(href) != ""
    ensures IsActiveLink(href, base + href)
  {
    var n := DropTrailingSlash(href);
    var p := DropTrailingSlash(base + href);
    assert p == base + n by {
      if href[|href| - 1] == '/' {
        assert (base + href)[..|base + href| - 1] == base + href[..|href| - 1];
      }
    }
    assert p[|p| - |n|..] == n;
  }

  /** The home link is not active on any other page, even though every path
      ends with the empty string. */
  lemma HomeLinkNotActiveElsewhere(pathname: string)
    requires DropTrailingSlash(pathname) != ""
    ensures !IsActiveLink("/", pathname)
  {
    assert DropTrailingSlash("/") == "";
  }

  /** The number of links before the first one without an `href`, or
      `|hrefs|` when every link has one. */
  function FirstMissingHref(hrefs: seq<Option<string>>): (n: nat)
    ensures n <= |hrefs|
    ensures forall k :: 0 <= k < n ==> hrefs[k].Some?
    ensures n < |hrefs| ==> hrefs[n].None?
  {
    if hrefs == [] then 0
    else if hrefs[0].None? then 0
    else 1 + FirstMissingHref(hrefs[1..])
  }

  /** Lines 16-26: the `forEach` that adds the `active` class. A link that
      already had the class keeps it. `getAttribute('href')` gives `None` for
      a link without one, and `href.replace` then throws, so the links from
      there on are left as they were and the rest of the script does not run.
      `marked` is the number of links handled: all of them, or the position
      of the first link without an `href`. Nothing is marked at that link
      before the throw, so the method finds it first and then marks the
      links before it. */
  method MarkActiveLinks(hrefs: seq<Option<string>>, pathname: string, active: array<bool>) returns (marked: nat)
    requires active.Length == |hrefs|
    modifies active
    ensures marked <= |hrefs|
    ensures forall k :: 0 <= k < marked ==> hrefs[k].Some?
    ensures marked < |hrefs| ==> hrefs[marked].None?
    ensures forall k :: 0 <= k < marked ==> active[k] == (old(active[k]) || IsActiveLink(hrefs[k].value, pathname))
    ensures forall k :: marked <= k < |hrefs| ==> active[k] == old(active[k])
  {
    var path := DropTrailingSlash(pathname);
    marked := FirstMissingHref(hrefs);
    for i := 0 to marked
      invariant forall k :: 0 <= k < i ==> active[k] == (old(active[k]) || IsActiveLink(hrefs[k].value, pathname))
      invariant forall k :: i <= k < |hrefs| ==> active[k] == old(active[k])
    {
      var normalized := DropTrailingSlash(hrefs[i].value);
      if Matches(normalized, path) {
        active[i] := true;
      }
    }
  }

  /** What the theme's cart keeps besides id and quantity (lines 135-141). */
  datatype ProductDetails = ProductDetails(name: string, variant: Option<string>, price: real)

  /** The cart after `addToCart(product)` (lines 46-56): the product object
      itself is pushed when its id is new. */
  function AfterAdd(cart: seq<Line<ProductDetails>>, product: Line<ProductDetails>): seq<Line<ProductDetails>> {
    match FindIndex(cart, product.id)
    case Some(i) => WithQuantity(cart, i, cart[i].quantity + product.quantity)
    case None => cart + [product]
  }

  /** The cart after `updateQuantity(id, quantity)` (lines 64-71). */
  function AfterUpdate(cart: seq<Line<ProductDetails>>, id: string, quantity: int): seq<Line<ProductDetails>> {
    match FindIndex(cart, id)
    case None => cart
    case Some(i) => WithQuantity(cart, i, quantity)
  }

  /** `Math.max(1, parseInt(input.value, 10) || 1)` (line 125), given the
      `parseInt` result (`None` for NaN): NaN and 0 fall back to 1 through
      `||`, and a negative number is raised to 1 by `Math.max`. */
  function ClampQuantity(parsed: Option<int>): (r: int)
    ensures r >= 1
    ensures parsed.Some? && parsed.value >= 1 ==> r == parsed.value
    ensures parsed.None? || parsed.value < 1 ==> r == 1
  {
    var orOne := if parsed.None? || parsed.value == 0 then 1 else parsed.value;
    if orOne < 1 then 1 else orOne
  }

  /** Adding raises the count by the product's own quantity. */
  lemma AfterAddCounts(cart: seq<Line<ProductDetails>>, product: Line<ProductDetails>)
    ensures Count(AfterAdd(cart, product)) == Count(cart) + product.quantity
  {
    match FindIndex(cart, product.id)
    case Some(i) => CountWithQuantity(cart, i, cart[i].quantity + product.quantity);
    case None => CountAppend(cart, product);
  }

  /** Adding keeps the ids unique and leaves the product's id in the cart: a
      product already there raises its first line's quantity by its own and
      the cart keeps its length; a new one is pushed, as given, as the last
      line. Every line with another id is where and what it was. */
  lemma AfterAddPlacesProduct(cart: seq<Line<ProductDetails>>, product: Line<ProductDetails>)
    ensures UniqueIds(cart) ==> UniqueIds(AfterAdd(cart, product))
    ensures FindIndex(AfterAdd(cart, product), product.id).Some?
    ensures FindIndex(cart, product.id).Some? ==>
      var i := FindIndex(cart, product.id).value;
      |AfterAdd(cart, product)| == |cart|
        && AfterAdd(cart, product)[i] == cart[i].(quantity := cart[i].quantity + product.quantity)
        && forall k :: 0 <= k < |cart| && k != i ==> AfterAdd(cart, product)[k] == cart[k]
    ensures FindIndex(cart, product.id).None? ==>
      |AfterAdd(cart, product)| == |cart| + 1 && AfterAdd(cart, product)[|cart|] == product
    ensures forall k :: 0 <= k < |cart| && cart[k].id != product.id ==> AfterAdd(cart, product)[k] == cart[k]
  {
    match FindIndex(cart, product.id)
    case Some(i) =>
      if UniqueIds(cart) {
        WithQuantityKeepsUnique(cart, i, cart[i].quantity + product.quantity);
      }
      assert AfterAdd(cart, product)[i].id == product.id;
    case None =>
      if UniqueIds(cart) {
        AppendKeepsUnique(cart, product);
      }
      assert AfterAdd(cart, product)[|cart|].id == product.id;
  }

  /** An update never removes a line: an unknown id changes nothing, and a
      known one gets the new quantity on its first line only, which keeps its
      id and details. */
  lemma AfterUpdateSpec(cart: seq<Line<ProductDetails>>, id: string, quantity: int)
    ensures |AfterUpdate(cart, id, quantity)| == |cart|
    ensures FindIndex(cart, id).None? ==> AfterUpdate(cart, id, quantity) == cart
    ensures FindIndex(cart, id).Some? ==>
      var i := FindIndex(cart, id).value;
      AfterUpdate(cart, id, quantity)[i] == cart[i].(quantity := quantity)
        && Count(AfterUpdate(cart, id, quantity)) == Count(cart) - cart[i].quantity + quantity
        && forall k :: 0 <= k < |cart| && k != i ==> AfterUpdate(cart, id, quantity)[k] == cart[k]
    ensures UniqueIds(cart) ==> UniqueIds(AfterUpdate(cart, id, quantity))
  {
    match FindIndex(cart, id)
    case None =>
    case Some(i) =>
      CountWithQuantity(cart, i, quantity);
      if UniqueIds(cart) {
        WithQuantityKeepsUnique(cart, i, quantity);
      }
  }

  /** Changes made through the number fields keep every quantity at least
      one. */
  lemma InputKeepsQuantitiesPositive(cart: seq<Line<ProductDetails>>, id: string, parsed: Option<int>)
    requires PositiveQuantities(cart)
    ensures PositiveQuantities(AfterUpdate(cart, id, ClampQuantity(parsed)))
  {
  }

  /** The theme's stored cart and the operations its page applies to it. */
  class Cart {
    var lines: seq<Line<ProductDetails>>

    /** `getCart()` of a stored array. */
    constructor(stored: seq<Line<ProductDetails>>)
      ensures lines == stored
    {
      lines := stored;
    }

    /** `addToCart(product)`. */
    method AddToCart(product: Line<ProductDetails>)
      modifies this
      ensures lines == AfterAdd(old(lines), product)
    {
      var existing := FindIndex(lines, product.id);
      if existing.Some? {
        var i := existing.value;
        lines := lines[i := lines[i].(quantity := lines[i].quantity + product.quantity)];
      } else {
        lines := lines + [product];
      }
    }

    /** `removeFromCart(id)` (lines 58-62). */
    method RemoveFromCart(id: string)
      modifies this
      ensures lines == Without(old(lines), id)
    {
      lines := Without(lines, id);
    }

    /** `updateQuantity(id, quantity)`. */
    method UpdateQuantity(id: string, quantity: int)
      modifies this
      ensures lines == AfterUpdate(old(lines), id, quantity)
    {
      var item := FindIndex(lines, id);
      if item.None? {
        return;
      }
      var i := item.value;
      lines := lines[i := lines[i].(quantity := quantity)];
    }

    /** The change handler of a line's number field (lines 123-127), given
        the field's `parseInt` result. */
    method OnQuantityInput(id: string, parsed: Option<int>)
      modifies this
      ensures lines == AfterUpdate(old(lines), id, ClampQuantity(parsed))
    {
      UpdateQuantity(id, ClampQuantity(parsed));
    }
  }
}

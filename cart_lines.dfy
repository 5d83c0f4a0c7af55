/** The list operations both browser carts perform on their stored array of
    lines (assets/js/cart.js and assets/js/agency.js): find the first line
    with an id, drop every line with an id, change one line's quantity, and
    add up the quantities for the cart badge. A line carries the fields the
    list operations look at, `id` and `quantity`, and whatever else the page
    stores with it as `details`. */
module CartLines {
  import opened Wrappers

  datatype Line<D> = Line(id: string, quantity: int, details: D)

  /** `cart.find(item => item.id === id)`, as a position: the first line with
      the id, `None` when there is none. */
  function FindIndex<D>(cart: seq<Line<D>>, id: string): (r: Option<nat>)
    ensures r.Some? ==> r.value < |cart| && cart[r.value].id == id
    ensures r.Some? ==> forall j :: 0 <= j < r.value ==> cart[j].id != id
    ensures r.None? <==> forall j :: 0 <= j < |cart| ==> cart[j].id != id
  {
    if cart == [] then None
    else if cart[0].id == id then Some(0)
    else match FindIndex(cart[1..], id)
      case Some(i) => Some(i + 1)
      case None => None
  }

  /** `cart.filter(item => item.id !== id)`. */
  function Without<D>(cart: seq<Line<D>>, id: string): (r: seq<Line<D>>)
    ensures |r| <= |cart|
    ensures forall k :: 0 <= k < |r| ==> r[k] in cart && r[k].id != id
    ensures forall k :: 0 <= k < |cart| && cart[k].id != id ==> cart[k] in r
  {
    if cart == [] then []
    else (if cart[0].id == id then [] else [cart[0]]) + Without(cart[1..], id)
  }

  /** The line at `i` with its quantity replaced, everything else as it was:
      the effect of assigning `quantity` on the object `find` returned. */
  function WithQuantity<D>(cart: seq<Line<D>>, i: nat, quantity: int): seq<Line<D>>
    requires i < |cart|
  {
    cart[i := cart[i].(quantity := quantity)]
  }

  /** `cart.reduce((sum, item) => sum + item.quantity, 0)`. */
  function Count<D>(cart: seq<Line<D>>): int {
    if cart == [] then 0 else Count(cart[..|cart| - 1]) + cart[|cart| - 1].quantity
  }

  /** The total quantity of the lines carrying `id`. */
  function QuantityOf<D>(cart: seq<Line<D>>, id: string): int {
    if cart == [] then 0
    else (QuantityOf(cart[..|cart| - 1], id)
      + (if cart[|cart| - 1].id == id then cart[|cart| - 1].quantity else 0))
  }

  /** No two lines share an id. */
  predicate UniqueIds<D>(cart: seq<Line<D>>) {
    forall i, j :: 0 <= i < j < |cart| ==> cart[i].id != cart[j].id
  }

  /** Every quantity is at least one. */
  predicate PositiveQuantities<D>(cart: seq<Line<D>>) {
    forall i :: 0 <= i < |cart| ==> cart[i].quantity >= 1
  }

  /** Filtering a concatenation filters each part and keeps their order. */
  lemma {:induction false} WithoutConcat<D>(a: seq<Line<D>>, b: seq<Line<D>>, id: string)
    ensures Without(a + b, id) == Without(a, id) + Without(b, id)
  {
    if a == [] {
      assert a + b == b;
    } else {
      assert (a + b)[1..] == a[1..] + b;
      WithoutConcat(a[1..], b, id);
    }
  }

  /** Removing an id that is not in the cart changes nothing. */
  lemma {:induction false} WithoutAbsent<D>(cart: seq<Line<D>>, id: string)
    requires FindIndex(cart, id).None?
    ensures Without(cart, id) == cart
  {
    if cart != [] {
      assert cart[0].id != id;
      assert FindIndex(cart[1..], id).None? by {
        forall j | 0 <= j < |cart[1..]|
          ensures cart[1..][j].id != id
        {
          assert cart[1..][j] == cart[j + 1];
        }
      }
      WithoutAbsent(cart[1..], id);
      assert [cart[0]] + cart[1..] == cart;
    }
  }

  /** Removing twice is removing once. */
  lemma WithoutIdempotent<D>(cart: seq<Line<D>>, id: string)
    ensures Without(Without(cart, id), id) == Without(cart, id)
  {
    WithoutAbsent(Without(cart, id), id);
  }

  /** The badge count adds up across a concatenation. */
  lemma {:induction false} CountConcat<D>(a: seq<Line<D>>, b: seq<Line<D>>)
    ensures Count(a + b) == Count(a) + Count(b)
  {
    if b == [] {
      assert a + b == a;
    } else {
      assert (a + b)[..|a + b| - 1] == a + b[..|b| - 1];
      CountConcat(a, b[..|b| - 1]);
    }
  }

  /** Setting one line's quantity moves the count by the difference. */
  lemma {:induction false} CountWithQuantity<D>(cart: seq<Line<D>>, i: nat, quantity: int)
    requires i < |cart|
    ensures Count(WithQuantity(cart, i, quantity)) == Count(cart) - cart[i].quantity + quantity
  {
    var after := WithQuantity(cart, i, quantity);
    if i == |cart| - 1 {
      assert after[..|after| - 1] == cart[..|cart| - 1];
    } else {
      assert after[..|after| - 1] == WithQuantity(cart[..|cart| - 1], i, quantity);
      CountWithQuantity(cart[..|cart| - 1], i, quantity);
    }
  }

  /** Appending a line adds its quantity to the count. */
  lemma CountAppend<D>(cart: seq<Line<D>>, line: Line<D>)
    ensures Count(cart + [line]) == Count(cart) + line.quantity
  {
    assert (cart + [line])[..|cart|] == cart;
  }

  /** Filtering out an id takes exactly that id's quantities off the count. */
  lemma {:induction false} CountWithout<D>(cart: seq<Line<D>>, id: string)
    ensures Count(Without(cart, id)) == Count(cart) - QuantityOf(cart, id)
  {
    if cart != [] {
      var init := cart[..|cart| - 1];
      var last := cart[|cart| - 1];
      assert cart == init + [last];
      WithoutConcat(init, [last], id);
      assert Without([last], id) == if last.id == id then [] else [last] by {
        assert [last][1..] == [];
      }
      CountConcat(Without(init, id), Without([last], id));
      CountWithout(init, id);
    }
  }

  /** With unique ids, the quantity of an id is that of its one line. */
  lemma {:induction false} QuantityOfUnique<D>(cart: seq<Line<D>>, i: nat)
    requires UniqueIds(cart) && i < |cart|
    ensures QuantityOf(cart, cart[i].id) == cart[i].quantity
  {
    var init := cart[..|cart| - 1];
    if i == |cart| - 1 {
      QuantityOfAbsent(init, cart[i].id);
    } else {
      QuantityOfUnique(init, i);
    }
  }

  lemma {:induction false} QuantityOfAbsent<D>(cart: seq<Line<D>>, id: string)
    requires forall j :: 0 <= j < |cart| ==> cart[j].id != id
    ensures QuantityOf(cart, id) == 0
  {
    if cart != [] {
      QuantityOfAbsent(cart[..|cart| - 1], id);
    }
  }

  /** Appending a line whose id is new keeps the ids unique. */
  lemma AppendKeepsUnique<D>(cart: seq<Line<D>>, line: Line<D>)
    requires UniqueIds(cart) && FindIndex(cart, line.id).None?
    ensures UniqueIds(cart + [line])
  {
  }

  /** Filtering keeps the ids unique. */
  lemma {:induction false} WithoutKeepsUnique<D>(cart: seq<Line<D>>, id: string)
    requires UniqueIds(cart)
    ensures UniqueIds(Without(cart, id))
  {
    if cart != [] {
      var rest := cart[1..];
      assert UniqueIds(rest);
      WithoutKeepsUnique(rest, id);
      if cart[0].id != id {
        forall k | 0 <= k < |Without(rest, id)|
          ensures Without(rest, id)[k].id != cart[0].id
        {
          assert Without(rest, id)[k] in rest;
        }
      }
    }
  }

  /** Changing a quantity keeps the ids, so it keeps them unique. */
  lemma WithQuantityKeepsUnique<D>(cart: seq<Line<D>>, i: nat, quantity: int)
    requires UniqueIds(cart) && i < |cart|
    ensures UniqueIds(WithQuantity(cart, i, quantity))
  {
  }
}

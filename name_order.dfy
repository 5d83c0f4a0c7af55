/** The final ordering of the export: `items.sort((a, b) =>
    a.name.localeCompare(b.name))` (scripts/fetch-square.mjs, line 224).
    The collation is a parameter `le`, required to be a total preorder;
    the sort is stable, as `Array.prototype.sort` is. */
module NameOrder {
  import opened ProductBuilder

  /** `le(a, b)` is `a.localeCompare(b) <= 0`. */
  ghost predicate TotalPreorder(le: (string, string) -> bool) {
    && (forall a, b :: le(a, b) || le(b, a))
    && (forall a, b, c :: le(a, b) && le(b, c) ==> le(a, c))
  }

  ghost predicate SortedByName(items: seq<WebProduct>, le: (string, string) -> bool) {
    forall i, j :: 0 <= i < j < |items| ==> le(items[i].name, items[j].name)
  }

  /** Places `x` after every element that does not sort strictly after it. */
  function InsertByName(sorted: seq<WebProduct>, x: WebProduct, le: (string, string) -> bool): seq<WebProduct> {
    if sorted == [] then [x]
    else
      var last := sorted[|sorted| - 1];
      if le(last.name, x.name) then sorted + [x]
      else InsertByName(sorted[..|sorted| - 1], x, le) + [last]
  }

  function SortByName(items: seq<WebProduct>, le: (string, string) -> bool): seq<WebProduct> {
    if items == [] then []
    else InsertByName(SortByName(items[..|items| - 1], le), items[|items| - 1], le)
  }

  lemma {:induction false} InsertByNamePermutes(sorted: seq<WebProduct>, x: WebProduct, le: (string, string) -> bool)
    ensures multiset(InsertByName(sorted, x, le)) == multiset(sorted) + multiset{x}
    ensures |InsertByName(sorted, x, le)| == |sorted| + 1
  {
    if sorted != [] {
      var n := |sorted| - 1;
      var last := sorted[n];
      assert sorted == sorted[..n] + [last];
      if !le(last.name, x.name) {
        InsertByNamePermutes(sorted[..n], x, le);
      }
    }
  }

  lemma {:induction false} InsertByNameSorts(sorted: seq<WebProduct>, x: WebProduct, le: (string, string) -> bool)
    requires TotalPreorder(le)
    requires SortedByName(sorted, le)
    ensures SortedByName(InsertByName(sorted, x, le), le)
  {
    if sorted != [] {
      var n := |sorted| - 1;
      var last := sorted[n];
      if !le(last.name, x.name) {
        var front := sorted[..n];
        InsertByNameSorts(front, x, le);
        var ins := InsertByName(front, x, le);
        forall m | 0 <= m < n
          ensures le(front[m].name, last.name)
        {
          assert front[m] == sorted[m];
        }
        InsertedStaysBelow(front, x, last.name, le);
        SortedSnoc(ins, last, le);
      }
    }
  }

  /** Inserting keeps every element below a bound that `x` and all of `items` are below. */
  lemma InsertedStaysBelow(items: seq<WebProduct>, x: WebProduct, bound: string, le: (string, string) -> bool)
    requires forall k :: 0 <= k < |items| ==> le(items[k].name, bound)
    requires le(x.name, bound)
    ensures forall k :: 0 <= k < |InsertByName(items, x, le)| ==> le(InsertByName(items, x, le)[k].name, bound)
  {
    var ins := InsertByName(items, x, le);
    InsertByNamePermutes(items, x, le);
    forall k | 0 <= k < |ins|
      ensures le(ins[k].name, bound)
    {
      assert ins[k] in multiset(ins);
      if ins[k] != x {
        assert ins[k] in multiset(items);
      }
    }
  }

  lemma SortedSnoc(items: seq<WebProduct>, last: WebProduct, le: (string, string) -> bool)
    requires SortedByName(items, le)
    requires forall k :: 0 <= k < |items| ==> le(items[k].name, last.name)
    ensures SortedByName(items + [last], le)
  {
  }

  /** Sorting rearranges the products built and neither drops nor adds one. */
  lemma {:induction false} SortByNamePermutes(items: seq<WebProduct>, le: (string, string) -> bool)
    ensures multiset(SortByName(items, le)) == multiset(items)
  {
    if items != [] {
      var n := |items| - 1;
      var front := items[..n];
      SortByNamePermutes(front, le);
      InsertByNamePermutes(SortByName(front, le), items[n], le);
      SplitLast(items);
    }
  }

  lemma SplitLast(items: seq<WebProduct>)
    requires items != []
    ensures multiset(items) == multiset(items[..|items| - 1]) + multiset{items[|items| - 1]}
  {
    assert items == items[..|items| - 1] + [items[|items| - 1]];
  }

  /** Under a total preorder the export's items end up sorted by name. */
  lemma {:induction false} SortByNameSorts(items: seq<WebProduct>, le: (string, string) -> bool)
    requires TotalPreorder(le)
    ensures SortedByName(SortByName(items, le), le)
  {
    if items != [] {
      var n := |items| - 1;
      SortByNameSorts(items[..n], le);
      InsertByNameSorts(SortByName(items[..n], le), items[n], le);
    }
  }

  /** Two names the collation ranks equal. */
  predicate Tie(a: string, b: string, le: (string, string) -> bool) {
    le(a, b) && le(b, a)
  }

  /** The products whose name ties with `name`, in list order. */
  function TiedWith(items: seq<WebProduct>, name: string, le: (string, string) -> bool): seq<WebProduct> {
    if items == [] then []
    else
      var last := items[|items| - 1];
      TiedWith(items[..|items| - 1], name, le) + (if Tie(last.name, name, le) then [last] else [])
  }

  lemma TiedWithSnoc(items: seq<WebProduct>, x: WebProduct, name: string, le: (string, string) -> bool)
    ensures TiedWith(items + [x], name, le) == TiedWith(items, name, le) + TiedWith([x], name, le)
  {
    assert (items + [x])[..|items|] == items;
    assert [x][..0] == [];
  }

  lemma {:induction false} InsertByNameStable(sorted: seq<WebProduct>, x: WebProduct, name: string, le: (string, string) -> bool)
    requires TotalPreorder(le)
    ensures TiedWith(InsertByName(sorted, x, le), name, le) == TiedWith(sorted, name, le) + TiedWith([x], name, le)
  {
    if sorted == [] {
      assert [x] == [] + [x];
      TiedWithSnoc([], x, name, le);
    } else {
      var n := |sorted| - 1;
      var front := sorted[..n];
      var last := sorted[n];
      assert sorted == front + [last];
      TiedWithSnoc(front, last, name, le);
      if le(last.name, x.name) {
        TiedWithSnoc(sorted, x, name, le);
      } else {
        InsertByNameStable(front, x, name, le);
        TiedWithSnoc(InsertByName(front, x, le), last, name, le);
        // `last` sorts strictly after `x`, so they cannot both tie with `name`.
        assert !(Tie(last.name, name, le) && Tie(x.name, name, le));
        assert [x][..0] == [] && [last][..0] == [];
      }
    }
  }

  /** The sort is stable: the products whose names the collation ranks
      equal come out in the order they were built in. */
  lemma {:induction false} SortByNameStable(items: seq<WebProduct>, name: string, le: (string, string) -> bool)
    requires TotalPreorder(le)
    ensures TiedWith(SortByName(items, le), name, le) == TiedWith(items, name, le)
  {
    if items != [] {
      var n := |items| - 1;
      SortByNameStable(items[..n], name, le);
      InsertByNameStable(SortByName(items[..n], le), items[n], name, le);
      assert items == items[..n] + [items[n]];
      TiedWithSnoc(items[..n], items[n], name, le);
    }
  }
}

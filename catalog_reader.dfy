/** Paged catalog retrieval and the id index built from it: `listCatalog` and
    `fetchCatalogIndex` in scripts/fetch-square.mjs (lines 73-90). The remote
    list endpoint is replaced by the finite script of responses it gives,
    one per request, in request order. */
module CatalogReader {
  import opened Wrappers
  import opened CatalogObjects

  /** One response of the list endpoint: a transport or authorisation
      failure, or a page with its objects and continuation cursor. */
  datatype PageResponse =
    | Failed
    | Page(objects: Option<seq<CatalogObject>>, cursor: Option<string>)

  datatype FetchError =
    | TransportFailed
      /** The last response given still carried a cursor: the script would ask for more. */
    | NoMoreResponses

  /** `while (cursor)`: a cursor continues the walk only when non-empty. */
  predicate HasCursor(p: PageResponse)
    requires p.Page?
  {
    p.cursor.Some? && p.cursor.value != ""
  }

  function PageObjects(p: PageResponse): seq<CatalogObject>
    requires p.Page?
  {
    p.objects.GetOr([])
  }

  /** The objects of `pages`, page after page. */
  function Concat(pages: seq<PageResponse>): seq<CatalogObject>
    requires forall j :: 0 <= j < |pages| ==> pages[j].Page?
  {
    if pages == [] then [] else Concat(pages[..|pages| - 1]) + PageObjects(pages[|pages| - 1])
  }

  /** The walk from request `i` on, having collected `acc` so far. */
  function WalkFrom(pages: seq<PageResponse>, i: nat, acc: seq<CatalogObject>): Result<seq<CatalogObject>, FetchError>
    requires i <= |pages|
    decreases |pages| - i
  {
    if i == |pages| then Err(NoMoreResponses)
    else match pages[i]
      case Failed => Err(TransportFailed)
      case Page(_, _) =>
        var acc' := acc + PageObjects(pages[i]);
        if HasCursor(pages[i]) then WalkFrom(pages, i + 1, acc') else Ok(acc')
  }

  /** Everything `listCatalog` yields. */
  function Walk(pages: seq<PageResponse>): Result<seq<CatalogObject>, FetchError> {
    WalkFrom(pages, 0, [])
  }

  /** `listCatalog`, drained: the first request carries no cursor, each later
      one the cursor of the page before, until a page comes back without one. */
  method ListCatalog(pages: seq<PageResponse>) returns (r: Result<seq<CatalogObject>, FetchError>)
    ensures r == Walk(pages)
  {
    var objects: seq<CatalogObject> := [];
    var i := 0;
    while i < |pages|
      invariant 0 <= i <= |pages|
      invariant WalkFrom(pages, i, objects) == Walk(pages)
      decreases |pages| - i
    {
      var res := pages[i];
      if res.Failed? {
        return Err(TransportFailed);
      }
      if res.objects.Some? {
        objects := objects + res.objects.value;
      } else {
        assert objects + PageObjects(res) == objects;
      }
      if !HasCursor(res) {
        return Ok(objects);
      }
      i := i + 1;
    }
    r := Err(NoMoreResponses);
  }

  lemma {:induction false} WalkFromStops(pages: seq<PageResponse>, i: nat, n: nat, acc: seq<CatalogObject>)
    requires i <= n < |pages|
    requires forall j :: i <= j < n ==> pages[j].Page? && HasCursor(pages[j])
    requires pages[n].Page? && !HasCursor(pages[n])
    requires forall j :: 0 <= j <= n ==> pages[j].Page?
    requires acc == Concat(pages[..i])
    ensures WalkFrom(pages, i, acc) == Ok(Concat(pages[..n + 1]))
    decreases n - i
  {
    assert pages[..i + 1][..i] == pages[..i];
    if i < n {
      WalkFromStops(pages, i + 1, n, acc + PageObjects(pages[i]));
    }
  }

  /** When every page before page `n` carried a cursor and page `n` did not,
      the walk yields exactly the objects of pages 0 to `n`, in order. */
  lemma WalkStopsAtFirstPageWithoutCursor(pages: seq<PageResponse>, n: nat)
    requires n < |pages|
    requires forall j :: 0 <= j < n ==> pages[j].Page? && HasCursor(pages[j])
    requires pages[n].Page? && !HasCursor(pages[n])
    ensures forall j :: 0 <= j <= n ==> pages[j].Page?
    ensures Walk(pages) == Ok(Concat(pages[..n + 1]))
  {
    WalkFromStops(pages, 0, n, []);
  }

  lemma {:induction false} WalkFromFails(pages: seq<PageResponse>, i: nat, n: nat, acc: seq<CatalogObject>)
    requires i <= n < |pages|
    requires forall j :: i <= j < n ==> pages[j].Page? && HasCursor(pages[j])
    requires pages[n].Failed?
    ensures WalkFrom(pages, i, acc) == Err(TransportFailed)
    decreases n - i
  {
    if i < n {
      WalkFromFails(pages, i + 1, n, acc + PageObjects(pages[i]));
    }
  }

  /** A failed request ends the whole walk with a transport error, whatever
      the earlier pages held. */
  lemma WalkFailsOnFailedRequest(pages: seq<PageResponse>, n: nat)
    requires n < |pages|
    requires forall j :: 0 <= j < n ==> pages[j].Page? && HasCursor(pages[j])
    requires pages[n].Failed?
    ensures Walk(pages) == Err(TransportFailed)
  {
    WalkFromFails(pages, 0, n, []);
  }

  /** A JavaScript `Map` from id to object: `keys` in insertion order. */
  datatype CatalogIndex = CatalogIndex(keys: seq<string>, byId: map<string, CatalogObject>)

  ghost predicate ValidIndex(idx: CatalogIndex) {
    && (forall i, j :: 0 <= i < j < |idx.keys| ==> idx.keys[i] != idx.keys[j])
    && (forall k :: k in idx.byId <==> k in idx.keys)
    && (forall k :: k in idx.byId ==> idx.byId[k].id == k)
  }

  /** `byId.set(obj.id, obj)`: a new id goes to the end, a known id keeps its
      place and takes the new object. */
  function Insert(idx: CatalogIndex, obj: CatalogObject): CatalogIndex {
    if obj.id in idx.byId then CatalogIndex(idx.keys, idx.byId[obj.id := obj])
    else CatalogIndex(idx.keys + [obj.id], idx.byId[obj.id := obj])
  }

  function IndexById(objects: seq<CatalogObject>): CatalogIndex {
    if objects == [] then CatalogIndex([], map[])
    else Insert(IndexById(objects[..|objects| - 1]), objects[|objects| - 1])
  }

  /** The last object in `objects` with id `id`. */
  function LastWithId(objects: seq<CatalogObject>, id: string): Option<CatalogObject> {
    if objects == [] then None
    else if objects[|objects| - 1].id == id then Some(objects[|objects| - 1])
    else LastWithId(objects[..|objects| - 1], id)
  }

  lemma {:induction false} IndexByIdValid(objects: seq<CatalogObject>)
    ensures ValidIndex(IndexById(objects))
  {
    if objects != [] {
      IndexByIdValid(objects[..|objects| - 1]);
    }
  }

  lemma {:induction false} IndexByIdKeys(objects: seq<CatalogObject>)
    ensures forall k :: k in IndexById(objects).byId <==> exists j :: 0 <= j < |objects| && objects[j].id == k
  {
    if objects != [] {
      var prefix := objects[..|objects| - 1];
      IndexByIdKeys(prefix);
      forall k ensures k in IndexById(objects).byId <==> exists j :: 0 <= j < |objects| && objects[j].id == k {
        if k in IndexById(prefix).byId {
          var j :| 0 <= j < |prefix| && prefix[j].id == k;
          assert objects[j].id == k;
        }
        if exists j :: 0 <= j < |objects| && objects[j].id == k {
          var j :| 0 <= j < |objects| && objects[j].id == k;
          if j < |prefix| {
            assert prefix[j].id == k;
          }
        }
      }
    }
  }

  lemma {:induction false} IndexByIdLast(objects: seq<CatalogObject>)
    ensures forall k :: k in IndexById(objects).byId ==> LastWithId(objects, k) == Some(IndexById(objects).byId[k])
  {
    if objects != [] {
      IndexByIdLast(objects[..|objects| - 1]);
    }
  }

  /** The position of the first object with id `k`, `|objects|` when there is none. */
  function FirstPos(objects: seq<CatalogObject>, k: string): (r: nat)
    ensures r <= |objects|
    ensures r < |objects| ==> objects[r].id == k
    ensures forall j :: 0 <= j < r ==> objects[j].id != k
  {
    if objects == [] then 0
    else if objects[0].id == k then 0
    else 1 + FirstPos(objects[1..], k)
  }

  /** Appending an object leaves the first position of an id already present. */
  lemma FirstPosSnocPresent(prefix: seq<CatalogObject>, last: CatalogObject, k: string)
    requires k in IndexById(prefix).byId
    ensures FirstPos(prefix + [last], k) == FirstPos(prefix, k) < |prefix|
  {
    IndexByIdKeys(prefix);
    var j :| 0 <= j < |prefix| && prefix[j].id == k;
    var p := FirstPos(prefix, k);
    assert p <= j;
    var q := FirstPos(prefix + [last], k);
    assert (prefix + [last])[p] == prefix[p];
    assert !(q < p);
    assert q < |prefix| ==> (prefix + [last])[q] == prefix[q];
  }

  /** Appending an object with a new id puts that id's first position last. */
  lemma FirstPosSnocNew(prefix: seq<CatalogObject>, last: CatalogObject)
    requires last.id !in IndexById(prefix).byId
    ensures FirstPos(prefix + [last], last.id) == |prefix|
  {
    IndexByIdKeys(prefix);
  }

  lemma {:induction false} IndexByIdOrder(objects: seq<CatalogObject>)
    ensures var keys := IndexById(objects).keys;
      forall i, j :: 0 <= i < j < |keys| ==> FirstPos(objects, keys[i]) < FirstPos(objects, keys[j])
  {
    if objects != [] {
      var n := |objects| - 1;
      var prefix := objects[..n];
      var last := objects[n];
      assert objects == prefix + [last];
      IndexByIdOrder(prefix);
      IndexByIdValid(prefix);
      var before := IndexById(prefix).keys;
      forall i | 0 <= i < |before|
        ensures FirstPos(objects, before[i]) == FirstPos(prefix, before[i]) < n
      {
        FirstPosSnocPresent(prefix, last, before[i]);
      }
      if last.id !in IndexById(prefix).byId {
        FirstPosSnocNew(prefix, last);
      }
    }
  }

  /** The index holds each id once, in the order ids first appeared, and maps
      it to the LAST object carrying it. */
  lemma IndexByIdSpec(objects: seq<CatalogObject>)
    ensures ValidIndex(IndexById(objects))
    ensures forall k :: k in IndexById(objects).byId <==> exists j :: 0 <= j < |objects| && objects[j].id == k
    ensures var keys := IndexById(objects).keys;
      forall i, j :: 0 <= i < j < |keys| ==> FirstPos(objects, keys[i]) < FirstPos(objects, keys[j])
    ensures forall k :: k in IndexById(objects).byId ==> LastWithId(objects, k) == Some(IndexById(objects).byId[k])
  {
    IndexByIdValid(objects);
    IndexByIdKeys(objects);
    IndexByIdOrder(objects);
    IndexByIdLast(objects);
  }

  /** `idx.values()`: the objects in key order. */
  function Values(idx: CatalogIndex): (vs: seq<CatalogObject>)
    requires forall k :: k in idx.keys ==> k in idx.byId
    ensures |vs| == |idx.keys|
    ensures forall i :: 0 <= i < |vs| ==> vs[i] == idx.byId[idx.keys[i]]
    decreases |idx.keys|
  {
    if idx.keys == [] then []
    else [idx.byId[idx.keys[0]]] + Values(CatalogIndex(idx.keys[1..], idx.byId))
  }

  /** `fetchCatalogIndex`: the index built from every object the walk yields. */
  method FetchCatalogIndex(pages: seq<PageResponse>) returns (r: Result<CatalogIndex, FetchError>)
    ensures Walk(pages).Err? ==> r == Err(Walk(pages).error)
    ensures Walk(pages).Ok? ==> r == Ok(IndexById(Walk(pages).value))
  {
    var objects := ListCatalog(pages);
    if objects.Err? {
      return Err(objects.error);
    }
    var idx := CatalogIndex([], map[]);
    for i := 0 to |objects.value|
      invariant idx == IndexById(objects.value[..i])
    {
      assert objects.value[..i + 1][..i] == objects.value[..i];
      idx := Insert(idx, objects.value[i]);
    }
    assert objects.value[..|objects.value|] == objects.value;
    r := Ok(idx);
  }
}

/** The in-memory item store of the item service: a list of records that the
    list, get, create, update and delete routes read and change in place.
    The HTTP layer is not modelled; each route is a method of `Store` whose
    result stands for the status code and JSON envelope it answers with. */
module ItemServer {

  datatype Option<+T> = None | Some(value: T)

  /** One record of the store. */
  datatype Item = Item(id: int, name: string, description: string)

  /** The answer of a route handler, without its JSON envelope. */
  datatype Response =
    | Ok(item: Item)       // 200, the item as data
    | Created(item: Item)  // 201, the new item as data
    | Deleted              // 200, "Item deleted successfully"
    | NotFound             // 404, "Item not found"
    | BadRequest           // 400, "Name is required"
  {
    /** The status code of the answer: 201 only for a created item, and a
        4xx code exactly for the two error answers. */
    function Status(): (code: int)
      ensures 200 <= code < 500
      ensures code == 201 <==> Created?
      ensures code >= 400 <==> (NotFound? || BadRequest?)
      ensures code == 404 <==> NotFound?
    {
      match this
      case Ok(_) => 200
      case Created(_) => 201
      case Deleted => 200
      case NotFound => 404
      case BadRequest => 400
    }
  }

  /** JavaScript truthiness of an optional string field of a request body:
      present and not the empty string. */
  predicate Truthy(s: Option<string>): (b: bool)
    ensures !b <==> s == None || s == Some("")
  {
    s.Some? && s.value != ""
  }

  /** Strict equality of an item's id with a parsed path id; an id that did
      not parse (`None`, the NaN of `parseInt`) equals nothing. */
  predicate Matches(it: Item, id: Option<int>): (b: bool)
    ensures b <==> id == Some(it.id)
  {
    id.Some? && it.id == id.value
  }

  /** No two items of the store share an id. */
  ghost predicate UniqueIds(s: seq<Item>) {
    forall i, j :: 0 <= i < j < |s| ==> s[i].id != s[j].id
  }

  /** Every id is at least 1, as every id the store hands out is. */
  ghost predicate PositiveIds(s: seq<Item>) {
    forall i :: 0 <= i < |s| ==> s[i].id >= 1
  }

  /** Every name is non-empty, as create and update only store truthy names. */
  ghost predicate NamedItems(s: seq<Item>) {
    forall i :: 0 <= i < |s| ==> s[i].name != ""
  }

  /** Two stores that hold the same ids at the same positions. */
  ghost predicate SameIds(s: seq<Item>, t: seq<Item>) {
    |s| == |t| && forall j :: 0 <= j < |s| ==> s[j].id == t[j].id
  }

  /** The position of the first item whose id equals `id` (`findIndex`), or
      `None` where that returns -1. */
  function FindIndex(s: seq<Item>, id: Option<int>): (r: Option<nat>)
    ensures r.Some? ==> r.value < |s| && Matches(s[r.value], id)
    ensures r.Some? ==> forall j :: 0 <= j < r.value ==> !Matches(s[j], id)
    ensures r.None? <==> forall j :: 0 <= j < |s| ==> !Matches(s[j], id)
  {
    if s == [] then None
    else if Matches(s[0], id) then Some(0)
    else
      match FindIndex(s[1..], id)
      case None => None
      case Some(k) => Some(k + 1)
  }

  /** The largest id in a non-empty store (`Math.max` over the ids). */
  function MaxId(s: seq<Item>): (m: int)
    requires s != []
    ensures forall i :: 0 <= i < |s| ==> s[i].id <= m
    ensures exists i :: 0 <= i < |s| && s[i].id == m
  {
    if |s| == 1 then s[0].id
    else
      var rest := MaxId(s[1..]);
      if s[0].id < rest then rest else s[0].id
  }

  /** The id a create assigns: one more than the largest id, or 1 when the
      store is empty. It is the least integer above every id when there is
      one, so it differs from every live id. */
  function NextId(s: seq<Item>): (r: int)
    ensures forall i :: 0 <= i < |s| ==> s[i].id < r
    ensures s == [] ==> r == 1
    ensures s != [] ==> exists i :: 0 <= i < |s| && s[i].id == r - 1
  {
    if |s| > 0 then MaxId(s) + 1 else 1
  }

  /** The store after `splice(k, 1)`: the item at `k` is gone, the items
      before it keep their positions, the items after it move down by one,
      and nothing else is added or lost. */
  function RemoveAt(s: seq<Item>, k: nat): (r: seq<Item>)
    requires k < |s|
    ensures |r| == |s| - 1
    ensures forall j :: 0 <= j < k ==> r[j] == s[j]
    ensures forall j :: k <= j < |r| ==> r[j] == s[j + 1]
    ensures multiset(r) + multiset{s[k]} == multiset(s)
  {
    assert s == s[..k] + [s[k]] + s[k + 1..];
    s[..k] + s[k + 1..]
  }

  /** The item an update writes back: the id is kept, the name is replaced
      only by a truthy value, the description whenever one is present. */
  function Patched(it: Item, name: Option<string>, description: Option<string>): (r: Item)
    ensures r.id == it.id
    ensures Truthy(name) ==> r.name == name.value
    ensures !Truthy(name) ==> r.name == it.name
    ensures it.name != "" ==> r.name != ""
    ensures description.Some? ==> r.description == description.value
    ensures description.None? ==> r.description == it.description
  {
    it.(name := if Truthy(name) then name.value else it.name,
        description := if description.Some? then description.value else it.description)
  }

  /** Appending an item with the next id keeps the ids unique. */
  lemma CreateKeepsUnique(s: seq<Item>, it: Item)
    requires UniqueIds(s)
    requires it.id == NextId(s)
    ensures UniqueIds(s + [it])
  {
    var t := s + [it];
    forall i, j | 0 <= i < j < |t| ensures t[i].id != t[j].id {
      if j == |s| {
        assert t[i] == s[i];
      } else {
        assert t[i] == s[i] && t[j] == s[j];
      }
    }
  }

  /** Overwriting an item with one of the same id keeps the ids unique. */
  lemma UpdateKeepsUnique(s: seq<Item>, k: nat, it: Item)
    requires UniqueIds(s)
    requires k < |s| && it.id == s[k].id
    ensures UniqueIds(s[k := it])
  {
  }

  /** Removing one item keeps the ids of the survivors unique. */
  lemma DeleteKeepsUnique(s: seq<Item>, k: nat)
    requires UniqueIds(s)
    requires k < |s|
    ensures UniqueIds(RemoveAt(s, k))
  {
    var t := RemoveAt(s, k);
    forall i, j | 0 <= i < j < |t| ensures t[i].id != t[j].id {
      var i' := if i < k then i else i + 1;
      var j' := if j < k then j else j + 1;
      assert t[i] == s[i'] && t[j] == s[j'] && i' < j';
    }
  }

  /** In a store with unique ids, the lookup of an item's id finds exactly
      that item. */
  lemma FindUnique(s: seq<Item>, k: nat)
    requires UniqueIds(s)
    requires k < |s|
    ensures FindIndex(s, Some(s[k].id)) == Some(k)
  {
  }

  /** Round trip: once create has appended an item with a fresh id, looking
      that id up finds the new item at the end. */
  lemma FindAfterCreate(s: seq<Item>, it: Item)
    requires forall i :: 0 <= i < |s| ==> s[i].id != it.id
    ensures FindIndex(s + [it], Some(it.id)) == Some(|s|)
  {
    var t := s + [it];
    assert Matches(t[|s|], Some(it.id));
    assert forall j :: 0 <= j < |s| ==> t[j] == s[j];
  }

  /** The lookup only looks at ids, so an update (which keeps every id) does
      not change where any id is found. */
  lemma SameIdsSameFind(s: seq<Item>, t: seq<Item>, id: Option<int>)
    requires SameIds(s, t)
    ensures FindIndex(s, id) == FindIndex(t, id)
  {
  }

  /** After a delete in a store with unique ids, the deleted id is found no
      more. */
  lemma DeleteForgetsId(s: seq<Item>, k: nat)
    requires UniqueIds(s)
    requires k < |s|
    ensures FindIndex(RemoveAt(s, k), Some(s[k].id)) == None
  {
    var t := RemoveAt(s, k);
    forall j | 0 <= j < |t| ensures !Matches(t[j], Some(s[k].id)) {
      if j < k {
        assert t[j] == s[j];
      } else {
        assert t[j] == s[j + 1];
      }
    }
  }

  /** The largest id is the one id that bounds all others and is attained. */
  lemma MaxIdIs(s: seq<Item>, v: int)
    requires forall i :: 0 <= i < |s| ==> s[i].id <= v
    requires exists i :: 0 <= i < |s| && s[i].id == v
    ensures s != [] && MaxId(s) == v
  {
    var i :| 0 <= i < |s| && s[i].id == v;
    assert s[i].id <= MaxId(s);
  }

  /** Deleting an item whose id is not the largest leaves the next id as it
      was and above the deleted id: the next create does not hand it out, nor
      does any create while a larger id is still live. */
  lemma DeleteNoReuse(s: seq<Item>, k: nat)
    requires k < |s|
    requires s[k].id != MaxId(s)
    ensures NextId(RemoveAt(s, k)) == NextId(s)
    ensures NextId(RemoveAt(s, k)) > s[k].id
  {
    var t := RemoveAt(s, k);
    var m :| 0 <= m < |s| && s[m].id == MaxId(s);
    assert m != k;
    var m' := if m < k then m else m - 1;
    assert t[m'] == s[m];
    forall j | 0 <= j < |t| ensures t[j].id <= MaxId(s) {
      var j' := if j < k then j else j + 1;
      assert t[j] == s[j'];
    }
    MaxIdIs(t, MaxId(s));
  }

  /** Deleting the item with the largest id may let the next create hand that
      id out again: the next id is no more than the deleted one. */
  lemma DeleteMaxMayReissue(s: seq<Item>, k: nat)
    requires UniqueIds(s) && PositiveIds(s)
    requires k < |s|
    requires s[k].id == MaxId(s)
    ensures NextId(RemoveAt(s, k)) <= s[k].id
  {
    var t := RemoveAt(s, k);
    forall j | 0 <= j < |t| ensures t[j].id < s[k].id {
      var j' := if j < k then j else j + 1;
      assert t[j] == s[j'] && j' != k;
    }
  }

  /** Once the larger ids are gone too, a deleted id that was not the largest
      comes back: from ids 1, 2, 3, deleting id 2 and then id 3 leaves a
      store whose next id is 2. */
  lemma TwoDeletesReissue()
    ensures var s := [Item(1, "a", ""), Item(2, "b", ""), Item(3, "c", "")];
            var t := RemoveAt(RemoveAt(s, 1), 1);
            s[1].id != MaxId(s) && t == [s[0]] && NextId(t) == s[1].id
  {
    var s := [Item(1, "a", ""), Item(2, "b", ""), Item(3, "c", "")];
    assert s[2].id == 3;
    MaxIdIs(s, 3);
    var t := RemoveAt(RemoveAt(s, 1), 1);
    assert t == [s[0]] && t[0].id == 1;
    MaxIdIs(t, 1);
  }

  /** The shared list of items and the route handlers that use it. */
  class Store {
    var items: seq<Item>

    /** The store's invariant: ids are unique and positive, and every item
        has a name. */
    ghost predicate Valid()
      reads this
    {
      UniqueIds(items) && PositiveIds(items) && NamedItems(items)
    }

    /** The store at start-up holds the two seed items, ids 1 and 2. */
    constructor ()
      ensures Valid()
      ensures items == [Item(1, "Item 1", "First item"), Item(2, "Item 2", "Second item")]
    {
      items := [Item(1, "Item 1", "First item"), Item(2, "Item 2", "Second item")];
    }

    /** `GET /api/items`: every item, in insertion order. */
    method List() returns (r: seq<Item>)
      ensures r == items
    {
      r := items;
    }

    /** `GET /api/items/:id`: the first item with that id, or not-found; an
        id that did not parse is never found. The store is not changed. */
    method Get(id: Option<int>) returns (r: Response)
      ensures r.Ok? || r == NotFound
      ensures r.Ok? <==> exists j :: 0 <= j < |items| && Matches(items[j], id)
      ensures r.Ok? ==> r.item.id == id.value
      ensures r.Ok? ==> exists k :: 0 <= k < |items| && r.item == items[k] &&
                         forall j :: 0 <= j < k ==> !Matches(items[j], id)
      ensures id.None? ==> r == NotFound
    {
      match FindIndex(items, id)
      case None =>
        r := NotFound;
      case Some(k) =>
        r := Ok(items[k]);
    }

    /** `POST /api/items`: a falsy name is refused and nothing changes;
        otherwise an item with the next id, the name, and the description
        or `''` is appended at the end. */
    method Create(name: Option<string>, description: Option<string>) returns (r: Response)
      requires Valid()
      modifies this
      ensures Valid()
      ensures !Truthy(name) ==> r == BadRequest && items == old(items)
      ensures Truthy(name) ==>
        r.Created? &&
        r.item == Item(NextId(old(items)), name.value,
                       if Truthy(description) then description.value else "") &&
        items == old(items) + [r.item]
    {
      if !Truthy(name) {
        r := BadRequest;
        return;
      }
      var id := if |items| > 0 then MaxId(items) + 1 else 1;
      var newItem := Item(id, name.value, if Truthy(description) then description.value else "");
      CreateKeepsUnique(items, newItem);
      items := items + [newItem];
      r := Created(newItem);
    }

    /** `PUT /api/items/:id`: not-found leaves the store as it was; otherwise
        the found item is replaced, at its position, by its `Patched` form
        (same id, the new name only if it is truthy, the new description
        whenever one is present), and every other item stays as it was. */
    method Update(id: Option<int>, name: Option<string>, description: Option<string>)
      returns (r: Response)
      requires Valid()
      modifies this
      ensures Valid()
      ensures |items| == |old(items)|
      ensures FindIndex(old(items), id).None? ==> r == NotFound && items == old(items)
      ensures FindIndex(old(items), id).Some? ==>
        var k := FindIndex(old(items), id).value;
        r == Ok(items[k]) && items == old(items)[k := Patched(old(items)[k], name, description)]
    {
      match FindIndex(items, id)
      case None =>
        r := NotFound;
      case Some(k) =>
        var it := Patched(items[k], name, description);
        UpdateKeepsUnique(items, k, it);
        items := items[k := it];
        r := Ok(items[k]);
    }

    /** `DELETE /api/items/:id`: not-found leaves the store as it was;
        otherwise exactly the found item is spliced out. */
    method Delete(id: Option<int>) returns (r: Response)
      requires Valid()
      modifies this
      ensures Valid()
      ensures FindIndex(old(items), id).None? ==> r == NotFound && items == old(items)
      ensures FindIndex(old(items), id).Some? ==>
        r == Deleted && items == RemoveAt(old(items), FindIndex(old(items), id).value)
    {
      match FindIndex(items, id)
      case None =>
        r := NotFound;
      case Some(k) =>
        DeleteKeepsUnique(items, k);
        items := RemoveAt(items, k);
        r := Deleted;
    }
  }

  /** A client of the store, from the seed: create "Item 3" (id 3), delete
      id 1, and list the survivors in their order. */
  method SeedScenario() returns (s: Store)
    ensures fresh(s) && s.Valid()
    ensures s.items == [Item(2, "Item 2", "Second item"), Item(3, "Item 3", "")]
  {
    var i1 := Item(1, "Item 1", "First item");
    var i2 := Item(2, "Item 2", "Second item");
    var i3 := Item(3, "Item 3", "");
    s := new Store();
    assert s.items[1].id == 2;
    MaxIdIs(s.items, 2);
    var r := s.Create(Some("Item 3"), None);
    assert r == Created(i3) && s.items == [i1, i2, i3];
    FindUnique(s.items, 0);
    r := s.Delete(Some(1));
    assert r == Deleted;
    var all := s.List();
    assert all == [i2, i3];
  }

  /** The scenario continued: the next create gets id 4, not the deleted 1,
      and id 1 is not found. */
  method NoReuseScenario(s: Store)
    requires s.Valid()
    requires s.items == [Item(2, "Item 2", "Second item"), Item(3, "Item 3", "")]
    modifies s
    ensures s.Valid() && |s.items| == 3 && s.items[2].id == 4
  {
    assert s.items[1].id == 3;
    MaxIdIs(s.items, 3);
    var r := s.Create(Some("Item 4"), None);
    assert r == Created(Item(4, "Item 4", ""));
    r := s.Get(Some(1));
    assert r == NotFound;
  }

  /** Deleting the item with the largest id lets the next create reissue
      that id. */
  method ReissueScenario(s: Store)
    requires s.Valid()
    requires s.items == [Item(2, "Item 2", "Second item"), Item(3, "Item 3", "")]
    modifies s
    ensures s.items == [Item(2, "Item 2", "Second item"), Item(3, "Item 5", "")]
  {
    FindUnique(s.items, 1);
    var r := s.Delete(Some(3));
    assert s.items == [Item(2, "Item 2", "Second item")];
    assert s.items[0].id == 2;
    MaxIdIs(s.items, 2);
    r := s.Create(Some("Item 5"), Some(""));
    assert r == Created(Item(3, "Item 5", ""));
  }
}

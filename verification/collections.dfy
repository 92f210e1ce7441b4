/** The child cache of datasets and collections: a small state machine,
    unloaded (`None`) or loaded (a sequence of children), driven by `add`,
    `remove` and the lazy `items` read.  The platform calls are parameters. */
module Collections {
  import opened Outcomes
  import opened PyDict
  import opened Values
  import opened Errors
  import opened Variants
  import opened Nodes

  /** The platform calls a container makes: `_api.core.create`,
      `_api.data.delete`, the variant's `_get_method` (a fresh copy of the
      container from the platform) and `_api.data._get_id`. */
  datatype Remote = Remote(
    create: Node -> Result<Node, Error>,
    delete: seq<Ref> -> Option<Error>,
    fetch: Node -> Result<Node, Error>,
    idOf: string -> Value)

  /** What `remove` and `in` accept: an instance or an id string. */
  datatype Ref = ByNode(node: Node) | ById(id: string)

  /** The cached children, or the empty list when the cache is unloaded. */
  function Cached(c: Node): seq<Node>
  {
    c.items.GetOr([])
  }

  /** The linkage `add` gives an item before creating it; `LinkPlacesItem`
      states where it puts the item. */
  function Link(c: Node, item: Node): (r: Node)
    ensures r.handle == item.handle && r.kind == item.kind && r.id == item.id
    ensures r.props == item.props && r.items == item.items
    ensures Valid(item.attrs) ==> Valid(r.attrs)
  {
    if c.kind == DatasetKind then
      PutValidChain(item.attrs, Null, c.id);
      item.(attrs := Put(Put(item.attrs, "parent", Null), "dataset", c.id))
    else if "dataset" in Keys(c.attrs) then
      PutValidChain(item.attrs, c.id, Get(c.attrs, "dataset").value);
      item.(attrs := Put(Put(item.attrs, "parent", c.id), "dataset", Get(c.attrs, "dataset").value))
    else item
  }

  /** Under a dataset an item becomes top-level in that dataset; under a
      collection that belongs to a dataset it becomes a child of the
      collection in the same dataset; otherwise it is left as it is.  No
      other attribute changes. */
  lemma LinkPlacesItem(c: Node, item: Node)
    ensures c.kind == DatasetKind ==>
              Get(Link(c, item).attrs, "parent") == Some(Null) && Get(Link(c, item).attrs, "dataset") == Some(c.id)
    ensures c.kind != DatasetKind && "dataset" in Keys(c.attrs) ==>
              Get(Link(c, item).attrs, "parent") == Some(c.id) && Get(Link(c, item).attrs, "dataset") == Get(c.attrs, "dataset")
    ensures c.kind != DatasetKind && "dataset" !in Keys(c.attrs) ==> Link(c, item) == item
    ensures forall k :: k != "parent" && k != "dataset" ==> Get(Link(c, item).attrs, k) == Get(item.attrs, k)
  {
  }

  lemma PutValidChain(d: Dict<string, Value>, parent: Value, dataset: Value)
    ensures Valid(d) ==> Valid(Put(Put(d, "parent", parent), "dataset", dataset))
  {
    if Valid(d) {
      PutValid(d, "parent", parent);
      PutValid(Put(d, "parent", parent), "dataset", dataset);
    }
  }

  /** The loop of `add`: each item is linked, created on the platform, and
      the response is absorbed into it; the first failure stops the loop. */
  function CreateEach(c: Node, items: seq<Node>, remote: Remote): (r: Result<seq<Node>, Error>)
    ensures r.Ok? ==> |r.value| == |items|
    ensures r.Ok? ==> forall i :: 0 <= i < |items| ==> r.value[i].handle == items[i].handle && r.value[i].kind == items[i].kind
    decreases |items|
  {
    if items == [] then Ok([])
    else
      var linked := Link(c, items[0]);
      var created :- remote.create(linked);
      var rest :- CreateEach(c, items[1..], remote);
      var first := Absorb(linked, created);
      SameHandlesCons(first, rest, items);
      Ok([first] + rest)
  }

  /** Matching handles and kinds position by position survive putting one
      more matching node in front. */
  lemma SameHandlesCons(first: Node, rest: seq<Node>, items: seq<Node>)
    requires items != [] && |rest| == |items| - 1
    requires first.handle == items[0].handle && first.kind == items[0].kind
    requires forall i :: 0 <= i < |rest| ==> rest[i].handle == items[1..][i].handle && rest[i].kind == items[1..][i].kind
    ensures forall i :: 0 <= i < |items| ==> ([first] + rest)[i].handle == items[i].handle && ([first] + rest)[i].kind == items[i].kind
  {
    forall i | 1 <= i < |items| ensures ([first] + rest)[i].handle == items[i].handle && ([first] + rest)[i].kind == items[i].kind {
      assert ([first] + rest)[i] == rest[i - 1] && items[i] == items[1..][i - 1];
    }
  }

  /** One item the platform refuses makes the whole `add` fail. */
  lemma {:induction false} CreateEachFails(c: Node, items: seq<Node>, remote: Remote, j: nat)
    requires j < |items| && remote.create(Link(c, items[j])).Err?
    ensures CreateEach(c, items, remote).Err?
    decreases |items|
  {
    CreateEachStep(c, items, remote);
    if j > 0 && remote.create(Link(c, items[0])).Ok? {
      assert items[1..][j - 1] == items[j];
      CreateEachFails(c, items[1..], remote, j - 1);
    }
  }

  /** One turn of the loop of `add`: it fails on the first item or on the rest. */
  lemma CreateEachStep(c: Node, items: seq<Node>, remote: Remote)
    requires items != []
    ensures CreateEach(c, items, remote).Err? <==>
              remote.create(Link(c, items[0])).Err? || CreateEach(c, items[1..], remote).Err?
  {
  }

  /** `add(*items)`: only an existing container accepts items; the created
      items are appended to the cache in argument order, an unloaded cache
      starting from `[]`.  Adding nothing leaves the container as it is. */
  function Add(c: Node, items: seq<Node>, remote: Remote): (r: Result<Node, Error>)
    ensures !Exists(c) ==> r == Err(NotCreated)
    ensures Exists(c) && items == [] ==> r == Ok(c)
    ensures Exists(c) && items != [] ==> (r.Ok? <==> CreateEach(c, items, remote).Ok?)
    ensures r.Ok? ==> r.value == c.(items := r.value.items)
    ensures r.Ok? && items != [] ==> r.value.items == Some(Cached(c) + CreateEach(c, items, remote).value)
    ensures r.Ok? ==> |Cached(r.value)| == |Cached(c)| + |items| && Cached(c) <= Cached(r.value)
    ensures r.Ok? ==> forall i :: 0 <= i < |items| ==> Cached(r.value)[|Cached(c)| + i].handle == items[i].handle
  {
    var _ :- CheckExists(c);
    if items == [] then Ok(c)
    else
      var created := CreateEach(c, items, remote);
      if created.Err? then Err(created.error)
      else
        AppendedHandles(Cached(c), created.value, items);
        Ok(c.(items := Some(Cached(c) + created.value)))
  }

  lemma AppendedHandles(cache: seq<Node>, added: seq<Node>, items: seq<Node>)
    requires |added| == |items| && forall i :: 0 <= i < |items| ==> added[i].handle == items[i].handle
    ensures forall i :: 0 <= i < |items| ==> (cache + added)[|cache| + i].handle == items[i].handle
  {
  }

  /** When the platform echoes what it is sent, every item lands in the cache
      exactly as linked: parent `None` and the dataset's id under a dataset,
      the collection's id and dataset under a collection. */
  lemma {:induction false} EchoCreatesLinked(c: Node, items: seq<Node>, remote: Remote)
    requires forall n :: remote.create(n) == Ok(n)
    requires forall i :: 0 <= i < |items| ==> Valid(items[i].attrs)
    ensures CreateEach(c, items, remote).Ok?
    ensures forall i :: 0 <= i < |items| ==> CreateEach(c, items, remote).value[i] == Link(c, items[i])
    decreases |items|
  {
    if items != [] {
      forall i | 0 <= i < |items[1..]| ensures Valid(items[1..][i].attrs) {
        assert items[1..][i] == items[i + 1];
      }
      EchoCreatesLinked(c, items[1..], remote);
      EchoStep(c, items, remote);
      ConsMapped(n => Link(c, n), items, CreateEach(c, items[1..], remote).value);
    }
  }

  /** Putting `f` of the first element in front of `f` of the others gives `f` of every element. */
  lemma ConsMapped<T, U>(f: U -> T, items: seq<U>, rest: seq<T>)
    requires items != [] && |rest| == |items| - 1
    requires forall i :: 0 <= i < |items[1..]| ==> rest[i] == f(items[1..][i])
    ensures forall i :: 0 <= i < |items| ==> ([f(items[0])] + rest)[i] == f(items[i])
  {
    forall i | 0 <= i < |items| ensures ([f(items[0])] + rest)[i] == f(items[i]) {
      if i > 0 {
        assert items[1..][i - 1] == items[i];
      }
    }
  }

  lemma EchoStep(c: Node, items: seq<Node>, remote: Remote)
    requires forall n :: remote.create(n) == Ok(n)
    requires items != [] && Valid(items[0].attrs) && CreateEach(c, items[1..], remote).Ok?
    ensures CreateEach(c, items, remote) == Ok([Link(c, items[0])] + CreateEach(c, items[1..], remote).value)
  {
    var linked := Link(c, items[0]);
    UpdateOwn(linked.attrs);
    assert Absorb(linked, linked) == linked;
  }

  /** `add` under an echoing platform places every item under the container. */
  lemma AddLinksItems(c: Node, items: seq<Node>, remote: Remote)
    requires Exists(c) && items != []
    requires forall n :: remote.create(n) == Ok(n)
    requires forall i :: 0 <= i < |items| ==> Valid(items[i].attrs)
    ensures Add(c, items, remote).Ok?
    ensures forall i :: 0 <= i < |items| ==> Cached(Add(c, items, remote).value)[|Cached(c)| + i] == Link(c, items[i])
  {
    EchoCreatesLinked(c, items, remote);
  }

  // ---------------------------------------------------------------------------
  // Membership and removal
  // ---------------------------------------------------------------------------

  /** `x in xs` on a list of instances: Python tries identity first, then
      `__eq__`.  An id string is compared through the reflected
      `Node.__eq__`, which reads `exists` on the string: that raises as soon
      as it meets an existing instance, and is False otherwise. */
  function InList(x: Ref, xs: seq<Node>): (r: Result<bool, Error>)
    ensures x.ByNode? ==> r.Ok? && (r.value <==> exists i :: 0 <= i < |xs| && (xs[i].handle == x.node.handle || Eq(x.node, xs[i])))
    ensures x.ById? ==> r.Ok? ==> !r.value
    ensures x.ById? ==> (r.Ok? <==> forall i :: 0 <= i < |xs| ==> !Exists(xs[i]))
  {
    if xs == [] then Ok(false)
    else
      match x
      case ByNode(n) =>
        if xs[0].handle == n.handle || Eq(n, xs[0]) then Ok(true)
        else
          var r := InList(x, xs[1..]);
          assert forall i :: 1 <= i < |xs| ==> xs[i] == xs[1..][i - 1];
          r
      case ById(_) =>
        if Exists(xs[0]) then Err(AttributeError("exists"))
        else
          var r := InList(x, xs[1..]);
          assert forall i :: 1 <= i < |xs| ==> xs[i] == xs[1..][i - 1];
          r
  }

  /** The membership checks of `remove`, one item after the other: an
      unloaded cache cannot be searched (`in None`), and an item that is not
      cached fails before anything is deleted. */
  function CheckCached(cache: Option<seq<Node>>, refs: seq<Ref>): (r: Option<Error>)
    ensures refs != [] && cache.None? ==> r.Some?
    ensures r.None? ==> forall i :: 0 <= i < |refs| ==> cache.Some? && InList(refs[i], cache.value) == Ok(true)
    ensures cache.Some? && (forall i :: 0 <= i < |refs| ==> InList(refs[i], cache.value) == Ok(true)) ==> r.None?
    decreases |refs|
  {
    if refs == [] then None
    else if cache.None? then Some(TypeError("argument of type 'NoneType' is not iterable"))
    else match InList(refs[0], cache.value)
      case Err(e) => Some(e)
      case Ok(false) => Some(NotInCollection)
      case Ok(true) =>
        var r := CheckCached(cache, refs[1..]);
        assert forall i :: 1 <= i < |refs| ==> refs[i] == refs[1..][i - 1];
        r
  }

  /** `remove(*items)`: every item must be cached; then one remote delete for
      all of them, and the cache is discarded rather than patched. */
  function Remove(c: Node, refs: seq<Ref>, remote: Remote): (r: Result<Node, Error>)
    ensures !Exists(c) ==> r == Err(NotCreated)
    ensures r.Ok? ==> r.value == c.(items := None)
    ensures r.Ok? ==> remote.delete(refs).None?
    ensures r.Ok? ==> forall i :: 0 <= i < |refs| ==> c.items.Some? && InList(refs[i], c.items.value) == Ok(true)
    ensures Exists(c) && refs != [] && c.items.None? ==> r.Err?
    ensures Exists(c) && CheckCached(c.items, refs).None? && remote.delete(refs).None? ==> r.Ok?
    ensures (Exists(c) && c.items.Some? && remote.delete(refs).None? &&
            (forall i :: 0 <= i < |refs| ==> InList(refs[i], c.items.value) == Ok(true))) ==> r.Ok?
  {
    var _ :- CheckExists(c);
    match CheckCached(c.items, refs)
    case Some(e) => Err(e)
    case None =>
      match remote.delete(refs)
      case Some(e) => Err(e)
      case None => Ok(c.(items := None))
  }

  /** Removing by id string never succeeds: with an existing child cached the
      membership test raises, and otherwise the id is never found. */
  lemma RemoveByIdFails(c: Node, id: string, remote: Remote)
    ensures Remove(c, [ById(id)], remote).Err?
    ensures Exists(c) && c.items.Some? && (exists i :: 0 <= i < |c.items.value| && Exists(c.items.value[i])) ==>
              Remove(c, [ById(id)], remote) == Err(AttributeError("exists"))
  {
    if Exists(c) && c.items.Some? {
      var xs := c.items.value;
      if exists i :: 0 <= i < |xs| && Exists(xs[i]) {
        FirstExisting(xs, id);
      }
    }
  }

  lemma {:induction false} FirstExisting(xs: seq<Node>, id: string)
    requires exists i :: 0 <= i < |xs| && Exists(xs[i])
    ensures InList(ById(id), xs) == Err(AttributeError("exists"))
  {
    if !Exists(xs[0]) {
      var i :| 0 <= i < |xs| && Exists(xs[i]);
      assert xs[1..][i - 1] == xs[i];
      FirstExisting(xs[1..], id);
    }
  }

  /** Membership as `remove` is documented to test it: an instance as above,
      an id string by comparing it with the cached children's ids. */
  function InListIntended(x: Ref, xs: seq<Node>): (r: bool)
    ensures x.ByNode? ==> (r <==> exists i :: 0 <= i < |xs| && (xs[i].handle == x.node.handle || Eq(x.node, xs[i])))
    ensures x.ById? ==> (r <==> exists i :: 0 <= i < |xs| && xs[i].id == Str(x.id))
  {
    match x
    case ByNode(n) => InList(x, xs).value
    case ById(s) => exists i :: 0 <= i < |xs| && xs[i].id == Str(s)
  }

  /** `remove` with the documented id-string matching. */
  function RemoveIntended(c: Node, refs: seq<Ref>, remote: Remote): (r: Result<Node, Error>)
    ensures !Exists(c) ==> r == Err(NotCreated)
    ensures r.Ok? ==> r.value == c.(items := None) && remote.delete(refs).None?
    ensures r.Ok? ==> forall i :: 0 <= i < |refs| ==> c.items.Some? && InListIntended(refs[i], c.items.value)
    ensures (Exists(c) && c.items.Some? && remote.delete(refs).None? &&
            (forall i :: 0 <= i < |refs| ==> InListIntended(refs[i], c.items.value))) ==> r.Ok?
  {
    var _ :- CheckExists(c);
    if refs != [] && c.items.None? then Err(TypeError("argument of type 'NoneType' is not iterable"))
    else if exists i :: 0 <= i < |refs| && !InListIntended(refs[i], c.items.value) then Err(NotInCollection)
    else
      match remote.delete(refs)
      case Some(e) => Err(e)
      case None => Ok(c.(items := None))
  }

  /** With the documented matching, a cached child can be removed by its id. */
  lemma RemoveIntendedById(c: Node, i: nat, remote: Remote)
    requires Exists(c) && c.items.Some? && i < |c.items.value| && c.items.value[i].id.Str?
    requires remote.delete([ById(c.items.value[i].id.s)]).None?
    ensures RemoveIntended(c, [ById(c.items.value[i].id.s)], remote) == Ok(c.(items := None))
  {
    assert InListIntended(ById(c.items.value[i].id.s), c.items.value);
  }

  // ---------------------------------------------------------------------------
  // Lazy loading
  // ---------------------------------------------------------------------------

  /** `items`: a loaded cache is returned as it is; an unloaded one is filled
      from a fresh copy of the container, with `[]` when that copy has none. */
  function Items(c: Node, remote: Remote): (r: Result<(Node, seq<Node>), Error>)
    ensures !Exists(c) ==> r == Err(NotCreated)
    ensures Exists(c) && c.items.Some? ==> r == Ok((c, c.items.value))
    ensures r.Ok? ==> r.value.0 == c.(items := Some(r.value.1))
    ensures Exists(c) && c.items.None? && remote.fetch(c).Ok? && IsContainer(remote.fetch(c).value.kind) ==>
              r == Ok((c.(items := Some(Cached(remote.fetch(c).value))), Cached(remote.fetch(c).value)))
  {
    var _ :- CheckExists(c);
    match c.items
    case Some(xs) => Ok((c, xs))
    case None =>
      var copy :- remote.fetch(c);
      if !IsContainer(copy.kind) then Err(AttributeError("_items"))
      else
        var xs := Cached(copy);
        Ok((c.(items := Some(xs)), xs))
  }

  /** Two reads without a mutation in between fetch at most once: the second
      read returns the same sequence whatever the platform would answer now. */
  lemma ReadTwiceFetchesOnce(c: Node, remote: Remote, later: Remote)
    requires Items(c, remote).Ok?
    ensures Items(Items(c, remote).value.0, later) == Ok(Items(c, remote).value)
  {
  }

  /** After a successful `remove` the next read goes to the platform again. */
  lemma RemoveThenReadFetches(c: Node, refs: seq<Ref>, remote: Remote)
    requires Remove(c, refs, remote).Ok?
    ensures var c' := Remove(c, refs, remote).value;
            c'.items.None? && Items(c', remote) ==
              match remote.fetch(c')
              case Err(e) => Err(e)
              case Ok(copy) =>
                if IsContainer(copy.kind) then Ok((c'.(items := Some(Cached(copy))), Cached(copy)))
                else Err(AttributeError("_items"))
  {
  }

  /** `item in container`: an id string loads the cache and compares the
      platform id it names with the children's ids; an instance is looked up
      only in an already loaded cache, and an unloaded one answers False. */
  function Contains(c: Node, x: Ref, remote: Remote): (r: Result<(Node, bool), Error>)
    ensures !Exists(c) ==> r == Err(NotCreated)
    ensures Exists(c) && x.ByNode? && c.items.None? ==> r == Ok((c, false))
    ensures Exists(c) && x.ByNode? && c.items.Some? ==>
              r.Ok? && r.value.0 == c &&
              (r.value.1 <==> exists i :: 0 <= i < |c.items.value| && (c.items.value[i].handle == x.node.handle || Eq(x.node, c.items.value[i])))
    ensures x.ById? && r.Ok? ==> r.value.0.items.Some? && Items(c, remote) == Ok((r.value.0, r.value.0.items.value))
    ensures x.ById? && r.Ok? ==>
              (r.value.1 <==> exists i :: 0 <= i < |r.value.0.items.value| && r.value.0.items.value[i].id == remote.idOf(x.id))
    ensures Exists(c) && x.ById? ==> (r.Ok? <==> Items(c, remote).Ok?)
    ensures x.ById? && r.Err? ==> r == Err(if Exists(c) then Items(c, remote).error else NotCreated)
  {
    var _ :- CheckExists(c);
    match x
    case ById(s) =>
      var (c', xs) :- Items(c, remote);
      Ok((c', exists i :: 0 <= i < |xs| && xs[i].id == remote.idOf(s)))
    case ByNode(_) =>
      if c.items.None? then Ok((c, false))
      else
        Ok((c, InList(x, c.items.value).value))
  }

  /** Whether a child's `name` equals `name`. */
  predicate HasName(y: Node, name: Value)
  {
    Get(y.attrs, "name") == Some(name)
  }

  /** The children whose `name` equals `name`, in order. */
  function Named(xs: seq<Node>, name: Value): (r: seq<Node>)
    ensures |r| <= |xs|
  {
    if xs == [] then []
    else
      var rest := Named(xs[1..], name);
      if HasName(xs[0], name) then [xs[0]] + rest else rest
  }

  /** The filter keeps exactly the matching children, and gives nothing
      exactly when none matches. */
  lemma {:induction false} NamedMembers(xs: seq<Node>, name: Value)
    ensures forall y :: y in Named(xs, name) <==> y in xs && HasName(y, name)
    ensures Named(xs, name) == [] <==> forall y :: y in xs ==> !HasName(y, name)
    decreases |xs|
  {
    if xs != [] {
      NamedMembers(xs[1..], name);
      NamedCons(xs, name);
      assert forall y :: y in xs <==> y == xs[0] || y in xs[1..];
    }
  }

  /** Each matching child is kept as often as it occurs and every other one dropped. */
  lemma {:induction false} NamedCounts(xs: seq<Node>, name: Value)
    ensures forall y :: multiset(Named(xs, name))[y] == if HasName(y, name) then multiset(xs)[y] else 0
    decreases |xs|
  {
    if xs != [] {
      var rest := Named(xs[1..], name);
      var head := if HasName(xs[0], name) then [xs[0]] else [];
      NamedCounts(xs[1..], name);
      NamedCons(xs, name);
      assert xs == [xs[0]] + xs[1..];
      var m := multiset(xs);
      var m' := multiset(Named(xs, name));
      assert m == multiset{xs[0]} + multiset(xs[1..]);
      assert m' == multiset(head) + multiset(rest);
      forall y ensures m'[y] == if HasName(y, name) then m[y] else 0 {
        if y == xs[0] {
          assert m[y] == 1 + multiset(xs[1..])[y];
        }
      }
    }
  }

  /** When every child matches, the filter keeps them all. */
  lemma {:induction false} NamedAll(xs: seq<Node>, name: Value)
    requires forall y :: y in xs ==> HasName(y, name)
    ensures Named(xs, name) == xs
    decreases |xs|
  {
    if xs != [] {
      assert forall y :: y in xs[1..] ==> y in xs;
      NamedAll(xs[1..], name);
      NamedCons(xs, name);
      assert xs == [xs[0]] + xs[1..];
    }
  }

  /** Filtering a concatenation filters each part and keeps them in order. */
  lemma {:induction false} NamedAppend(a: seq<Node>, b: seq<Node>, name: Value)
    ensures Named(a + b, name) == Named(a, name) + Named(b, name)
    decreases |a|
  {
    if a == [] {
      assert a + b == b;
    } else {
      var head := if HasName(a[0], name) then [a[0]] else [];
      assert (a + b)[0] == a[0] && (a + b)[1..] == a[1..] + b;
      NamedCons(a + b, name);
      NamedCons(a, name);
      NamedAppend(a[1..], b, name);
      assert head + (Named(a[1..], name) + Named(b, name)) == head + Named(a[1..], name) + Named(b, name);
    }
  }

  /** The filter takes the first child when it matches and filters the rest. */
  lemma NamedCons(xs: seq<Node>, name: Value)
    requires xs != []
    ensures Named(xs, name) == (if HasName(xs[0], name) then [xs[0]] else []) + Named(xs[1..], name)
  {
  }

  /** `get_items_by_name`: a filter over the (possibly freshly loaded) direct children. */
  function ItemsByName(c: Node, name: Value, remote: Remote): (r: Result<(Node, seq<Node>), Error>)
    ensures r.Ok? ==> Items(c, remote).Ok? && r.value.0 == Items(c, remote).value.0
    ensures r.Ok? ==> forall y :: y in r.value.1 <==> y in Items(c, remote).value.1 && HasName(y, name)
    ensures r.Ok? ==> r.value.1 == Named(Items(c, remote).value.1, name)
    ensures !Exists(c) ==> r == Err(NotCreated)
    ensures r.Err? ==> Items(c, remote).Err?
  {
    var (c', xs) :- Items(c, remote);
    NamedMembers(xs, name);
    Ok((c', Named(xs, name)))
  }
}

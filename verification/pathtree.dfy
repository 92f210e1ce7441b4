/** The command-line path tree: the chain of parents from a dataset down to
    an item, one nested dictionary per chain, the merge of those
    dictionaries, and the indented listing printed from the merged tree. */
module PathTree {
  import opened Outcomes
  import opened PyDict
  import opened Values
  import opened Errors
  import opened Nodes

  // ---------------------------------------------------------------------------
  // get_item_path
  // ---------------------------------------------------------------------------

  /** `p` is the object the store returns for the parent id of `c`. */
  predicate ParentLink(store: map<Value, Node>, p: Node, c: Node)
  {
    && Get(c.attrs, "parent").Some?
    && Get(c.attrs, "parent").value in store
    && store[Get(c.attrs, "parent").value] == p
  }

  /** The id of the parent of the `i`-th object of a path (from the second on). */
  function ParentIdOf(n: Node): Value
  {
    Get(n.attrs, "parent").GetOr(Null)
  }

  /** The failures of a path lookup: a missing attribute, an id the store
      does not know, or a parent cycle. */
  predicate PathError(e: Error)
  {
    e.AttributeError? || e.NotFound? || e == RecursionLimit
  }

  /** `get_item_path(bf, item)`: the dataset, then every ancestor from the
      top-most down, then the item.  `store` answers `bf.get` and `datasets`
      answers `bf.get_dataset`; an id they do not know fails with `NotFound`.
      `seen` holds the parent ids already followed: meeting one again is a
      parent cycle, which the Python recursion never leaves. */
  function ItemPath(store: map<Value, Node>, datasets: map<Value, Node>, item: Node, seen: set<Value>)
    : (r: Result<seq<Node>, Error>)
    ensures r.Ok? ==> |r.value| >= 2 && r.value[|r.value| - 1] == item
    ensures r.Ok? ==>
      var top := r.value[1];
      && Get(top.attrs, "parent") == Some(Null)
      && Get(top.attrs, "dataset").Some?
      && Get(top.attrs, "dataset").value in datasets
      && r.value[0] == datasets[Get(top.attrs, "dataset").value]
    ensures r.Ok? ==> forall i :: 1 <= i < |r.value| - 1 ==> ParentLink(store, r.value[i], r.value[i + 1])
    ensures r.Ok? ==> forall i :: 2 <= i < |r.value| ==> ParentIdOf(r.value[i]) !in seen
    ensures r.Ok? ==> forall i, j :: 2 <= i < j < |r.value| ==> ParentIdOf(r.value[i]) != ParentIdOf(r.value[j])
    ensures r.Err? ==> PathError(r.error)
    decreases store.Keys - seen
  {
    match Get(item.attrs, "parent")
    case None => Err(AttributeError("parent"))
    case Some(parent) =>
      if parent.Null? then
        match Get(item.attrs, "dataset")
        case None => Err(AttributeError("dataset"))
        case Some(ds) => if ds in datasets then Ok([datasets[ds], item]) else Err(NotFound(ds))
      else if parent in seen then Err(RecursionLimit)
      else if parent !in store then Err(NotFound(parent))
      else
        match ItemPath(store, datasets, store[parent], seen + {parent})
        case Err(e) => Err(e)
        case Ok(above) =>
          var path := above + [item];
          assert forall i :: 0 <= i < |above| ==> path[i] == above[i];
          Ok(path)
  }

  /** The path of a search result, with no parent followed yet: it starts
      at the dataset of its top-most object, each later object is the child
      of the one before, it ends at the item, and no parent id repeats. */
  function GetItemPath(store: map<Value, Node>, datasets: map<Value, Node>, item: Node): (r: Result<seq<Node>, Error>)
    ensures r.Ok? ==> |r.value| >= 2 && r.value[|r.value| - 1] == item
    ensures r.Ok? ==>
      var top := r.value[1];
      && Get(top.attrs, "parent") == Some(Null)
      && Get(top.attrs, "dataset").Some?
      && Get(top.attrs, "dataset").value in datasets
      && r.value[0] == datasets[Get(top.attrs, "dataset").value]
    ensures r.Ok? ==> forall i :: 1 <= i < |r.value| - 1 ==> ParentLink(store, r.value[i], r.value[i + 1])
    ensures r.Ok? ==> forall i, j :: 2 <= i < j < |r.value| ==> ParentIdOf(r.value[i]) != ParentIdOf(r.value[j])
    ensures r.Err? ==> PathError(r.error)
  {
    ItemPath(store, datasets, item, {})
  }

  /** An item whose parent is its own parent never reaches a dataset. */
  lemma SelfParentLoops(store: map<Value, Node>, datasets: map<Value, Node>, item: Node, p: Value)
    requires Get(item.attrs, "parent") == Some(p) && !p.Null?
    requires p in store && Get(store[p].attrs, "parent") == Some(p)
    ensures GetItemPath(store, datasets, item) == Err(RecursionLimit)
  {
    assert {} + {p} == {p};
    assert ItemPath(store, datasets, store[p], {p}) == Err(RecursionLimit);
  }

  /** An item at the top of a dataset has the path `[dataset, item]`; one
      level further down the parent sits between them. */
  lemma ShortPaths(store: map<Value, Node>, datasets: map<Value, Node>, item: Node, p: Value, ds: Value)
    requires ds in datasets && !p.Null? && p in store
    requires Get(store[p].attrs, "parent") == Some(Null) && Get(store[p].attrs, "dataset") == Some(ds)
    ensures Get(item.attrs, "parent") == Some(Null) && Get(item.attrs, "dataset") == Some(ds) ==>
              GetItemPath(store, datasets, item) == Ok([datasets[ds], item])
    ensures Get(item.attrs, "parent") == Some(p) ==>
              GetItemPath(store, datasets, item) == Ok([datasets[ds], store[p], item])
  {
    assert {} + {p} == {p};
    assert ItemPath(store, datasets, store[p], {p}) == Ok([datasets[ds], store[p]]);
    assert [datasets[ds], store[p]] + [item] == [datasets[ds], store[p], item];
  }

  // ---------------------------------------------------------------------------
  // make_tree
  // ---------------------------------------------------------------------------

  /** A path tree: a leaf holds an object, a branch a dictionary keyed by id. */
  datatype Tree = Leaf(node: Node) | Branch(children: Dict<Value, Tree>)

  /** The ids of a path, in order. */
  function Ids(path: seq<Node>): (r: seq<Value>)
    ensures |r| == |path|
    ensures forall i :: 0 <= i < |path| ==> r[i] == path[i].id
  {
    seq(|path|, i requires 0 <= i < |path| => path[i].id)
  }

  /** `make_tree(path)`: one single-entry dictionary per object of the path,
      each nested under the previous one's id, the last object as the leaf.
      An empty path has no first object to key by. */
  function MakeTree(path: seq<Node>): (r: Dict<Value, Tree>)
    requires |path| >= 1
    ensures |r| == 1 && r[0].0 == path[0].id
    ensures r[0].1.Leaf? <==> |path| == 1
    decreases |path|
  {
    var value := if |path| == 1 then Leaf(path[0]) else Branch(MakeTree(path[1..]));
    [(path[0].id, value)]
  }

  /** Following a sequence of keys down through nested dictionaries. */
  function Lookup(d: Dict<Value, Tree>, keys: seq<Value>): Option<Tree>
    requires |keys| >= 1
    decreases |keys|
  {
    match Get(d, keys[0])
    case None => None
    case Some(t) =>
      if |keys| == 1 then Some(t)
      else if t.Branch? then Lookup(t.children, keys[1..])
      else None
  }

  /** The ids of a path lead through the tree built from it to its last
      object, and every shorter prefix of them ends at a branch. */
  lemma {:induction false} MakeTreeLookup(path: seq<Node>)
    requires |path| >= 1
    ensures Lookup(MakeTree(path), Ids(path)) == Some(Leaf(path[|path| - 1]))
    ensures forall n :: 1 <= n < |path| ==> Lookup(MakeTree(path), Ids(path)[..n]).Some? &&
                                            Lookup(MakeTree(path), Ids(path)[..n]).value.Branch?
    decreases |path|
  {
    var t := MakeTree(path);
    assert Get(t, path[0].id) == Some(t[0].1);
    if |path| > 1 {
      var rest := path[1..];
      MakeTreeLookup(rest);
      assert Ids(path)[1..] == Ids(rest);
      forall n | 1 <= n < |path|
        ensures Lookup(t, Ids(path)[..n]).Some? && Lookup(t, Ids(path)[..n]).value.Branch?
      {
        if n > 1 {
          assert Ids(path)[..n][1..] == Ids(rest)[..n - 1];
        }
      }
    }
  }

  // ---------------------------------------------------------------------------
  // merge
  // ---------------------------------------------------------------------------

  /** Which behaviour `merge` follows when a leaf meets a dictionary: the
      code as written compares them with the object's `__eq__`, which reads
      `exists` off the dictionary and fails when the object exists; the
      evident intent is the conflict the last branch reports. */
  datatype Mode = AsWritten | Intended

  /** The error for two values under `key` that can be neither merged nor
      taken as the same leaf. */
  function Clash(mode: Mode, av: Tree, bv: Tree, at: seq<Value>): (r: Error)
    ensures mode == Intended ==> r == Conflict(at)
    ensures r != Conflict(at) ==> r == AttributeError("exists")
  {
    if mode == AsWritten && av.Leaf? && bv.Branch? && Exists(av.node) then AttributeError("exists")
    else if mode == AsWritten && av.Branch? && bv.Leaf? && Exists(bv.node) then AttributeError("exists")
    else Conflict(at)
  }

  /** The keys of the entries of `b` from position `i` on. */
  lemma KeysFromCons(b: Dict<Value, Tree>, i: nat)
    requires i < |b|
    ensures Keys(b[i..]) == {b[i].0} + Keys(b[i + 1..])
  {
    assert b[i..][1..] == b[i + 1..];
  }

  /** `merge(a, b, path)` from the `i`-th key of `b` on: a key only `b` has
      is copied, two dictionaries under one key are merged, two equal leaves
      are kept, anything else fails. */
  function MergeFrom(mode: Mode, a: Dict<Value, Tree>, b: Dict<Value, Tree>, i: nat, path: seq<Value>)
    : (r: Result<Dict<Value, Tree>, Error>)
    requires i <= |b|
    ensures r.Ok? ==> Keys(r.value) == Keys(a) + Keys(b[i..])
    ensures r.Ok? ==> forall k :: k !in Keys(b[i..]) ==> Get(r.value, k) == Get(a, k)
    decreases Branch(b), |b| - i
  {
    if i == |b| then Ok(a)
    else
      var key := b[i].0;
      var bv := b[i].1;
      KeysFromCons(b, i);
      var step: Result<Dict<Value, Tree>, Error> :=
        match Get(a, key)
        case None => Ok(Put(a, key, bv))
        case Some(av) =>
          if av.Branch? && bv.Branch? then
            match MergeFrom(mode, av.children, bv.children, 0, path + [key])
            case Err(e) => Err(e)
            case Ok(merged) => Ok(Put(a, key, Branch(merged)))
          else if av.Leaf? && bv.Leaf? && Eq(av.node, bv.node) then Ok(a)
          else Err(Clash(mode, av, bv, path + [key]));
      match step
      case Err(e) => Err(e)
      case Ok(next) => MergeFrom(mode, next, b, i + 1, path)
  }

  /** `merge(a, b)` in either behaviour: the keys of both sides, and those
      only `a` has untouched. */
  function MergeBy(mode: Mode, a: Dict<Value, Tree>, b: Dict<Value, Tree>): (r: Result<Dict<Value, Tree>, Error>)
    ensures r.Ok? ==> Keys(r.value) == Keys(a) + Keys(b)
    ensures r.Ok? ==> forall k :: k !in Keys(b) ==> Get(r.value, k) == Get(a, k)
  {
    assert b[0..] == b;
    MergeFrom(mode, a, b, 0, [])
  }

  /** `merge(a, b)` with the intended conflict report. */
  function Merge(a: Dict<Value, Tree>, b: Dict<Value, Tree>): (r: Result<Dict<Value, Tree>, Error>)
    ensures r.Ok? ==> Keys(r.value) == Keys(a) + Keys(b)
    ensures r.Ok? ==> forall k :: k !in Keys(b) ==> Get(r.value, k) == Get(a, k)
  {
    MergeBy(Intended, a, b)
  }

  /** `merge(a, b)` exactly as written. */
  function MergeAsWritten(a: Dict<Value, Tree>, b: Dict<Value, Tree>): (r: Result<Dict<Value, Tree>, Error>)
    ensures r.Ok? ==> Keys(r.value) == Keys(a) + Keys(b)
  {
    MergeBy(AsWritten, a, b)
  }

  /** The two behaviours differ only in which error they raise. */
  lemma {:induction false} ModesAgree(a: Dict<Value, Tree>, b: Dict<Value, Tree>, i: nat, path: seq<Value>)
    requires i <= |b|
    ensures MergeFrom(AsWritten, a, b, i, path).Ok? == MergeFrom(Intended, a, b, i, path).Ok?
    ensures MergeFrom(AsWritten, a, b, i, path).Ok? ==>
              MergeFrom(AsWritten, a, b, i, path).value == MergeFrom(Intended, a, b, i, path).value
    decreases Branch(b), |b| - i
  {
    if i < |b| {
      var key := b[i].0;
      var bv := b[i].1;
      match Get(a, key)
      case None =>
        ModesAgree(Put(a, key, bv), b, i + 1, path);
      case Some(av) =>
        if av.Branch? && bv.Branch? {
          ModesAgree(av.children, bv.children, 0, path + [key]);
          var inner := MergeFrom(Intended, av.children, bv.children, 0, path + [key]);
          if inner.Ok? {
            ModesAgree(Put(a, key, Branch(inner.value)), b, i + 1, path);
          }
        } else if av.Leaf? && bv.Leaf? && Eq(av.node, bv.node) {
          ModesAgree(a, b, i + 1, path);
        }
    }
  }

  /** With distinct keys, a later entry's key is not among the earlier ones. */
  lemma LaterKeys(b: Dict<Value, Tree>, i: nat)
    requires Valid(b) && i < |b|
    ensures b[i].0 !in Keys(b[i + 1..])
  {
    if b[i].0 in Keys(b[i + 1..]) {
      var j := KeyEntry(b[i + 1..], b[i].0);
    }
  }

  /** The value a key of `b` ends up with: `b`'s own when `a` lacks the key,
      the merge of the two dictionaries when both have one, and otherwise
      `a`'s (the equal leaf kept). */
  function Combined(mode: Mode, av: Option<Tree>, bv: Tree, at: seq<Value>): Tree
  {
    match av
    case None => bv
    case Some(x) =>
      if x.Branch? && bv.Branch? && MergeFrom(mode, x.children, bv.children, 0, at).Ok?
      then Branch(MergeFrom(mode, x.children, bv.children, 0, at).value)
      else x
  }

  /** Every key of a successful merge holds the combined value: `b`'s keys
      as `Combined` says, the others as in `a`. */
  lemma {:induction false} MergeEntries(mode: Mode, a: Dict<Value, Tree>, b: Dict<Value, Tree>, i: nat, path: seq<Value>)
    requires Valid(b) && i <= |b|
    ensures MergeFrom(mode, a, b, i, path).Ok? ==>
              forall j :: i <= j < |b| ==>
                Get(MergeFrom(mode, a, b, i, path).value, b[j].0) ==
                Some(Combined(mode, Get(a, b[j].0), b[j].1, path + [b[j].0]))
    decreases |b| - i
  {
    if i < |b| && MergeFrom(mode, a, b, i, path).Ok? {
      var next := MergeStep(mode, a, b, i, path);
      MergeEntries(mode, next, b, i + 1, path);
      LaterKeys(b, i);
      forall j | i < j < |b| ensures Get(next, b[j].0) == Get(a, b[j].0) {
        assert b[j].0 != b[i].0;
      }
    }
  }

  /** The dictionary a successful merge step on the `i`-th entry of `b`
      leaves: that key holds the combined value and the others are as before. */
  lemma MergeStep(mode: Mode, a: Dict<Value, Tree>, b: Dict<Value, Tree>, i: nat, path: seq<Value>)
    returns (next: Dict<Value, Tree>)
    requires i < |b| && MergeFrom(mode, a, b, i, path).Ok?
    ensures MergeFrom(mode, a, b, i, path) == MergeFrom(mode, next, b, i + 1, path)
    ensures Get(next, b[i].0) == Some(Combined(mode, Get(a, b[i].0), b[i].1, path + [b[i].0]))
    ensures forall k :: k != b[i].0 ==> Get(next, k) == Get(a, k)
  {
    var key := b[i].0;
    var bv := b[i].1;
    match Get(a, key)
    case None =>
      next := Put(a, key, bv);
    case Some(av) =>
      if av.Branch? && bv.Branch? {
        next := Put(a, key, Branch(MergeFrom(mode, av.children, bv.children, 0, path + [key]).value));
      } else {
        next := a;
      }
  }

  /** A dictionary whose nested dictionaries all have distinct keys. */
  predicate DeepValid(d: Dict<Value, Tree>)
    decreases Branch(d)
  {
    && Valid(d)
    && forall i :: 0 <= i < |d| ==> (d[i].1.Branch? ==> DeepValid(d[i].1.children))
  }

  /** When two values under one key can be merged. */
  predicate Agree(x: Tree, y: Tree)
    decreases y, 1
  {
    if x.Branch? && y.Branch? then Compatible(x.children, y.children, 0)
    else x.Leaf? && y.Leaf? && Eq(x.node, y.node)
  }

  /** Every key of `b` from position `i` on that `a` also has holds values
      that agree: two dictionaries that are compatible in turn, or two equal
      leaves. */
  predicate Compatible(a: Dict<Value, Tree>, b: Dict<Value, Tree>, i: nat)
    decreases Branch(b), 0
  {
    forall j :: i <= j < |b| && b[j].0 in Keys(a) ==> Agree(Get(a, b[j].0).value, b[j].1)
  }

  /** Compatibility from position `i` is the agreement of entry `i` together
      with compatibility from `i + 1`. */
  lemma CompatibleCons(a: Dict<Value, Tree>, b: Dict<Value, Tree>, i: nat)
    requires i < |b|
    ensures Compatible(a, b, i) <==>
              (b[i].0 in Keys(a) ==> Agree(Get(a, b[i].0).value, b[i].1)) && Compatible(a, b, i + 1)
  {
  }

  /** Compatibility from `i` only depends on the values of the keys from `i` on. */
  lemma CompatibleSame(a: Dict<Value, Tree>, a': Dict<Value, Tree>, b: Dict<Value, Tree>, i: nat)
    requires forall j :: i <= j < |b| ==> Get(a', b[j].0) == Get(a, b[j].0)
    ensures Compatible(a', b, i) <==> Compatible(a, b, i)
  {
  }

  /** A merge succeeds exactly when the two trees are compatible: a leaf is
      never merged with a dictionary, and two different leaves never share a
      key path. */
  lemma {:induction false} MergeOkIff(mode: Mode, a: Dict<Value, Tree>, b: Dict<Value, Tree>, i: nat, path: seq<Value>)
    requires DeepValid(b) && i <= |b|
    ensures MergeFrom(mode, a, b, i, path).Ok? <==> Compatible(a, b, i)
    decreases Branch(b), |b| - i, 1
  {
    if i < |b| {
      var key := b[i].0;
      var bv := b[i].1;
      CompatibleCons(a, b, i);
      match Get(a, key)
      case None =>
        var next := Put(a, key, bv);
        MergeOkIff(mode, next, b, i + 1, path);
        LaterKeys(b, i);
        SameLater(a, next, b, i);
        CompatibleSame(a, next, b, i + 1);
      case Some(av) =>
        if av.Branch? && bv.Branch? {
          MergeOkIffNested(mode, a, b, i, path);
        } else if av.Leaf? && bv.Leaf? && Eq(av.node, bv.node) {
          MergeOkIff(mode, a, b, i + 1, path);
        }
    }
  }

  /** The case of `MergeOkIff` where both values under the key are dictionaries. */
  lemma {:induction false} MergeOkIffNested(mode: Mode, a: Dict<Value, Tree>, b: Dict<Value, Tree>, i: nat, path: seq<Value>)
    requires DeepValid(b) && i < |b|
    requires Get(a, b[i].0).Some? && Get(a, b[i].0).value.Branch? && b[i].1.Branch?
    ensures MergeFrom(mode, a, b, i, path).Ok? <==> Compatible(a, b, i)
    decreases Branch(b), |b| - i, 0
  {
    var key := b[i].0;
    var bv := b[i].1;
    var av := Get(a, key).value;
    CompatibleCons(a, b, i);
    MergeOkIff(mode, av.children, bv.children, 0, path + [key]);
    var inner := MergeFrom(mode, av.children, bv.children, 0, path + [key]);
    if inner.Ok? {
      var next := Put(a, key, Branch(inner.value));
      MergeOkIff(mode, next, b, i + 1, path);
      LaterKeys(b, i);
      SameLater(a, next, b, i);
      CompatibleSame(a, next, b, i + 1);
    }
  }

  /** Changing only the `i`-th key leaves the later keys of a distinct-key `b` alone. */
  lemma SameLater(a: Dict<Value, Tree>, a': Dict<Value, Tree>, b: Dict<Value, Tree>, i: nat)
    requires Valid(b) && i < |b|
    requires forall k :: k != b[i].0 ==> Get(a', k) == Get(a, k)
    ensures forall j :: i + 1 <= j < |b| ==> Get(a', b[j].0) == Get(a, b[j].0)
  {
  }

  /** Merging a tree into itself changes nothing. */
  lemma {:induction false} MergeIdempotent(mode: Mode, t: Dict<Value, Tree>, i: nat, path: seq<Value>)
    requires DeepValid(t) && i <= |t|
    ensures MergeFrom(mode, t, t, i, path) == Ok(t)
    decreases Branch(t), |t| - i
  {
    if i < |t| {
      var key := t[i].0;
      var v := t[i].1;
      GetEntry(t, i);
      if v.Branch? {
        MergeIdempotent(mode, v.children, 0, path + [key]);
        PutSame(t, key, Branch(v.children));
      } else {
        EqLaws(v.node, v.node, v.node);
      }
      MergeIdempotent(mode, t, i + 1, path);
    }
  }

  /** `make_tree` of a common prefix `p` followed by the dictionary `inner`. */
  function Nest(p: seq<Node>, inner: Dict<Value, Tree>): (r: Dict<Value, Tree>)
    ensures p != [] ==> |r| == 1 && r[0].0 == p[0].id && r[0].1.Branch?
    decreases |p|
  {
    if p == [] then inner else [(p[0].id, Branch(Nest(p[1..], inner)))]
  }

  /** Merging a one-entry dictionary into another one-entry dictionary. */
  lemma MergeSingles(mode: Mode, k: Value, av: Tree, k': Value, bv: Tree, path: seq<Value>)
    ensures k != k' ==> MergeFrom(mode, [(k, av)], [(k', bv)], 0, path) == Ok([(k, av), (k', bv)])
    ensures k == k' && av.Branch? && bv.Branch? ==>
              MergeFrom(mode, [(k, av)], [(k', bv)], 0, path) ==
              match MergeFrom(mode, av.children, bv.children, 0, path + [k])
              case Err(e) => Err(e)
              case Ok(m) => Ok([(k, Branch(m))])
    ensures k == k' && !(av.Branch? && bv.Branch?) && !(av.Leaf? && bv.Leaf? && Eq(av.node, bv.node)) ==>
              MergeFrom(mode, [(k, av)], [(k', bv)], 0, path) == Err(Clash(mode, av, bv, path + [k]))
  {
    var a := [(k, av)];
    var b := [(k', bv)];
    if k == k' {
      assert Get(a, k) == Some(av);
      if av.Branch? && bv.Branch? {
        var inner := MergeFrom(mode, av.children, bv.children, 0, path + [k]);
        if inner.Ok? {
          assert Put(a, k, Branch(inner.value)) == [(k, Branch(inner.value))];
          assert MergeFrom(mode, a, b, 0, path) == MergeFrom(mode, [(k, Branch(inner.value))], b, 1, path);
        }
      }
    } else {
      assert Get(a, k') == None;
      assert Put(a, k', bv) == a + b;
      assert MergeFrom(mode, a, b, 0, path) == MergeFrom(mode, a + b, b, 1, path);
      assert a + b == [(k, av), (k', bv)];
    }
  }

  /** The tree of a path of two or more objects, one level unfolded. */
  lemma MakeTreeCons(p: seq<Node>, tail: seq<Node>)
    requires p != [] && |tail| >= 1
    ensures MakeTree(p + tail) == [(p[0].id, Branch(MakeTree(p[1..] + tail)))]
  {
    SliceConcat(p, tail);
    MakeTreeUnfold(p + tail);
  }

  /** Dropping the first element of a concatenation with a non-empty front. */
  lemma SliceConcat<T>(p: seq<T>, tail: seq<T>)
    requires |p| >= 1
    ensures (p + tail)[1..] == p[1..] + tail
  {
  }

  /** Concatenation is associative. */
  lemma Assoc<T>(a: seq<T>, b: seq<T>, c: seq<T>)
    ensures a + b + c == a + (b + c)
  {
  }

  /** The ids of a non-empty path: the first, then the rest's. */
  lemma IdsCons(p: seq<Node>)
    requires |p| >= 1
    ensures Ids(p) == [p[0].id] + Ids(p[1..])
  {
    var a := Ids(p);
    var b := [p[0].id] + Ids(p[1..]);
    assert |a| == |b|;
    forall j | 0 <= j < |a| ensures a[j] == b[j] {
      if j > 0 { assert p[1..][j - 1] == p[j]; }
    }
  }

  lemma MakeTreeUnfold(q: seq<Node>)
    requires |q| > 1
    ensures MakeTree(q) == [(q[0].id, Branch(MakeTree(q[1..])))]
  {
  }

  /** Two paths that share a prefix and end in objects with different ids
      merge into one chain along the prefix holding both objects. */
  lemma {:induction false} SharedPrefix(mode: Mode, p: seq<Node>, x: Node, y: Node, path: seq<Value>)
    requires x.id != y.id
    ensures MergeFrom(mode, MakeTree(p + [x]), MakeTree(p + [y]), 0, path) ==
            Ok(Nest(p, [(x.id, Leaf(x)), (y.id, Leaf(y))]))
    decreases |p|
  {
    if p == [] {
      assert p + [x] == [x] && p + [y] == [y];
      MergeSingles(mode, x.id, Leaf(x), y.id, Leaf(y), path);
    } else {
      var k := p[0].id;
      MakeTreeCons(p, [x]);
      MakeTreeCons(p, [y]);
      SharedPrefix(mode, p[1..], x, y, path + [k]);
      MergeSingles(mode, k, Branch(MakeTree(p[1..] + [x])), k, Branch(MakeTree(p[1..] + [y])), path);
    }
  }

  /** Two paths that share a prefix and end in different objects with one
      id cannot be merged: the conflict names the key path. */
  lemma {:induction false} SharedPrefixConflict(mode: Mode, p: seq<Node>, x: Node, y: Node, path: seq<Value>)
    requires x.id == y.id && !Eq(x, y)
    ensures MergeFrom(mode, MakeTree(p + [x]), MakeTree(p + [y]), 0, path) == Err(Conflict(path + Ids(p) + [x.id]))
    decreases |p|
  {
    if p == [] {
      assert p + [x] == [x] && p + [y] == [y];
      MergeSingles(mode, x.id, Leaf(x), y.id, Leaf(y), path);
      assert path + Ids(p) + [x.id] == path + [x.id];
    } else {
      var k := p[0].id;
      MakeTreeCons(p, [x]);
      MakeTreeCons(p, [y]);
      SharedPrefixConflict(mode, p[1..], x, y, path + [k]);
      MergeSingles(mode, k, Branch(MakeTree(p[1..] + [x])), k, Branch(MakeTree(p[1..] + [y])), path);
      IdsCons(p);
      Assoc(path, [k], Ids(p[1..]));
    }
  }

  /** A path that ends in an object which is an ancestor of another path's
      object: the leaf meets a dictionary.  As written, an existing object
      makes `merge` fail with `AttributeError` instead of the conflict. */
  lemma {:induction false} LeafMeetsBranch(mode: Mode, p: seq<Node>, c: Node, q: seq<Node>, path: seq<Value>)
    requires |q| >= 1
    ensures MergeFrom(mode, MakeTree(p + [c]), MakeTree(p + [c] + q), 0, path) ==
            Err(Clash(mode, Leaf(c), Branch(MakeTree(q)), path + Ids(p) + [c.id]))
    decreases |p|
  {
    if p == [] {
      assert p + [c] == [c] && p + [c] + q == [c] + q;
      MakeTreeCons([c], q);
      MergeSingles(mode, c.id, Leaf(c), c.id, Branch(MakeTree(q)), path);
      assert path + Ids(p) + [c.id] == path + [c.id];
    } else {
      var k := p[0].id;
      MakeTreeCons(p, [c]);
      MakeTreeCons(p, [c] + q);
      Assoc(p, [c], q);
      Assoc(p[1..], [c], q);
      LeafMeetsBranch(mode, p[1..], c, q, path + [k]);
      MergeSingles(mode, k, Branch(MakeTree(p[1..] + [c])), k, Branch(MakeTree(p[1..] + [c] + q)), path);
      IdsCons(p);
      Assoc(path, [k], Ids(p[1..]));
    }
  }

  /** The smallest case: a collection `c` of dataset `d` and a file `f` in
      it are both search results.  As written the merge fails with
      `AttributeError`; the intended merge reports the conflict at `d.c`. */
  lemma AncestorResult(d: Node, c: Node, f: Node)
    requires Exists(c)
    ensures MergeAsWritten(MakeTree([d, c]), MakeTree([d, c, f])) == Err(AttributeError("exists"))
    ensures Merge(MakeTree([d, c]), MakeTree([d, c, f])) == Err(Conflict([d.id, c.id]))
  {
    assert [d, c] == [d] + [c] && [d, c, f] == [d] + [c] + [f];
    LeafMeetsBranch(AsWritten, [d], c, [f], []);
    LeafMeetsBranch(Intended, [d], c, [f], []);
    assert [] + Ids([d]) + [c.id] == [d.id, c.id];
  }

  // ---------------------------------------------------------------------------
  // Keys at every level
  // ---------------------------------------------------------------------------

  /** The keys of a tree at every level, from the `i`-th entry on. */
  function DeepKeysFrom(d: Dict<Value, Tree>, i: nat): set<Value>
    requires i <= |d|
    decreases Branch(d), |d| - i
  {
    if i == |d| then {}
    else {d[i].0} + (if d[i].1.Branch? then DeepKeysFrom(d[i].1.children, 0) else {}) + DeepKeysFrom(d, i + 1)
  }

  /** The keys of a tree at every level. */
  function DeepKeys(d: Dict<Value, Tree>): set<Value>
  {
    DeepKeysFrom(d, 0)
  }

  /** The keys an entry contributes: its own and those below it. */
  function EntryKeys(e: (Value, Tree)): set<Value>
  {
    {e.0} + (if e.1.Branch? then DeepKeys(e.1.children) else {})
  }

  /** An entry's keys are among the tree's. */
  lemma {:induction false} EntryKeysIn(d: Dict<Value, Tree>, i: nat, j: nat)
    requires i <= j < |d|
    ensures EntryKeys(d[j]) <= DeepKeysFrom(d, i)
    decreases j - i
  {
    if i < j {
      EntryKeysIn(d, i + 1, j);
    }
  }

  /** The tree's keys all come from some entry. */
  lemma {:induction false} DeepKeysBound(d: Dict<Value, Tree>, i: nat, s: set<Value>)
    requires i <= |d|
    requires forall j :: i <= j < |d| ==> EntryKeys(d[j]) <= s
    ensures DeepKeysFrom(d, i) <= s
    decreases |d| - i
  {
    if i < |d| {
      DeepKeysBound(d, i + 1, s);
    }
  }

  /** Assigning `v` to `k` adds at most the keys of the new entry. */
  lemma PutDeepKeys(d: Dict<Value, Tree>, k: Value, v: Tree)
    ensures DeepKeys(Put(d, k, v)) <= DeepKeys(d) + EntryKeys((k, v))
  {
    var r := Put(d, k, v);
    PutEntries(d, k, v);
    forall j | 0 <= j < |r| ensures EntryKeys(r[j]) <= DeepKeys(d) + EntryKeys((k, v)) {
      if r[j] != (k, v) {
        assert r[j] in d;
        var m :| 0 <= m < |d| && d[m] == r[j];
        EntryKeysIn(d, 0, m);
      }
    }
    DeepKeysBound(r, 0, DeepKeys(d) + EntryKeys((k, v)));
  }

  /** A merge invents no key: every key at every level of the result is a
      key of one of the two trees. */
  lemma {:induction false} MergeDeepKeys(mode: Mode, a: Dict<Value, Tree>, b: Dict<Value, Tree>, i: nat, path: seq<Value>)
    requires i <= |b|
    ensures MergeFrom(mode, a, b, i, path).Ok? ==>
              DeepKeys(MergeFrom(mode, a, b, i, path).value) <= DeepKeys(a) + DeepKeysFrom(b, i)
    decreases Branch(b), |b| - i
  {
    var r := MergeFrom(mode, a, b, i, path);
    if i < |b| && r.Ok? {
      var key := b[i].0;
      var bv := b[i].1;
      EntryKeysIn(b, i, i);
      match Get(a, key)
      case None =>
        var next := Put(a, key, bv);
        PutDeepKeys(a, key, bv);
        MergeDeepKeys(mode, next, b, i + 1, path);
      case Some(av) =>
        if av.Branch? && bv.Branch? {
          var merged := MergeFrom(mode, av.children, bv.children, 0, path + [key]).value;
          MergeDeepKeys(mode, av.children, bv.children, 0, path + [key]);
          var m :| 0 <= m < |a| && a[m] == (key, av);
          EntryKeysIn(a, 0, m);
          var next := Put(a, key, Branch(merged));
          PutDeepKeys(a, key, Branch(merged));
          MergeDeepKeys(mode, next, b, i + 1, path);
        } else {
          MergeDeepKeys(mode, a, b, i + 1, path);
        }
    }
  }

  /** The ids of a sequence of objects. */
  function IdSet(nodes: seq<Node>): (r: set<Value>)
    ensures forall j :: 0 <= j < |nodes| ==> nodes[j].id in r
    decreases |nodes|
  {
    if nodes == [] then {} else {nodes[0].id} + IdSet(nodes[1..])
  }

  /** The keys of the tree of a path are the ids along it. */
  lemma {:induction false} MakeTreeKeys(path: seq<Node>)
    requires |path| >= 1
    ensures DeepKeys(MakeTree(path)) == IdSet(path)
    decreases |path|
  {
    var t := MakeTree(path);
    assert DeepKeysFrom(t, 1) == {};
    if |path| > 1 {
      MakeTreeKeys(path[1..]);
    }
  }

  // ---------------------------------------------------------------------------
  // reduce(merge, trees)
  // ---------------------------------------------------------------------------

  /** The keys of a sequence of trees at every level. */
  function AllDeepKeys(ts: seq<Dict<Value, Tree>>): set<Value>
    decreases |ts|
  {
    if ts == [] then {} else DeepKeys(ts[0]) + AllDeepKeys(ts[1..])
  }

  /** The top-level keys of a sequence of trees. */
  function AllKeys(ts: seq<Dict<Value, Tree>>): set<Value>
    decreases |ts|
  {
    if ts == [] then {} else Keys(ts[0]) + AllKeys(ts[1..])
  }

  /** Merging the remaining trees one after the other into `acc`. */
  function FoldFrom(mode: Mode, acc: Dict<Value, Tree>, rest: seq<Dict<Value, Tree>>): (r: Result<Dict<Value, Tree>, Error>)
    ensures r.Ok? ==> Keys(r.value) == Keys(acc) + AllKeys(rest)
    ensures r.Ok? ==> DeepKeys(r.value) <= DeepKeys(acc) + AllDeepKeys(rest)
    decreases |rest|
  {
    if rest == [] then Ok(acc)
    else
      match MergeBy(mode, acc, rest[0])
      case Err(e) => Err(e)
      case Ok(m) =>
        MergeDeepKeys(mode, acc, rest[0], 0, []);
        FoldFrom(mode, m, rest[1..])
  }

  /** `reduce(merge, trees)`: there is no first tree to start from when
      there are no trees.  Merging fails only with a conflict, or, as
      written, with the `AttributeError` of a leaf meeting a dictionary. */
  function Fold(mode: Mode, trees: seq<Dict<Value, Tree>>): (r: Result<Dict<Value, Tree>, Error>)
    ensures trees == [] <==> r == Err(TypeError("reduce() of empty sequence with no initial value"))
    ensures |trees| == 1 ==> r == Ok(trees[0])
    ensures r.Ok? ==> Keys(r.value) == AllKeys(trees)
    ensures r.Ok? ==> DeepKeys(r.value) <= AllDeepKeys(trees)
    ensures trees != [] && r.Err? ==> MergeError(mode, r.error)
  {
    if trees == [] then Err(TypeError("reduce() of empty sequence with no initial value"))
    else
      var r := FoldFrom(mode, trees[0], trees[1..]);
      FoldErrors(mode, trees[0], trees[1..]);
      r
  }

  /** The errors a merge can raise: a conflict, and as written also the
      `AttributeError` of the leaf's `__eq__`. */
  predicate MergeError(mode: Mode, e: Error)
  {
    e.Conflict? || (mode == AsWritten && e == AttributeError("exists"))
  }

  /** A merge only ever fails with a conflict, or as written with the
      `AttributeError` of a leaf meeting a dictionary. */
  lemma {:induction false} MergeErrors(mode: Mode, a: Dict<Value, Tree>, b: Dict<Value, Tree>, i: nat, path: seq<Value>)
    requires i <= |b|
    ensures MergeFrom(mode, a, b, i, path).Err? ==> MergeError(mode, MergeFrom(mode, a, b, i, path).error)
    decreases Branch(b), |b| - i
  {
    if i < |b| {
      var key := b[i].0;
      var bv := b[i].1;
      match Get(a, key)
      case None =>
        MergeErrors(mode, Put(a, key, bv), b, i + 1, path);
      case Some(av) =>
        if av.Branch? && bv.Branch? {
          MergeErrors(mode, av.children, bv.children, 0, path + [key]);
          var inner := MergeFrom(mode, av.children, bv.children, 0, path + [key]);
          if inner.Ok? {
            MergeErrors(mode, Put(a, key, Branch(inner.value)), b, i + 1, path);
          }
        } else if av.Leaf? && bv.Leaf? && Eq(av.node, bv.node) {
          MergeErrors(mode, a, b, i + 1, path);
        }
    }
  }

  /** Folding fails only as a merge does. */
  lemma {:induction false} FoldErrors(mode: Mode, acc: Dict<Value, Tree>, rest: seq<Dict<Value, Tree>>)
    ensures FoldFrom(mode, acc, rest).Err? ==> MergeError(mode, FoldFrom(mode, acc, rest).error)
    decreases |rest|
  {
    if rest != [] {
      MergeErrors(mode, acc, rest[0], 0, []);
      assert rest[0][0..] == rest[0];
      if MergeBy(mode, acc, rest[0]).Ok? {
        FoldErrors(mode, MergeBy(mode, acc, rest[0]).value, rest[1..]);
      }
    }
  }

  /** The two behaviours fold the same trees to the same result whenever
      either succeeds; only the error raised can differ. */
  lemma {:induction false} FoldModesAgree(acc: Dict<Value, Tree>, rest: seq<Dict<Value, Tree>>)
    ensures FoldFrom(AsWritten, acc, rest).Ok? == FoldFrom(Intended, acc, rest).Ok?
    ensures FoldFrom(AsWritten, acc, rest).Ok? ==> FoldFrom(AsWritten, acc, rest).value == FoldFrom(Intended, acc, rest).value
    decreases |rest|
  {
    if rest != [] {
      ModesAgree(acc, rest[0], 0, []);
      if MergeBy(Intended, acc, rest[0]).Ok? {
        FoldModesAgree(MergeBy(Intended, acc, rest[0]).value, rest[1..]);
      }
    }
  }

  /** Merging the same tree again and again gives that tree. */
  lemma {:induction false} FoldSame(mode: Mode, t: Dict<Value, Tree>, n: nat)
    requires DeepValid(t)
    ensures FoldFrom(mode, t, seq(n, _ => t)) == Ok(t)
    decreases n
  {
    if n > 0 {
      MergeIdempotent(mode, t, 0, []);
      assert seq(n, _ => t)[0] == t;
      assert seq(n, _ => t)[1..] == seq(n - 1, _ => t);
      FoldSame(mode, t, n - 1);
    }
  }

  // ---------------------------------------------------------------------------
  // print_tree
  // ---------------------------------------------------------------------------

  /** One printed line: the indentation, `-` before an object with entries
      below it and `*` before a leaf, and the object printed. */
  datatype Line = Line(indent: nat, marker: char, obj: Node)

  /** The marker of a value: `-` for a dictionary, `*` for a leaf. */
  function Marker(t: Tree): char
  {
    if t.Branch? then '-' else '*'
  }

  /** The number of entries of a tree at every level, from the `i`-th on. */
  function SizeFrom(d: Dict<Value, Tree>, i: nat): nat
    requires i <= |d|
    decreases Branch(d), |d| - i
  {
    if i == |d| then 0
    else 1 + (if d[i].1.Branch? then SizeFrom(d[i].1.children, 0) else 0) + SizeFrom(d, i + 1)
  }

  /** `print_tree(tree, objects, indent)` from the `i`-th entry on, as the
      lines it prints: each entry's object looked up by its key, followed by
      the lines of its own entries two columns further in.  A key `objects`
      lacks fails with `KeyError`. */
  function PrintFrom(d: Dict<Value, Tree>, objects: map<Value, Node>, indent: nat, i: nat)
    : (r: Result<seq<Line>, Error>)
    requires i <= |d|
    ensures r.Ok? <==> DeepKeysFrom(d, i) <= objects.Keys
    ensures r.Err? ==> r.error.KeyError? && r.error.key in DeepKeysFrom(d, i) && r.error.key !in objects
    ensures r.Ok? ==> |r.value| == SizeFrom(d, i)
    ensures r.Ok? ==> forall l :: l in r.value ==> l.indent >= indent && (l.indent - indent) % 2 == 0
    ensures r.Ok? ==> forall l :: l in r.value ==> l.obj in objects.Values
    decreases Branch(d), |d| - i
  {
    if i == |d| then Ok([])
    else
      var key := d[i].0;
      var value := d[i].1;
      if key !in objects then Err(KeyError(key))
      else
        var line := Line(indent, Marker(value), objects[key]);
        var sub: Result<seq<Line>, Error> := if value.Branch? then PrintFrom(value.children, objects, indent + 2, 0) else Ok([]);
        match sub
        case Err(e) => Err(e)
        case Ok(below) =>
          match PrintFrom(d, objects, indent, i + 1)
          case Err(e) => Err(e)
          case Ok(rest) => Ok([line] + below + rest)
  }

  /** `print_tree(tree, objects)`. */
  function PrintTree(d: Dict<Value, Tree>, objects: map<Value, Node>, indent: nat): (r: Result<seq<Line>, Error>)
    ensures r.Ok? <==> DeepKeys(d) <= objects.Keys
    ensures r.Ok? ==> |r.value| == SizeFrom(d, 0)
    ensures r.Ok? && |d| > 0 ==> r.value[0] == Line(indent, Marker(d[0].1), objects[d[0].0])
  {
    PrintFrom(d, objects, indent, 0)
  }

  /** The lines of one path: each object one step further in, every one but
      the last marked as having entries below it. */
  function ChainLines(path: seq<Node>, objects: map<Value, Node>, indent: nat): (r: seq<Line>)
    requires forall j :: 0 <= j < |path| ==> path[j].id in objects
  {
    seq(|path|, j requires 0 <= j < |path| =>
      Line(indent + 2 * j, if j < |path| - 1 then '-' else '*', objects[path[j].id]))
  }

  /** The tree of a single path prints as one line per object, each two
      columns further in than its parent, the last one a leaf. */
  lemma {:induction false} PrintChain(path: seq<Node>, objects: map<Value, Node>, indent: nat)
    requires |path| >= 1
    requires forall j :: 0 <= j < |path| ==> path[j].id in objects
    ensures PrintTree(MakeTree(path), objects, indent) == Ok(ChainLines(path, objects, indent))
    decreases |path|
  {
    var t := MakeTree(path);
    var first := Line(indent, Marker(t[0].1), objects[path[0].id]);
    assert PrintFrom(t, objects, indent, 1) == Ok([]);
    if |path| == 1 {
      assert PrintFrom(t, objects, indent, 0) == Ok([first] + [] + []);
      AppendEmpty([first] + []);
      AppendEmpty([first]);
      SeqExt(ChainLines(path, objects, indent), [first]);
    } else {
      var rest := path[1..];
      PrintChain(rest, objects, indent + 2);
      var below := ChainLines(rest, objects, indent + 2);
      assert PrintFrom(t, objects, indent, 0) == Ok([first] + below + []);
      var whole := ChainLines(path, objects, indent);
      assert |whole| == |[first] + below|;
      forall j | 0 <= j < |whole| ensures whole[j] == ([first] + below)[j] {
        if j > 0 { assert rest[j - 1] == path[j]; }
      }
      AppendEmpty([first] + below);
      SeqExt(whole, [first] + below);
    }
  }

  /** The lines of the objects of a prefix, each one step further in and
      each marked as having entries below it. */
  function BranchLines(p: seq<Node>, objects: map<Value, Node>, indent: nat): (r: seq<Line>)
    requires forall j :: 0 <= j < |p| ==> p[j].id in objects
  {
    seq(|p|, j requires 0 <= j < |p| => Line(indent + 2 * j, '-', objects[p[j].id]))
  }

  /** A tree nested under a prefix prints as the prefix's chain of `-` lines
      followed by the tree's own lines, `2 * |p|` columns further in. */
  lemma {:induction false} PrintNest(p: seq<Node>, inner: Dict<Value, Tree>, objects: map<Value, Node>, indent: nat, below: seq<Line>)
    requires forall j :: 0 <= j < |p| ==> p[j].id in objects
    requires PrintTree(inner, objects, indent + 2 * |p|) == Ok(below)
    ensures PrintTree(Nest(p, inner), objects, indent) == Ok(BranchLines(p, objects, indent) + below)
    decreases |p|
  {
    if p == [] {
      assert BranchLines(p, objects, indent) + below == below;
    } else {
      var rest := p[1..];
      var t := Nest(p, inner);
      PrintNest(rest, inner, objects, indent + 2, below);
      var first := Line(indent, '-', objects[p[0].id]);
      var sub := BranchLines(rest, objects, indent + 2) + below;
      assert PrintFrom(t, objects, indent, 1) == Ok([]);
      assert PrintFrom(t, objects, indent, 0) == Ok([first] + sub + []);
      AppendEmpty([first] + sub);
      BranchLinesCons(p, objects, indent);
      Assoc([first], BranchLines(rest, objects, indent + 2), below);
    }
  }

  /** The prefix lines of a non-empty prefix: its first object's, then the
      rest's two columns further in. */
  lemma BranchLinesCons(p: seq<Node>, objects: map<Value, Node>, indent: nat)
    requires p != [] && forall j :: 0 <= j < |p| ==> p[j].id in objects
    ensures BranchLines(p, objects, indent) == [Line(indent, '-', objects[p[0].id])] + BranchLines(p[1..], objects, indent + 2)
  {
    var whole := BranchLines(p, objects, indent);
    var cons := [Line(indent, '-', objects[p[0].id])] + BranchLines(p[1..], objects, indent + 2);
    forall j | 0 <= j < |whole| ensures whole[j] == cons[j] {
      if j > 0 { assert p[1..][j - 1] == p[j]; }
    }
    SeqExt(whole, cons);
  }

  /** Two leaves print as two `*` lines at the same indentation, in order. */
  lemma PrintTwoLeaves(x: Node, y: Node, objects: map<Value, Node>, indent: nat)
    requires x.id in objects && y.id in objects
    ensures PrintTree([(x.id, Leaf(x)), (y.id, Leaf(y))], objects, indent) ==
            Ok([Line(indent, '*', objects[x.id]), Line(indent, '*', objects[y.id])])
  {
    var d := [(x.id, Leaf(x)), (y.id, Leaf(y))];
    var lx := Line(indent, '*', objects[x.id]);
    var ly := Line(indent, '*', objects[y.id]);
    assert PrintFrom(d, objects, indent, 2) == Ok([]);
    assert [ly] + [] + [] == [ly];
    assert PrintFrom(d, objects, indent, 1) == Ok([ly]);
    assert [lx] + [] + [ly] == [lx, ly];
  }

  /** Two results below one prefix with different ids: their merged trees
      print the prefix once, as a chain of `-` lines, and then both results
      as `*` lines side by side under its last object. */
  lemma {:induction false} SiblingsPrint(mode: Mode, p: seq<Node>, x: Node, y: Node, objects: map<Value, Node>)
    requires x.id != y.id && x.id in objects && y.id in objects
    requires forall j :: 0 <= j < |p| ==> p[j].id in objects
    ensures MergeBy(mode, MakeTree(p + [x]), MakeTree(p + [y])).Ok?
    ensures PrintTree(MergeBy(mode, MakeTree(p + [x]), MakeTree(p + [y])).value, objects, 0) ==
            Ok(BranchLines(p, objects, 0) + [Line(2 * |p|, '*', objects[x.id]), Line(2 * |p|, '*', objects[y.id])])
  {
    var leaves := [(x.id, Leaf(x)), (y.id, Leaf(y))];
    var lines := [Line(2 * |p|, '*', objects[x.id]), Line(2 * |p|, '*', objects[y.id])];
    SharedPrefixBy(mode, p, x, y);
    PrintTwoLeaves(x, y, objects, 2 * |p|);
    PrintNest(p, leaves, objects, 0, lines);
  }

  /** `SharedPrefix` for a merge that starts at the top. */
  lemma SharedPrefixBy(mode: Mode, p: seq<Node>, x: Node, y: Node)
    requires x.id != y.id
    ensures MergeBy(mode, MakeTree(p + [x]), MakeTree(p + [y])) == Ok(Nest(p, [(x.id, Leaf(x)), (y.id, Leaf(y))]))
  {
    SharedPrefix(mode, p, x, y, []);
  }

  /** Two sequences that agree everywhere are equal. */
  lemma SeqExt<T>(a: seq<T>, b: seq<T>)
    requires |a| == |b| && forall j :: 0 <= j < |a| ==> a[j] == b[j]
    ensures a == b
  {
  }

  /** Appending nothing. */
  lemma AppendEmpty<T>(a: seq<T>)
    ensures a + [] == a
  {
  }

  // ---------------------------------------------------------------------------
  // print_path_tree
  // ---------------------------------------------------------------------------

  /** The path of every search result, in order; the first failure is raised. */
  function ItemPaths(store: map<Value, Node>, datasets: map<Value, Node>, results: seq<Node>)
    : (r: Result<seq<seq<Node>>, Error>)
    ensures r.Ok? ==> |r.value| == |results|
    ensures r.Ok? ==> forall j :: 0 <= j < |results| ==> GetItemPath(store, datasets, results[j]) == Ok(r.value[j])
    ensures r.Ok? ==> NonEmpty(r.value)
    ensures r.Err? ==> PathError(r.error)
    decreases |results|
  {
    if results == [] then Ok([])
    else
      match GetItemPath(store, datasets, results[0])
      case Err(e) => Err(e)
      case Ok(p) =>
        match ItemPaths(store, datasets, results[1..])
        case Err(e) => Err(e)
        case Ok(ps) =>
          ConsParts(p, ps);
          ConsParts(results[0], results[1..]);
          assert [results[0]] + results[1..] == results;
          Ok([p] + ps)
  }

  /** The first element and the rest of a sequence built by prepending. */
  lemma ConsParts<T>(x: T, rest: seq<T>)
    ensures ([x] + rest)[0] == x && ([x] + rest)[1..] == rest
    ensures forall j :: 1 <= j < |rest| + 1 ==> ([x] + rest)[j] == rest[j - 1]
  {
  }

  /** The ids of every object of every path. */
  function AllIds(paths: seq<seq<Node>>): set<Value>
    decreases |paths|
  {
    if paths == [] then {} else IdSet(paths[0]) + AllIds(paths[1..])
  }

  /** Adding the objects of one path to the id map, later objects replacing
      earlier ones with the same id. */
  function AddObjects(m: map<Value, Node>, nodes: seq<Node>): (r: map<Value, Node>)
    ensures r.Keys == m.Keys + IdSet(nodes)
    ensures (forall k :: k in m ==> m[k].id == k) ==> forall k :: k in r ==> r[k].id == k
    ensures |nodes| >= 1 ==> r[nodes[|nodes| - 1].id] == nodes[|nodes| - 1]
    decreases |nodes|
  {
    if nodes == [] then m
    else
      var r := AddObjects(m[nodes[0].id := nodes[0]], nodes[1..]);
      assert |nodes| >= 2 ==> nodes[1..][|nodes[1..]| - 1] == nodes[|nodes| - 1];
      r
  }

  /** `{o.id: o for p in paths for o in p}` from `m` on. */
  function ObjectsFrom(m: map<Value, Node>, paths: seq<seq<Node>>): (r: map<Value, Node>)
    ensures r.Keys == m.Keys + AllIds(paths)
    ensures (forall k :: k in m ==> m[k].id == k) ==> forall k :: k in r ==> r[k].id == k
    decreases |paths|
  {
    if paths == [] then m else ObjectsFrom(AddObjects(m, paths[0]), paths[1..])
  }

  /** The id map of all path objects: every id of every path, each mapped
      to an object with that id. */
  function PathObjects(paths: seq<seq<Node>>): (r: map<Value, Node>)
    ensures r.Keys == AllIds(paths)
    ensures forall k :: k in r ==> r[k].id == k
  {
    ObjectsFrom(map[], paths)
  }

  /** Every path is non-empty. */
  predicate NonEmpty(paths: seq<seq<Node>>)
  {
    forall j :: 0 <= j < |paths| ==> |paths[j]| >= 1
  }

  /** `[make_tree(path) for path in paths]`. */
  function Trees(paths: seq<seq<Node>>): (r: seq<Dict<Value, Tree>>)
    requires NonEmpty(paths)
    ensures |r| == |paths|
    ensures AllDeepKeys(r) == AllIds(paths)
    decreases |paths|
  {
    if paths == [] then []
    else
      var rest := Trees(paths[1..]);
      MakeTreeKeys(paths[0]);
      ConsParts(MakeTree(paths[0]), rest);
      [MakeTree(paths[0])] + rest
  }

  /** The listing of the found paths: their trees merged in order, printed
      with the objects looked up by id.  No paths fail in `reduce`; a merge
      fails as `MergeError` says; the printing itself never fails, since
      every key of the merged tree is an id on some path. */
  function PrintPaths(mode: Mode, paths: seq<seq<Node>>): (r: Result<seq<Line>, Error>)
    requires NonEmpty(paths)
    ensures paths == [] ==> r == Err(TypeError("reduce() of empty sequence with no initial value"))
    ensures r.Err? ==> MergeError(mode, r.error) || r.error == TypeError("reduce() of empty sequence with no initial value")
    ensures Fold(mode, Trees(paths)).Ok? <==> r.Ok?
  {
    match Fold(mode, Trees(paths))
    case Err(e) => Err(e)
    case Ok(merged) => PrintTree(merged, PathObjects(paths), 0)
  }

  /** `print_path_tree(bf, results)`: the path of every result, then their
      listing.  A failing path lookup is raised as it is; no results fail in
      `reduce`. */
  function PrintPathTree(mode: Mode, store: map<Value, Node>, datasets: map<Value, Node>, results: seq<Node>)
    : (r: Result<seq<Line>, Error>)
    ensures ItemPaths(store, datasets, results).Err? ==> r == Err(ItemPaths(store, datasets, results).error)
    ensures results == [] ==> r == Err(TypeError("reduce() of empty sequence with no initial value"))
  {
    match ItemPaths(store, datasets, results)
    case Err(e) => Err(e)
    case Ok(paths) => PrintPaths(mode, paths)
  }

  /** What `print_path_tree` can raise once every path is found: `TypeError`
      for no results, or a merge error; never `KeyError`. */
  lemma PrintPathTreeErrors(mode: Mode, store: map<Value, Node>, datasets: map<Value, Node>, results: seq<Node>)
    ensures var r := PrintPathTree(mode, store, datasets, results);
            ItemPaths(store, datasets, results).Ok? && r.Err? ==>
              MergeError(mode, r.error) || r.error == TypeError("reduce() of empty sequence with no initial value")
  {
  }

  /** The listing as written and the intended one print the same lines
      whenever either prints at all. */
  lemma PrintPathTreeModesAgree(store: map<Value, Node>, datasets: map<Value, Node>, results: seq<Node>)
    ensures PrintPathTree(AsWritten, store, datasets, results).Ok? == PrintPathTree(Intended, store, datasets, results).Ok?
    ensures PrintPathTree(AsWritten, store, datasets, results).Ok? ==>
              PrintPathTree(AsWritten, store, datasets, results) == PrintPathTree(Intended, store, datasets, results)
  {
    var ps := ItemPaths(store, datasets, results);
    if ps.Ok? {
      PrintPathsModesAgree(ps.value);
    }
  }

  /** The listing of found paths in the two behaviours, as in `PrintPathTreeModesAgree`. */
  lemma PrintPathsModesAgree(paths: seq<seq<Node>>)
    requires NonEmpty(paths)
    ensures PrintPaths(AsWritten, paths).Ok? == PrintPaths(Intended, paths).Ok?
    ensures PrintPaths(AsWritten, paths).Ok? ==> PrintPaths(AsWritten, paths) == PrintPaths(Intended, paths)
  {
    var trees := Trees(paths);
    if trees != [] {
      FoldModesAgree(trees[0], trees[1..]);
    }
  }

  /** Two search results whose paths are found list those two paths. */
  lemma TwoResults(store: map<Value, Node>, datasets: map<Value, Node>, a: Node, b: Node, pa: seq<Node>, pb: seq<Node>)
    requires GetItemPath(store, datasets, a) == Ok(pa) && GetItemPath(store, datasets, b) == Ok(pb)
    ensures ItemPaths(store, datasets, [a, b]) == Ok([pa, pb])
  {
    OneResult(store, datasets, b, pb);
    assert [a, b][1..] == [b];
    assert [pa] + [pb] == [pa, pb];
  }

  /** One search result whose path is found lists that path. */
  lemma OneResult(store: map<Value, Node>, datasets: map<Value, Node>, b: Node, pb: seq<Node>)
    requires GetItemPath(store, datasets, b) == Ok(pb)
    ensures ItemPaths(store, datasets, [b]) == Ok([pb])
  {
    assert [b][1..] == [];
    assert [pb] + [] == [pb];
  }

  /** Searching finds a collection `c` at the top of a dataset and a file
      `f` inside it: as written `print_path_tree` fails with the
      `AttributeError` of `c`'s `__eq__`; the intended listing reports the
      conflict at the dataset's and the collection's ids. */
  lemma AncestorListing(store: map<Value, Node>, datasets: map<Value, Node>, c: Node, f: Node, ds: Value, pid: Value)
    requires ds in datasets && !pid.Null? && pid in store && store[pid] == c
    requires Get(c.attrs, "parent") == Some(Null) && Get(c.attrs, "dataset") == Some(ds)
    requires Get(f.attrs, "parent") == Some(pid)
    requires Exists(c)
    ensures PrintPathTree(AsWritten, store, datasets, [c, f]) == Err(AttributeError("exists"))
    ensures PrintPathTree(Intended, store, datasets, [c, f]) == Err(Conflict([datasets[ds].id, c.id]))
  {
    var d := datasets[ds];
    ShortPaths(store, datasets, c, pid, ds);
    ShortPaths(store, datasets, f, pid, ds);
    var paths := [[d, c], [d, c, f]];
    TwoResults(store, datasets, c, f, [d, c], [d, c, f]);
    var t1 := MakeTree([d, c]);
    var t2 := MakeTree([d, c, f]);
    assert Trees(paths) == [t1, t2] by {
      assert paths[1..] == [[d, c, f]] && paths[1..][1..] == [];
    }
    AncestorResult(d, c, f);
    assert [t1, t2][1..] == [t2] && [t2][1..] == [];
  }

  /** A single search result prints as its own path, one object per line. */
  lemma SingleResult(mode: Mode, store: map<Value, Node>, datasets: map<Value, Node>, item: Node)
    requires GetItemPath(store, datasets, item).Ok?
    ensures var path := GetItemPath(store, datasets, item).value;
            forall j :: 0 <= j < |path| ==> path[j].id in PathObjects([path])
    ensures var path := GetItemPath(store, datasets, item).value;
            PrintPathTree(mode, store, datasets, [item]) == Ok(ChainLines(path, PathObjects([path]), 0))
  {
    var path := GetItemPath(store, datasets, item).value;
    OneResult(store, datasets, item, path);
    assert AllIds([path]) == IdSet(path) by {
      assert [path][1..] == [];
    }
    var t := MakeTree(path);
    assert Trees([path]) == [t] by {
      assert [path][1..] == [];
      ConsParts(t, []);
    }
    PrintChain(path, PathObjects([path]), 0);
  }
}

/** Entity instances: identity, existence, equality, construction from
    keyword arguments per variant, `delete`, `_update_self` and `as_dict`. */
module Nodes {
  import opened Outcomes
  import opened PyDict
  import opened Values
  import opened Errors
  import opened Variants
  import opened Properties

  /** An entity instance.  `handle` stands for Python object identity (`is`);
      `id` is `None` until the platform assigns one; `attrs` holds the other
      instance attributes by name; `props` is the property store; `items` is
      the child cache of datasets and collections (`None` while unloaded, and
      always `None` for the other variants). */
  datatype Node = Node(
    handle: nat,
    kind: Kind,
    id: Value,
    attrs: Dict<string, Value>,
    props: Store,
    items: Option<seq<Node>>)

  /** `exists`: the instance has a platform id. */
  predicate Exists(n: Node)
  {
    !n.id.Null?
  }

  /** `__eq__`: two existing instances are equal when their ids are; otherwise
      only an instance is equal to itself. */
  predicate Eq(a: Node, b: Node)
  {
    if Exists(a) && Exists(b) then a.id == b.id else a.handle == b.handle
  }

  /** Equality is reflexive and symmetric, and transitive as long as one
      handle always carries one id (one Python object has one state). */
  lemma EqLaws(a: Node, b: Node, c: Node)
    ensures Eq(a, a)
    ensures Eq(a, b) == Eq(b, a)
    ensures ((a.handle == b.handle ==> a.id == b.id) && (b.handle == c.handle ==> b.id == c.id) &&
             (a.handle == c.handle ==> a.id == c.id) && Eq(a, b) && Eq(b, c)) ==> Eq(a, c)
  {
  }

  /** `_check_exists`: the operations that need a platform identity fail without one. */
  function CheckExists(n: Node): (r: Result<Node, Error>)
    ensures r.Ok? <==> Exists(n)
    ensures r.Ok? ==> r.value == n
    ensures r.Err? ==> r.error == NotCreated
  {
    if Exists(n) then Ok(n) else Err(NotCreated)
  }

  /** `n.name` for an instance attribute. */
  function Attr(n: Node, name: string): (r: Result<Value, Error>)
    ensures r.Ok? <==> name in Keys(n.attrs)
    ensures r.Ok? ==> Get(n.attrs, name) == Some(r.value)
  {
    match Get(n.attrs, name)
    case None => Err(AttributeError(name))
    case Some(v) => Ok(v)
  }

  /** `delete`: after the remote delete the instance has no id any more. */
  function Delete(n: Node, remove: Node -> Option<Error>): (r: Result<Node, Error>)
    ensures r.Ok? <==> Exists(n) && remove(n).None?
    ensures !Exists(n) ==> r == Err(NotCreated)
    ensures r.Ok? ==> !Exists(r.value)
    ensures r.Ok? ==> r.value.handle == n.handle && r.value.attrs == n.attrs && r.value.props == n.props
  {
    var _ :- CheckExists(n);
    match remove(n)
    case Some(e) => Err(e)
    case None => Ok(n.(id := Null))
  }

  /** A deleted instance is equal only to itself. */
  lemma DeletedComparesByIdentity(n: Node, remove: Node -> Option<Error>, m: Node)
    requires Delete(n, remove).Ok?
    ensures Eq(Delete(n, remove).value, m) <==> n.handle == m.handle
  {
  }

  /** `item.__dict__.update(response.__dict__)`: the id, the property store, every
      attribute of the response and (for containers) the child cache are taken over;
      the instance keeps its identity and its class. */
  function Absorb(item: Node, response: Node): (r: Node)
    ensures r.handle == item.handle && r.kind == item.kind
    ensures r.id == response.id && r.props == response.props
    ensures Keys(r.attrs) == Keys(item.attrs) + Keys(response.attrs)
    ensures forall k :: k !in Keys(response.attrs) ==> Get(r.attrs, k) == Get(item.attrs, k)
    ensures r.items == if IsContainer(response.kind) then response.items else item.items
  {
    Node(item.handle, item.kind, response.id, Update(item.attrs, response.attrs), response.props,
         if IsContainer(response.kind) then response.items else item.items)
  }

  /** `_update_self`: only a response with the same id may be absorbed. */
  function UpdateSelf(n: Node, updated: Node): (r: Result<Node, Error>)
    ensures r.Err? <==> n.id != updated.id
    ensures r.Err? ==> r.error == CannotUpdate
    ensures r.Ok? ==> r.value.handle == n.handle && r.value.id == n.id
    ensures r.Ok? ==> forall k :: k in Keys(updated.attrs) && Valid(updated.attrs) ==> Get(r.value.attrs, k) == Get(updated.attrs, k)
  {
    if n.id != updated.id then Err(CannotUpdate)
    else
      assert forall k :: k in Keys(updated.attrs) && Valid(updated.attrs) ==>
        Get(Update(n.attrs, updated.attrs), k) == Get(updated.attrs, k) by {
        forall k | k in Keys(updated.attrs) && Valid(updated.attrs) ensures Get(Update(n.attrs, updated.attrs), k) == Get(updated.attrs, k) {
          UpdateGet(n.attrs, updated.attrs, k);
        }
      }
      Ok(Absorb(n, updated))
  }

  /** Absorbing an instance's own state changes nothing. */
  lemma UpdateSelfIdempotent(n: Node)
    requires Valid(n.attrs)
    requires IsContainer(n.kind) || n.items.None?
    ensures UpdateSelf(n, n) == Ok(n)
  {
    UpdateOwn(n.attrs);
  }

  /** `d.update(d)` leaves a dictionary unchanged. */
  lemma UpdateOwn<K(!new), V>(d: Dict<K, V>)
    requires Valid(d)
    ensures Update(d, d) == d
  {
    forall i | 0 <= i < |d| ensures Get(d, d[i].0) == Some(d[i].1) {
      GetEntry(d, i);
    }
    UpdateAgreeing(d, d);
  }

  /** Updating with entries a dictionary already holds leaves it unchanged. */
  lemma {:induction false} UpdateAgreeing<K(!new), V>(d: Dict<K, V>, e: Dict<K, V>)
    requires forall i :: 0 <= i < |e| ==> Get(d, e[i].0) == Some(e[i].1)
    ensures Update(d, e) == d
    decreases |e|
  {
    if e != [] {
      PutSame(d, e[0].0, e[0].1);
      forall i | 0 <= i < |e[1..]| ensures Get(d, e[1..][i].0) == Some(e[1..][i].1) {
        assert e[1..][i] == e[i + 1];
      }
      UpdateAgreeing(d, e[1..]);
    }
  }

  // ---------------------------------------------------------------------------
  // Construction from keyword arguments
  // ---------------------------------------------------------------------------

  /** A required argument of `__init__`. */
  function Arg(kw: Dict<string, Value>, name: string): (r: Result<Value, Error>)
    ensures r.Ok? <==> name in Keys(kw)
    ensures r.Ok? ==> Get(kw, name) == Some(r.value)
    ensures r.Err? ==> r.error == TypeError("missing required argument")
  {
    match Get(kw, name)
    case None => Err(TypeError("missing required argument"))
    case Some(v) => Ok(v)
  }

  /** An optional argument (or `kwargs.pop(name, None)`). */
  function Opt(kw: Dict<string, Value>, name: string): Value
  {
    Get(kw, name).GetOr(Null)
  }

  /** The attributes `BaseDataNode.__init__(name, type, **kw)` sets, after the
      ones its subclass set first (`pre`).  `state`, `createdAt` and
      `updatedAt` are consumed from the remaining keyword arguments, and
      every other leftover argument is dropped. */
  function DataNodeAttrs(pre: Dict<string, Value>, name: Value, typ: Value, kw: Dict<string, Value>): Dict<string, Value>
  {
    pre + CoreAttrs(name, typ, kw)
  }

  function CoreAttrs(name: Value, typ: Value, kw: Dict<string, Value>): Dict<string, Value>
  {
    [("name", name), ("parent", Opt(kw, "parent")), ("type", typ), ("dataset", Opt(kw, "dataset_id")),
     ("owner_id", Opt(kw, "owner_id")), ("provenance_id", Opt(kw, "provenance_id")), ("state", Opt(kw, "state")),
     ("created_at", Opt(kw, "createdAt")), ("updated_at", Opt(kw, "updatedAt"))]
  }

  lemma CoreName(name: Value, typ: Value, kw: Dict<string, Value>)
    ensures Get(CoreAttrs(name, typ, kw), "name") == Some(name)
  {
  }

  lemma CoreParent(name: Value, typ: Value, kw: Dict<string, Value>)
    ensures Get(CoreAttrs(name, typ, kw), "parent") == Some(Opt(kw, "parent"))
  {
    var d := CoreAttrs(name, typ, kw);
    assert d[0].0 == "name" && "name" != "parent";
    GetAt(d, "parent", 1);
  }

  lemma CoreDataset(name: Value, typ: Value, kw: Dict<string, Value>)
    ensures Get(CoreAttrs(name, typ, kw), "dataset") == Some(Opt(kw, "dataset_id"))
  {
    var d := CoreAttrs(name, typ, kw);
    assert d[0].0 == "name" && d[1].0 == "parent" && d[2].0 == "type";
    assert "name" != "dataset" && "parent" != "dataset" && "type" != "dataset";
    GetAt(d, "dataset", 3);
  }

  /** The name, parent and dataset attributes a data node is built with. */
  lemma DataNodeAttrsGet(pre: Dict<string, Value>, name: Value, typ: Value, kw: Dict<string, Value>)
    requires "name" !in Keys(pre) && "parent" !in Keys(pre) && "dataset" !in Keys(pre)
    ensures Get(DataNodeAttrs(pre, name, typ, kw), "name") == Some(name)
    ensures Get(DataNodeAttrs(pre, name, typ, kw), "parent") == Some(Opt(kw, "parent"))
    ensures Get(DataNodeAttrs(pre, name, typ, kw), "dataset") == Some(Opt(kw, "dataset_id"))
  {
    CoreName(name, typ, kw);
    CoreParent(name, typ, kw);
    CoreDataset(name, typ, kw);
    GetSkip(pre, CoreAttrs(name, typ, kw), "name");
    GetSkip(pre, CoreAttrs(name, typ, kw), "parent");
    GetSkip(pre, CoreAttrs(name, typ, kw), "dataset");
  }

  /** `BaseDataNode.__init__`: a `type` still among the keyword arguments
      collides with the one the subclass passes, and a parent must be a
      string id or `None`. */
  function DataNodeInit(kind: Kind, handle: nat, pre: Dict<string, Value>, name: Value, typ: Value,
                        kw: Dict<string, Value>): (r: Result<Node, Error>)
    ensures r.Ok? <==> "type" !in Keys(kw) && (Opt(kw, "parent").Str? || Opt(kw, "parent").Null?)
    ensures r.Ok? ==> r.value == Node(handle, kind, Opt(kw, "id"), DataNodeAttrs(pre, name, typ, kw), [], None)
    ensures r.Err? ==> InitError(r.error)
  {
    if "type" in Keys(kw) then Err(TypeError("multiple values for argument 'type'"))
    else
      var parent := Opt(kw, "parent");
      if !(parent.Str? || parent.Null?) then Err(InvalidParent(parent))
      else Ok(Node(handle, kind, Opt(kw, "id"), DataNodeAttrs(pre, name, typ, kw), [], None))
  }

  /** `storage` is popped by the container and package constructors before
      the base constructor runs: the instance keeps it as its own first
      attribute, and every other attribute is the base constructor's, which
      never sees it. */
  function WithStorage(kind: Kind, handle: nat, name: Value, typ: Value, kw: Dict<string, Value>): (r: Result<Node, Error>)
    ensures r.Ok? <==> "type" !in Keys(kw) && (Opt(kw, "parent").Str? || Opt(kw, "parent").Null?)
    ensures "type" in Keys(kw) ==> r == Err(TypeError("multiple values for argument 'type'"))
    ensures "type" !in Keys(kw) && r.Err? ==> r == Err(InvalidParent(Opt(kw, "parent")))
    ensures r.Ok? ==> Built(r.value, kind, handle, name, kw) && Linked(r.value, kw)
    ensures r.Ok? ==> Get(r.value.attrs, "storage") == Some(Opt(kw, "storage"))
    ensures r.Ok? ==> forall k :: k != "storage" ==> Get(r.value.attrs, k) == Get(CoreAttrs(name, typ, kw), k)
  {
    var pre := [("storage", Opt(kw, "storage"))];
    var kw' := Pop(kw, "storage");
    PackageKey("type");
    PackageKey("parent");
    PackageKey("id");
    CoreIgnoresStorage(name, typ, kw);
    assert Keys(pre) == {"storage"};
    DataNodeAttrsGet(pre, name, typ, kw');
    forall k | k != "storage" ensures Get(pre + CoreAttrs(name, typ, kw'), k) == Get(CoreAttrs(name, typ, kw), k) {
      GetSkip(pre, CoreAttrs(name, typ, kw'), k);
    }
    DataNodeInit(kind, handle, pre, name, typ, kw')
  }

  /** The base constructor's attributes do not depend on a `storage` keyword. */
  lemma CoreIgnoresStorage(name: Value, typ: Value, kw: Dict<string, Value>)
    ensures CoreAttrs(name, typ, Pop(kw, "storage")) == CoreAttrs(name, typ, kw)
  {
    var kw' := Pop(kw, "storage");
    assert Opt(kw', "parent") == Opt(kw, "parent") && Opt(kw', "dataset_id") == Opt(kw, "dataset_id");
    assert Opt(kw', "owner_id") == Opt(kw, "owner_id") && Opt(kw', "provenance_id") == Opt(kw, "provenance_id");
    assert Opt(kw', "state") == Opt(kw, "state");
    assert Opt(kw', "createdAt") == Opt(kw, "createdAt") && Opt(kw', "updatedAt") == Opt(kw, "updatedAt");
  }

  /** The errors a constructor raises: a `TypeError` for a colliding or
      missing argument, or a parent that is neither an id nor `None`. */
  predicate InitError(e: Error)
  {
    e.TypeError? || e.InvalidParent?
  }

  /** What every successful constructor promises about the instance it builds. */
  predicate Built(n: Node, kind: Kind, handle: nat, name: Value, kw: Dict<string, Value>)
  {
    && n.kind == kind && n.handle == handle && n.id == Opt(kw, "id")
    && n.props == [] && n.items == None
    && Get(n.attrs, "name") == Some(name)
  }

  /** The attributes a non-root data node links itself with. */
  predicate Linked(n: Node, kw: Dict<string, Value>)
  {
    && Get(n.attrs, "parent") == Some(Opt(kw, "parent"))
    && Get(n.attrs, "dataset") == Some(Opt(kw, "dataset_id"))
  }

  /** The constructors of the containers and packages: the base constructor
      with the variant's fixed (or given) type, then the variant's own
      local-only attributes. */
  function PackageInit(kind: Kind, handle: nat, name: Value, typ: Value, kw: Dict<string, Value>): (r: Result<Node, Error>)
    requires kind != FileKind
    ensures r.Ok? <==> "type" !in Keys(kw) && (Opt(kw, "parent").Str? || Opt(kw, "parent").Null?)
    ensures r.Ok? ==> Built(r.value, kind, handle, name, kw) && Linked(r.value, kw)
    ensures r.Ok? ==> Get(r.value.attrs, "type") == Some(typ) || kind == DatasetKind
    ensures r.Err? ==> InitError(r.error)
  {
    match WithStorage(kind, handle, name, typ, kw)
    case Err(e) => Err(e)
    case Ok(n) =>
      PackageKey("name");
      PackageKey("parent");
      PackageKey("dataset");
      PackageKey("type");
      CoreType(name, typ, kw);
      Ok(n.(attrs := SessionAttrs(kind, n.attrs)))
  }

  /** The keys the container and package constructors add differ from the
      ones the base constructor sets and reads. */
  lemma PackageKey(k: string)
    requires k in {"name", "parent", "dataset", "type", "id", "dataset_id"}
    ensures k != "storage" && k != "session" && k != "schema"
  {
  }

  /** The local-only attributes of packages with a session (and a schema for tables). */
  function SessionAttrs(kind: Kind, attrs: Dict<string, Value>): (r: Dict<string, Value>)
    ensures forall k :: k != "session" && k != "schema" ==> Get(r, k) == Get(attrs, k)
    ensures kind == DataPackageKind || kind == TimeSeriesKind || kind == TabularKind ==> Get(r, "session") == Some(Null)
  {
    if kind == DataPackageKind || kind == TimeSeriesKind then Put(attrs, "session", Null)
    else if kind == TabularKind then
      assert "session" != "schema";
      Put(Put(attrs, "session", Null), "schema", Null)
    else attrs
  }

  lemma CoreType(name: Value, typ: Value, kw: Dict<string, Value>)
    ensures Get(CoreAttrs(name, typ, kw), "type") == Some(typ)
  {
    var d := CoreAttrs(name, typ, kw);
    assert d[0].0 == "name" && d[1].0 == "parent";
    assert "name" != "type" && "parent" != "type";
    GetAt(d, "type", 2);
  }

  /** `Dataset.__init__`: a container whose description defaults to the empty
      string and which then deletes the attributes that do not apply to a
      root (`parent`, `type`, `state`, `dataset`). */
  function DatasetInit(handle: nat, name: Value, kw: Dict<string, Value>): (r: Result<Node, Error>)
    ensures r.Ok? <==> "type" !in Keys(kw) && (Opt(kw, "parent").Str? || Opt(kw, "parent").Null?)
    ensures r.Ok? ==> Built(r.value, DatasetKind, handle, name, kw)
    ensures r.Ok? ==>
      && "parent" !in Keys(r.value.attrs) && "type" !in Keys(r.value.attrs)
      && "state" !in Keys(r.value.attrs) && "dataset" !in Keys(r.value.attrs)
      && Get(r.value.attrs, "description") == Some(if Truthy(Opt(kw, "description")) then Opt(kw, "description") else Str(""))
    ensures r.Err? ==> InitError(r.error)
  {
    var description := Opt(kw, "description");
    var rest := DatasetRest(kw);
    var n :- PackageInit(DatasetKind, handle, name, Str("DataSet"), rest);
    Ok(n.(attrs := DatasetAttrs(n.attrs, if Truthy(description) then description else Str(""))))
  }

  /** The keyword arguments the container constructor receives from `Dataset.__init__`. */
  function DatasetRest(kw: Dict<string, Value>): (r: Dict<string, Value>)
    ensures "type" in Keys(r) <==> "type" in Keys(kw)
    ensures Opt(r, "parent") == Opt(kw, "parent") && Opt(r, "id") == Opt(kw, "id")
  {
    DatasetKeys();
    PopAll(kw, DatasetOwn)
  }

  /** The attributes of a dataset: the description set, then the ones that
      do not apply to a root removed. */
  function DatasetAttrs(attrs: Dict<string, Value>, description: Value): (r: Dict<string, Value>)
    ensures "parent" !in Keys(r) && "type" !in Keys(r) && "state" !in Keys(r) && "dataset" !in Keys(r)
    ensures Get(r, "description") == Some(description) && Get(r, "name") == Get(attrs, "name")
  {
    DatasetKeys();
    PopAll(Put(attrs, "description", description), DatasetDropped)
  }

  /** The arguments `Dataset.__init__` takes out before the container constructor runs. */
  const DatasetOwn: seq<string> := ["description", "package_type"]

  /** The attributes `Dataset.__init__` removes again; the three `set_` names
      are methods, never instance attributes, so removing them changes nothing. */
  const DatasetDropped: seq<string> :=
    ["parent", "type", "set_ready", "set_unavailable", "set_error", "state", "dataset"]

  lemma DatasetKeys()
    ensures "parent" !in DatasetOwn && "type" !in DatasetOwn && "id" !in DatasetOwn
    ensures "parent" in DatasetDropped && "type" in DatasetDropped && "state" in DatasetDropped
    ensures "dataset" in DatasetDropped
    ensures "name" !in DatasetDropped && "description" !in DatasetDropped && "description" != "name"
  {
  }

  /** The arguments of `File.__init__` that are its own. */
  const FileOwn: seq<string> := ["s3_key", "s3_bucket", "file_type", "size", "pkg_id"]

  lemma FileKeys()
    ensures "parent" !in FileOwn && "id" !in FileOwn && "dataset_id" !in FileOwn
  {
  }

  /** The keyword arguments `File.__init__` passes on to the base constructor:
      its own five arguments are taken out. */
  function FileRest(kw: Dict<string, Value>): (r: Dict<string, Value>)
    ensures Get(r, "parent") == Get(kw, "parent") && Get(r, "id") == Get(kw, "id")
    ensures Get(r, "dataset_id") == Get(kw, "dataset_id")
  {
    FileKeys();
    PopAll(kw, FileOwn)
  }

  /** The attributes `File.__init__` sets after the base constructor, in order. */
  function FileAttrs(attrs: Dict<string, Value>, s3Key: Value, s3Bucket: Value, size: Value, pkgId: Value)
    : (r: Dict<string, Value>)
    ensures Get(r, "name") == Get(attrs, "name") && Get(r, "type") == Get(attrs, "type")
    ensures Get(r, "parent") == Get(attrs, "parent") && Get(r, "dataset") == Get(attrs, "dataset")
    ensures Get(r, "s3_key") == Some(s3Key)
  {
    var e := [("s3_key", s3Key), ("s3_bucket", s3Bucket), ("size", size), ("pkg_id", pkgId), ("local_path", Null)];
    FileAttrKeys(e, "name");
    UpdateOther(attrs, e, "name");
    FileAttrKeys(e, "type");
    UpdateOther(attrs, e, "type");
    FileAttrKeys(e, "parent");
    UpdateOther(attrs, e, "parent");
    FileAttrKeys(e, "dataset");
    UpdateOther(attrs, e, "dataset");
    FileAttrFirst(attrs, e);
    Update(attrs, e)
  }

  /** The attributes `File.__init__` sets differ from those of the base constructor. */
  lemma FileAttrKeys(e: Dict<string, Value>, k: string)
    requires |e| == 5 && e[0].0 == "s3_key" && e[1].0 == "s3_bucket" && e[2].0 == "size"
    requires e[3].0 == "pkg_id" && e[4].0 == "local_path"
    requires k in {"name", "type", "parent", "dataset"}
    ensures forall i :: 0 <= i < |e| ==> e[i].0 != k
  {
  }

  /** `s3_key` is set once, first. */
  lemma FileAttrFirst(attrs: Dict<string, Value>, e: Dict<string, Value>)
    requires |e| == 5 && e[0].0 == "s3_key" && e[1].0 == "s3_bucket" && e[2].0 == "size"
    requires e[3].0 == "pkg_id" && e[4].0 == "local_path"
    ensures Get(Update(attrs, e), "s3_key") == Some(e[0].1)
  {
    assert Valid(e);
    UpdateGet(attrs, e, "s3_key");
  }

  /** The name, parent, dataset and type a file's base constructor sets. */
  lemma FileBase(name: Value, fileType: Value, kw: Dict<string, Value>)
    ensures Get(DataNodeAttrs([], name, fileType, kw), "name") == Some(name)
    ensures Get(DataNodeAttrs([], name, fileType, kw), "parent") == Some(Opt(kw, "parent"))
    ensures Get(DataNodeAttrs([], name, fileType, kw), "dataset") == Some(Opt(kw, "dataset_id"))
    ensures Get(DataNodeAttrs([], name, fileType, kw), "type") == Some(fileType)
  {
    DataNodeAttrsGet([], name, fileType, kw);
    CoreType(name, fileType, kw);
    assert [] + CoreAttrs(name, fileType, kw) == CoreAttrs(name, fileType, kw);
  }

  /** `File.__init__`: five required arguments; the file type is the node's type. */
  function FileInit(handle: nat, name: Value, kw: Dict<string, Value>): (r: Result<Node, Error>)
    ensures r.Ok? ==> "s3_key" in Keys(kw) && "s3_bucket" in Keys(kw) && "file_type" in Keys(kw) && "size" in Keys(kw)
    ensures r.Ok? ==> Built(r.value, FileKind, handle, name, kw) && Linked(r.value, kw)
    ensures r.Ok? ==> Get(r.value.attrs, "type") == Get(kw, "file_type") && Get(r.value.attrs, "s3_key") == Get(kw, "s3_key")
    ensures r.Err? ==> InitError(r.error)
  {
    if "s3_key" !in Keys(kw) || "s3_bucket" !in Keys(kw) || "file_type" !in Keys(kw) || "size" !in Keys(kw) then
      Err(TypeError("missing required argument"))
    else
      var rest := FileRest(kw);
      match DataNodeInit(FileKind, handle, [], name, Get(kw, "file_type").value, rest)
      case Err(e) => Err(e)
      case Ok(n) =>
        FileBase(name, Get(kw, "file_type").value, rest);
        var attrs := FileAttrs(n.attrs, Get(kw, "s3_key").value, Get(kw, "s3_bucket").value, Get(kw, "size").value,
                               Opt(kw, "pkg_id"));
        Ok(n.(attrs := attrs))
  }

  /** `cls.__init__(item, **kwargs)` for each variant.  A keyword `self`
      collides with the bound instance, a missing `name` (or the generic
      package's `package_type`) is a missing argument, and a `package_type`
      the variant fixes itself is discarded. */
  function Init(kind: Kind, kw: Dict<string, Value>, handle: nat): (r: Result<Node, Error>)
    ensures "self" in Keys(kw) ==> r.Err?
    ensures "name" !in Keys(kw) ==> r.Err?
    ensures kind == DataPackageKind && "package_type" !in Keys(kw) ==> r.Err?
    ensures r.Ok? ==> Built(r.value, kind, handle, Get(kw, "name").value, kw)
    ensures r.Ok? && kind != DatasetKind ==> Linked(r.value, kw)
    ensures "self" !in Keys(kw) && "name" !in Keys(kw) ==> r == Err(TypeError("missing required argument"))
    ensures r.Err? ==> InitError(r.error)
  {
    if "self" in Keys(kw) then Err(TypeError("multiple values for argument 'self'"))
    else
      var name :- Arg(kw, "name");
      var rest := Pop(kw, "name");
      assert Opt(rest, "parent") == Opt(kw, "parent") && Opt(rest, "id") == Opt(kw, "id");
      assert Opt(rest, "dataset_id") == Opt(kw, "dataset_id");
      assert "package_type" in Keys(rest) <==> "package_type" in Keys(kw);
      Variant(kind, handle, name, rest)
  }

  /** The constructor of each variant, on the keyword arguments left once
      `name` is taken out. */
  function Variant(kind: Kind, handle: nat, name: Value, rest: Dict<string, Value>): (r: Result<Node, Error>)
    ensures kind == DataPackageKind && "package_type" !in Keys(rest) ==> r.Err?
    ensures r.Ok? ==> Built(r.value, kind, handle, name, rest)
    ensures r.Ok? && kind != DatasetKind ==> Linked(r.value, rest)
    ensures r.Err? ==> InitError(r.error)
  {
    var fixed := Pop(rest, "package_type");
    assert Opt(fixed, "parent") == Opt(rest, "parent") && Opt(fixed, "id") == Opt(rest, "id");
    assert Opt(fixed, "dataset_id") == Opt(rest, "dataset_id");
    match kind
    case DatasetKind => DatasetInit(handle, name, rest)
    case CollectionKind => PackageInit(kind, handle, name, Str("Collection"), fixed)
    case DataPackageKind =>
      var packageType :- Arg(rest, "package_type");
      PackageInit(kind, handle, name, packageType, fixed)
    case TimeSeriesKind => PackageInit(kind, handle, name, Str("TimeSeries"), fixed)
    case TabularKind => PackageInit(kind, handle, name, Str("Tabular"), fixed)
    case FileKind => FileInit(handle, name, rest)
  }

  /** A dataset built from keyword arguments has no parent, type, state or
      dataset attribute, and its description is the given one or else `''`. */
  lemma InitDataset(kw: Dict<string, Value>, handle: nat)
    requires Init(DatasetKind, kw, handle).Ok?
    ensures var a := Init(DatasetKind, kw, handle).value.attrs;
      && "parent" !in Keys(a) && "type" !in Keys(a) && "state" !in Keys(a) && "dataset" !in Keys(a)
      && Get(a, "description") == Some(if Truthy(Opt(kw, "description")) then Opt(kw, "description") else Str(""))
  {
    InitKey("description");
  }

  /** The type each package variant is built with: the given `package_type`
      for the generic package, the variant's fixed name otherwise. */
  lemma InitType(kind: Kind, kw: Dict<string, Value>, handle: nat)
    requires Init(kind, kw, handle).Ok?
    ensures var a := Init(kind, kw, handle).value.attrs;
      && (kind == DataPackageKind ==> Get(a, "type") == Get(kw, "package_type"))
      && (kind == CollectionKind ==> Get(a, "type") == Some(Str("Collection")))
      && (kind == TimeSeriesKind ==> Get(a, "type") == Some(Str("TimeSeries")))
      && (kind == TabularKind ==> Get(a, "type") == Some(Str("Tabular")))
  {
  }

  /** The arguments the constructors read differ from the ones `Init` takes out. */
  lemma InitKey(k: string)
    requires k in {"parent", "id", "dataset_id", "description", "type"}
    ensures k != "name" && k != "package_type"
  {
  }

  // ---------------------------------------------------------------------------
  // Serialisation
  // ---------------------------------------------------------------------------

  /** `[m.as_dict() for m in self.properties]`. */
  function PropertyRecords(s: Store, conv: Conversions): (r: seq<Value>)
    ensures |r| == |AllProperties(s)|
    ensures forall i :: 0 <= i < |r| ==> r[i] == PropertyAsDict(AllProperties(s)[i], conv)
  {
    var ps := AllProperties(s);
    seq(|ps|, i requires 0 <= i < |ps| => PropertyAsDict(ps[i], conv))
  }

  /** The attribute is set and is not `None`. */
  predicate Present(n: Node, k: string)
  {
    Get(n.attrs, k).Some? && !Get(n.attrs, k).value.Null?
  }

  /** An optional attribute written under `wireKey` only when it is set and
      not `None` (assigning a key the record does not hold yet appends it). */
  function Entry(n: Node, k: string, wireKey: string): (r: Dict<string, Value>)
    ensures Keys(r) == if Present(n, k) then {wireKey} else {}
    ensures Get(r, wireKey) == if Present(n, k) then Get(n.attrs, k) else None
  {
    if Present(n, k) then [(wireKey, Get(n.attrs, k).value)] else []
  }

  /** The record holds the attribute under `wireKey` exactly when it is set and not `None`. */
  predicate Optional(d: Dict<string, Value>, n: Node, k: string, wireKey: string)
  {
    && (wireKey in Keys(d) <==> Present(n, k))
    && (Present(n, k) ==> Get(d, wireKey) == Get(n.attrs, k))
  }

  /** The key the type is written under: `fileType` for files, `packageType` otherwise. */
  function TypeKey(kind: Kind): string
  {
    if kind == FileKind then "fileType" else "packageType"
  }

  function BaseRecord(name: Value, tk: string, typ: Value, records: seq<Value>): (r: Dict<string, Value>)
    requires tk in {"fileType", "packageType"}
    ensures Keys(r) == {"name", tk, "properties"}
    ensures Get(r, "name") == Some(name) && Get(r, tk) == Some(typ) && Get(r, "properties") == Some(List(records))
  {
    var d := [("name", name), (tk, typ), ("properties", List(records))];
    KeysCons(d[0], d[1..]);
    KeysCons(d[1], d[2..]);
    KeysCons(d[2], []);
    assert d[2..] == [d[2]] + [];
    GetAt(d, "name", 0);
    GetAt(d, tk, 1);
    GetAt(d, "properties", 2);
    d
  }

  /** The optional attributes, each under its wire key when set and not `None`, in order. */
  function Entries(n: Node, ks: seq<(string, string)>): (r: Dict<string, Value>)
    requires forall i, j :: 0 <= i < j < |ks| ==> ks[i].1 != ks[j].1
    ensures Keys(r) <= WireKeys(ks)
    ensures forall j :: 0 <= j < |ks| ==> Optional(r, n, ks[j].0, ks[j].1)
  {
    if ks == [] then []
    else
      var head := Entry(n, ks[0].0, ks[0].1);
      var rest := Entries(n, ks[1..]);
      KeysAppend(head, rest);
      forall j | 0 <= j < |ks[1..]| ensures ks[1..][j].1 != ks[0].1 {
        assert ks[1..][j] == ks[j + 1];
      }
      NotInWireKeys(ks[1..], ks[0].1);
      forall j | 0 <= j < |ks| ensures Optional(head + rest, n, ks[j].0, ks[j].1) {
        GetSplit(head, rest, ks[j].1);
        if j > 0 {
          assert ks[1..][j - 1] == ks[j];
          assert ks[j].1 !in Keys(head);
        }
      }
      head + rest
  }

  function WireKeys(ks: seq<(string, string)>): set<string>
  {
    if ks == [] then {} else {ks[0].1} + WireKeys(ks[1..])
  }

  lemma NotInWireKeys(ks: seq<(string, string)>, k: string)
    requires forall j :: 0 <= j < |ks| ==> ks[j].1 != k
    ensures k !in WireKeys(ks)
  {
    if ks != [] {
      forall j | 0 <= j < |ks[1..]| ensures ks[1..][j].1 != k {
        assert ks[1..][j] == ks[j + 1];
      }
      NotInWireKeys(ks[1..], k);
    }
  }

  /** The optional attributes of a data-node record and the keys they are written under. */
  const OptionalKeys: seq<(string, string)> :=
    [("parent", "parent"), ("state", "state"), ("dataset", "dataset"), ("provenance_id", "provenanceId")]

  /** The keys a data-node record may hold. */
  function RecordKeys(tk: string): set<string>
  {
    {"name", tk, "properties"} + WireKeys(OptionalKeys)
  }

  /** The record `BaseDataNode.as_dict` builds from the name and type it read. */
  function DataNodeRecord(n: Node, name: Value, typ: Value, conv: Conversions): (r: Dict<string, Value>)
    ensures Get(r, "name") == Some(name)
    ensures Get(r, TypeKey(n.kind)) == Some(typ)
    ensures Get(r, "properties") == Some(List(PropertyRecords(n.props, conv)))
    ensures forall j :: 0 <= j < |OptionalKeys| ==> Optional(r, n, OptionalKeys[j].0, OptionalKeys[j].1)
    ensures "owner" !in Keys(r)
    ensures Keys(r) <= RecordKeys(TypeKey(n.kind))
  {
    OptionalsNotBase(TypeKey(n.kind));
    var base := BaseRecord(name, TypeKey(n.kind), typ, PropertyRecords(n.props, conv));
    var tail := Entries(n, OptionalKeys);
    NotInWireKeys(OptionalKeys, "owner");
    JoinRecord(base, tail, n, OptionalKeys, "owner");
    RecordKeysBound(base, tail, TypeKey(n.kind));
    base + tail
  }

  lemma RecordKeysBound(base: Dict<string, Value>, tail: Dict<string, Value>, tk: string)
    requires Keys(base) == {"name", tk, "properties"} && Keys(tail) <= WireKeys(OptionalKeys)
    ensures Keys(base + tail) <= RecordKeys(tk)
  {
    KeysAppend(base, tail);
  }

  /** The wire keys of the optional attributes. */
  lemma OptionalWireKeys()
    ensures WireKeys(OptionalKeys) == {"parent", "state", "dataset", "provenanceId"}
  {
    var ks := OptionalKeys;
    assert ks[1..][1..][1..][1..] == [];
    assert WireKeys(ks[1..][1..][1..]) == {"provenanceId"};
  }

  /** Joining a record and optional entries under other keys keeps both
      sides' lookups, and adds no key that neither side has. */
  lemma JoinRecord(base: Dict<string, Value>, tail: Dict<string, Value>, n: Node,
                   ks: seq<(string, string)>, o: string)
    requires Keys(tail) <= WireKeys(ks)
    requires forall j :: 0 <= j < |ks| ==> Optional(tail, n, ks[j].0, ks[j].1)
    requires forall j :: 0 <= j < |ks| ==> ks[j].1 !in Keys(base)
    requires o !in Keys(base) && o !in WireKeys(ks)
    ensures forall k :: k in Keys(base) ==> Get(base + tail, k) == Get(base, k)
    ensures forall j :: 0 <= j < |ks| ==> Optional(base + tail, n, ks[j].0, ks[j].1)
    ensures o !in Keys(base + tail)
  {
    KeysAppend(base, tail);
    forall k | k in Keys(base) ensures Get(base + tail, k) == Get(base, k) {
      GetPrefix(base, tail, k);
    }
    forall j | 0 <= j < |ks| ensures Optional(base + tail, n, ks[j].0, ks[j].1) {
      GetSkip(base, tail, ks[j].1);
    }
  }

  /** `BaseDataNode.as_dict`: the name, the type, the property records, and
      each of `parent`, `state`, `dataset` and `provenanceId` only when it is
      set and not `None`. */
  function DataNodeDict(n: Node, conv: Conversions): (r: Result<Dict<string, Value>, Error>)
    ensures r.Ok? <==> "name" in Keys(n.attrs) && "type" in Keys(n.attrs) && "provenance_id" in Keys(n.attrs)
    ensures r.Ok? ==> Get(r.value, "name") == Get(n.attrs, "name")
    ensures r.Ok? ==> Get(r.value, TypeKey(n.kind)) == Get(n.attrs, "type")
    ensures r.Ok? ==> Get(r.value, "properties") == Some(List(PropertyRecords(n.props, conv)))
    ensures r.Ok? ==> forall j :: 0 <= j < |OptionalKeys| ==> Optional(r.value, n, OptionalKeys[j].0, OptionalKeys[j].1)
    ensures r.Ok? ==> "owner" !in Keys(r.value)
    ensures r.Ok? ==> Keys(r.value) <= RecordKeys(TypeKey(n.kind))
  {
    var name :- Attr(n, "name");
    var typ :- Attr(n, "type");
    var _ :- Attr(n, "provenance_id");
    Ok(DataNodeRecord(n, name, typ, conv))
  }

  /** `Dataset.as_dict`: only the name, the description and the property records. */
  function DatasetDict(n: Node, conv: Conversions): (r: Result<Value, Error>)
    ensures r.Ok? <==> "name" in Keys(n.attrs) && "description" in Keys(n.attrs)
    ensures r.Ok? ==>
      r.value == Obj([("name", Get(n.attrs, "name").value), ("description", Get(n.attrs, "description").value),
                      ("properties", List(PropertyRecords(n.props, conv)))])
  {
    var name :- Attr(n, "name");
    var description :- Attr(n, "description");
    Ok(Obj([("name", name), ("description", description), ("properties", List(PropertyRecords(n.props, conv)))]))
  }

  /** The wire names of a file's S3 location and size. */
  const S3Names: set<string> := {"s3bucket", "s3key", "size"}

  /** What an optional attribute is written as: its value when set and not
      `None`, and nothing otherwise. */
  function Written(n: Node, k: string): (r: Option<Value>)
    ensures r.Some? <==> Present(n, k)
  {
    if Present(n, k) then Get(n.attrs, k) else None
  }

  /** The lookups that describe a file's `content`, in the order of
      `ContentWanted`. */
  function ContentLookups(c: Dict<string, Value>, tk: string): seq<Option<Value>>
  {
    [Get(c, "s3bucket"), Get(c, "s3key"), Get(c, "size"), Get(c, "name"), Get(c, tk),
     Get(c, "state"), Get(c, "dataset"), Get(c, "provenanceId"), Get(c, "parent"), Get(c, "properties")]
  }

  /** What those lookups find in a file's `content`: the S3 location and size
      under their wire names, the data-node record's name, type and optional
      attributes, and neither the parent nor the property records. */
  function ContentWanted(n: Node): seq<Option<Value>>
  {
    [Get(n.attrs, "s3_bucket"), Get(n.attrs, "s3_key"), Get(n.attrs, "size"), Get(n.attrs, "name"), Get(n.attrs, "type"),
     Written(n, "state"), Written(n, "dataset"), Written(n, "provenance_id"), None, None]
  }

  predicate FileContent(c: Dict<string, Value>, n: Node)
  {
    ContentLookups(c, TypeKey(n.kind)) == ContentWanted(n)
  }

  /** `File.as_dict`: the data-node record plus the S3 location, without the
      parent, wrapped in an `objectType`/`content`/`properties` envelope. */
  function FileDict(n: Node, conv: Conversions): (r: Result<Value, Error>)
    ensures r.Ok? <==> && "name" in Keys(n.attrs) && "type" in Keys(n.attrs) && "provenance_id" in Keys(n.attrs)
                       && "s3_bucket" in Keys(n.attrs) && "s3_key" in Keys(n.attrs) && "size" in Keys(n.attrs)
    ensures r.Ok? ==>
      && r.value.Obj? && |r.value.fields| == 3
      && r.value.fields[0] == ("objectType", Str("file"))
      && r.value.fields[1].0 == "content" && r.value.fields[1].1.Obj?
      && FileContent(r.value.fields[1].1.fields, n)
      && r.value.fields[2] == ("properties", List(PropertyRecords(n.props, conv)))
  {
    var d :- DataNodeDict(n, conv);
    var bucket :- Attr(n, "s3_bucket");
    var key :- Attr(n, "s3_key");
    var size :- Attr(n, "size");
    var content := Pop(Pop(d + [("s3bucket", bucket), ("s3key", key), ("size", size)], "parent"), "properties");
    FileContentOf(n, conv, d, bucket, key, size);
    Ok(Obj([("objectType", Str("file")), ("content", Obj(content)), ("properties", List(PropertyRecords(n.props, conv)))]))
  }

  /** `d.update(...)` with the three S3 fields, then the two pops, gives a
      file content. */
  lemma FileContentOf(n: Node, conv: Conversions, d: Dict<string, Value>, bucket: Value, key: Value, size: Value)
    requires DataNodeDict(n, conv) == Ok(d)
    requires Get(n.attrs, "s3_bucket") == Some(bucket) && Get(n.attrs, "s3_key") == Some(key) && Get(n.attrs, "size") == Some(size)
    ensures FileContent(Pop(Pop(d + [("s3bucket", bucket), ("s3key", key), ("size", size)], "parent"), "properties"), n)
  {
    assert OptionalKeys[1] == ("state", "state") && OptionalKeys[2] == ("dataset", "dataset");
    assert OptionalKeys[3] == ("provenance_id", "provenanceId");
    S3Absent(d, TypeKey(n.kind));
    ContentFrom(d, n, bucket, key, size);
  }

  /** A data-node record has none of the S3 wire names as a key. */
  lemma S3Absent(d: Dict<string, Value>, tk: string)
    requires tk == "fileType" || tk == "packageType"
    requires Keys(d) <= RecordKeys(tk)
    ensures "s3bucket" !in Keys(d) && "s3key" !in Keys(d) && "size" !in Keys(d)
  {
    OptionalWireKeys();
    assert "s3bucket"[1] == '3' && "s3key"[1] == '3' && "size"[1] == 'i';
  }

  /** The file content built from a record with the data-node lookups. */
  lemma ContentFrom(d: Dict<string, Value>, n: Node, bucket: Value, key: Value, size: Value)
    requires "s3bucket" !in Keys(d) && "s3key" !in Keys(d) && "size" !in Keys(d)
    requires Get(d, "name") == Get(n.attrs, "name") && Get(d, TypeKey(n.kind)) == Get(n.attrs, "type")
    requires Optional(d, n, "state", "state") && Optional(d, n, "dataset", "dataset")
    requires Optional(d, n, "provenance_id", "provenanceId")
    requires Get(n.attrs, "s3_bucket") == Some(bucket) && Get(n.attrs, "s3_key") == Some(key) && Get(n.attrs, "size") == Some(size)
    ensures FileContent(Pop(Pop(d + [("s3bucket", bucket), ("s3key", key), ("size", size)], "parent"), "properties"), n)
  {
    var e := d + [("s3bucket", bucket), ("s3key", key), ("size", size)];
    S3Extras(d, bucket, key, size);
    KeptKeys(TypeKey(n.kind));
    var c := Pop(Pop(e, "parent"), "properties");
    KeptExtra(e, c, "name");
    Kept(d, e, c, "name", S3Names);
    KeptExtra(e, c, TypeKey(n.kind));
    Kept(d, e, c, TypeKey(n.kind), S3Names);
    KeptExtra(e, c, "state");
    Kept(d, e, c, "state", S3Names);
    KeptExtra(e, c, "dataset");
    Kept(d, e, c, "dataset", S3Names);
    KeptExtra(e, c, "provenanceId");
    Kept(d, e, c, "provenanceId", S3Names);
    KeptExtra(e, c, "s3bucket");
    KeptExtra(e, c, "s3key");
    KeptExtra(e, c, "size");
  }

  /** A record key other than the S3 names keeps its lookup through the S3
      append. */
  lemma Kept(d: Dict<string, Value>, e: Dict<string, Value>, c: Dict<string, Value>, k: string, extras: set<string>)
    requires forall k' :: k' in Keys(d) ==> Get(e, k') == Get(d, k')
    requires Keys(e) == Keys(d) + extras && k !in extras
    requires Get(c, k) == Get(e, k)
    ensures Get(c, k) == Get(d, k) && (k in Keys(c) <==> k in Keys(d))
  {
    if k !in Keys(d) {
      assert k !in Keys(e);
    }
  }

  /** An S3 field keeps its lookup through the two pops. */
  lemma KeptExtra(e: Dict<string, Value>, c: Dict<string, Value>, k: string)
    requires k != "parent" && k != "properties"
    requires c == Pop(Pop(e, "parent"), "properties")
    ensures Get(c, k) == Get(e, k)
  {
  }

  /** None of the keys a file content keeps is `parent` or `properties`, and
      no record key is an S3 name. */
  lemma KeptKeys(tk: string)
    requires tk == "fileType" || tk == "packageType"
    ensures "name" != "parent" && "name" != "properties" && tk != "parent" && tk != "properties"
    ensures "state" != "parent" && "state" != "properties" && "dataset" != "parent" && "dataset" != "properties"
    ensures "provenanceId" != "parent" && "provenanceId" != "properties"
    ensures "s3bucket" != "parent" && "s3bucket" != "properties" && "s3key" != "parent" && "s3key" != "properties"
    ensures "size" != "parent" && "size" != "properties"
    ensures "name" !in S3Names && tk !in S3Names && "state" !in S3Names
    ensures "dataset" !in S3Names && "provenanceId" !in S3Names
  {
    assert "s3bucket"[1] == '3' && "s3key"[1] == '3' && "size"[1] == 'i';
    assert "properties"[1] == 'r' && "parent"[1] == 'a';
  }

  /** Appending the three S3 fields to a record that has none of them. */
  lemma S3Extras(d: Dict<string, Value>, bucket: Value, key: Value, size: Value)
    requires "s3bucket" !in Keys(d) && "s3key" !in Keys(d) && "size" !in Keys(d)
    ensures var e := d + [("s3bucket", bucket), ("s3key", key), ("size", size)];
      && Get(e, "s3bucket") == Some(bucket) && Get(e, "s3key") == Some(key) && Get(e, "size") == Some(size)
      && Keys(e) == Keys(d) + S3Names
      && forall k :: k in Keys(d) ==> Get(e, k) == Get(d, k)
  {
    var extras := [("s3bucket", bucket), ("s3key", key), ("size", size)];
    S3Fields(bucket, key, size);
    GetSkip(d, extras, "s3bucket");
    GetSkip(d, extras, "s3key");
    GetSkip(d, extras, "size");
    KeysAppend(d, extras);
    forall k | k in Keys(d) ensures Get(d + extras, k) == Get(d, k) {
      GetPrefix(d, extras, k);
    }
  }

  /** The three S3 fields on their own. */
  lemma S3Fields(bucket: Value, key: Value, size: Value)
    ensures var x := [("s3bucket", bucket), ("s3key", key), ("size", size)];
      && Get(x, "s3bucket") == Some(bucket) && Get(x, "s3key") == Some(key) && Get(x, "size") == Some(size)
      && Keys(x) == S3Names
  {
    var x := [("s3bucket", bucket), ("s3key", key), ("size", size)];
    assert "s3bucket"[1] == '3' && "s3key"[2] == 'k' && "size"[1] == 'i';
    GetAt(x, "s3key", 1);
    GetAt(x, "size", 2);
    KeysCons(x[0], x[1..]);
    KeysCons(x[1], x[2..]);
    KeysCons(x[2], []);
    assert x[2..] == [x[2]] + [];
  }

  /** `as_dict` of a collection or package: the data-node record plus `owner`
      when the owner is set and not `None`. */
  function PackageDict(n: Node, conv: Conversions): (r: Result<Value, Error>)
    requires n.kind != FileKind
    ensures r.Ok? ==> r.value.Obj?
    ensures r.Ok? ==>
      && Get(r.value.fields, "name") == Get(n.attrs, "name")
      && Get(r.value.fields, "packageType") == Get(n.attrs, "type")
      && Get(r.value.fields, "properties") == Some(List(PropertyRecords(n.props, conv)))
      && (forall j :: 0 <= j < |OptionalKeys| ==> Optional(r.value.fields, n, OptionalKeys[j].0, OptionalKeys[j].1))
      && Optional(r.value.fields, n, "owner_id", "owner")
  {
    var d :- DataNodeDict(n, conv);
    var _ :- Attr(n, "owner_id");
    var owner := Entry(n, "owner_id", "owner");
    KeysAppend(d, owner);
    GetSkip(d, owner, "owner");
    GetPrefix(d, owner, "name");
    GetPrefix(d, owner, "packageType");
    GetPrefix(d, owner, "properties");
    OptionalsNotBase("packageType");
    OptionalsAhead(d, owner, n);
    Ok(Obj(d + owner))
  }

  /** No optional attribute is written under a key of the base record or under `owner`. */
  lemma OptionalsNotBase(tk: string)
    requires tk in {"fileType", "packageType"}
    ensures forall j :: 0 <= j < |OptionalKeys| ==>
              OptionalKeys[j].1 != "name" && OptionalKeys[j].1 != tk &&
              OptionalKeys[j].1 != "properties" && OptionalKeys[j].1 != "owner"
    ensures forall i, j :: 0 <= i < j < |OptionalKeys| ==> OptionalKeys[i].1 != OptionalKeys[j].1
  {
  }

  /** Entries appended behind the optional attributes leave them as they are. */
  lemma OptionalsAhead(d: Dict<string, Value>, e: Dict<string, Value>, n: Node)
    requires forall j :: 0 <= j < |OptionalKeys| ==> Optional(d, n, OptionalKeys[j].0, OptionalKeys[j].1)
    requires forall j :: 0 <= j < |OptionalKeys| ==> OptionalKeys[j].1 !in Keys(e)
    ensures forall j :: 0 <= j < |OptionalKeys| ==> Optional(d + e, n, OptionalKeys[j].0, OptionalKeys[j].1)
  {
    KeysAppend(d, e);
    forall j | 0 <= j < |OptionalKeys| ensures Optional(d + e, n, OptionalKeys[j].0, OptionalKeys[j].1) {
      GetSplit(d, e, OptionalKeys[j].1);
    }
  }

  /** `as_dict` of each variant. */
  function AsDict(n: Node, conv: Conversions): (r: Result<Value, Error>)
    ensures r.Ok? ==> r.value.Obj?
    ensures n.kind == DatasetKind ==> r == DatasetDict(n, conv)
    ensures n.kind == FileKind ==> r == FileDict(n, conv)
    ensures n.kind != DatasetKind && n.kind != FileKind ==> r == PackageDict(n, conv)
  {
    match n.kind
    case DatasetKind => DatasetDict(n, conv)
    case FileKind => FileDict(n, conv)
    case _ => PackageDict(n, conv)
  }
}

/** Wire record → typed entity: `BaseNode.from_dict` (content envelope,
    reconciled keyword arguments, the popped `id`), the data-node layer
    (`state`, the `parent` record collapsed to an id, the `properties`
    block) and the container layer (children rebuilt and added). */
module Construct {
  import opened Outcomes
  import opened PyDict
  import opened Values
  import opened Errors
  import opened Reconcile
  import opened Variants
  import opened Properties
  import opened Nodes
  import opened Collections

  /** A constructed instance and the next handle no instance has used yet. */
  datatype Made = Made(node: Node, next: nat)

  /** Several constructed instances and the next unused handle. */
  datatype Many = Many(nodes: seq<Node>, next: nat)

  /** `data['content']` followed by `content.pop('id', None)`: the record must
      be a dict holding a `content` dict. */
  function Content(data: Value): (r: Result<Dict<string, Value>, Error>)
    ensures r.Ok? <==> Field(data, "content").Some? && Field(data, "content").value.Obj?
    ensures r.Ok? ==> Field(data, "content") == Some(Obj(r.value))
    ensures data.Obj? && Field(data, "content").None? ==> r == Err(KeyError(Str("content")))
  {
    if !data.Obj? then Err(TypeError("record indices must be integers"))
    else match Get(data.fields, "content")
      case None => Err(KeyError(Str("content")))
      case Some(c) =>
        if c.Obj? then Ok(c.fields)
        else if c.List? then Err(TypeError("pop expected at most 1 argument"))
        else Err(AttributeError("pop"))
  }

  /** The id `from_dict` pops from the content (`None` when absent). */
  function ContentId(content: Dict<string, Value>): Value
  {
    Get(content, "id").GetOr(Null)
  }

  /** `BaseNode.from_dict` for a data-node variant: the content's keys are
      reconciled against the variant's accepted names, the variant is
      constructed from them, and the popped id, when there was one, is set
      on the instance afterwards. */
  function BaseFromDict(kind: Kind, data: Value, handle: nat): (r: Result<Node, Error>)
    ensures Content(data).Err? ==> r == Err(Content(data).error)
    ensures Content(data).Ok? ==>
      var kw := Kwargs(AcceptedFields(kind), Content(data).value);
      && (r.Ok? <==> Init(kind, kw, handle).Ok?)
      && ("self" !in Keys(kw) && "name" !in Keys(kw) ==> r == Err(TypeError("missing required argument")))
      && (r.Err? ==> InitError(r.error))
      && (r.Ok? ==>
            && r.value.kind == kind && r.value.handle == handle && r.value.props == [] && r.value.items == None
            && Get(r.value.attrs, "name") == Get(kw, "name")
            && r.value.id == (if ContentId(Content(data).value).Null? then Opt(kw, "id") else ContentId(Content(data).value))
            && (kind != DatasetKind ==> Linked(r.value, kw)))
  {
    var content :- Content(data);
    var id := ContentId(content);
    var item :- Init(kind, Kwargs(AcceptedFields(kind), content), handle);
    Ok(if id.Null? then item else item.(id := id))
  }

  /** The identity of a built instance: the content's own `id` when it has
      one; otherwise only a differently spelled key (`ID`, `Id`, ...) that
      reconciles to `id` can give it one. */
  lemma BuiltIdentity(kind: Kind, data: Value, handle: nat)
    requires BaseFromDict(kind, data, handle).Ok?
    ensures var content := Content(data).value;
            && (!ContentId(content).Null? ==> BaseFromDict(kind, data, handle).value.id == ContentId(content))
            && ((ContentId(content).Null? && (forall k :: k in Keys(content) && k != "id" ==> ReconcileKey(AcceptedFields(kind), k) != "id"))
                ==> !Exists(BaseFromDict(kind, data, handle).value))
  {
    var content := Content(data).value;
    var kw := Kwargs(AcceptedFields(kind), content);
    KwargsKeys(AcceptedFields(kind), content);
    if ContentId(content).Null? && (forall k :: k in Keys(content) && k != "id" ==> ReconcileKey(AcceptedFields(kind), k) != "id") {
      assert "id" !in Keys(kw);
      assert Opt(kw, "id") == Null;
    }
  }

  /** `item.state = data['content']['state']`, skipped when there is none. */
  function WithState(n: Node, content: Dict<string, Value>): (r: Node)
    ensures r == n.(attrs := r.attrs)
    ensures "state" in Keys(content) ==> Get(r.attrs, "state") == Get(content, "state")
    ensures forall k :: k != "state" ==> Get(r.attrs, k) == Get(n.attrs, k)
    ensures "state" !in Keys(content) ==> r == n
  {
    match Get(content, "state")
    case None => n
    case Some(v) => n.(attrs := Put(n.attrs, "state", v))
  }

  /** The `properties` block, parsed into the instance's store when present. */
  function WithProperties(n: Node, data: Value, conv: Conversions): (r: Result<Node, Error>)
    requires data.Obj?
    ensures Field(data, "properties").None? ==> r == Ok(n)
    ensures Field(data, "properties").Some? ==>
              r == (var s :- ParseBlock(n.props, Field(data, "properties").value, conv); Ok(n.(props := s)))
    ensures r.Ok? ==> r.value == n.(props := r.value.props) && Keys(n.props) <= Keys(r.value.props)
  {
    match Field(data, "properties")
    case None => Ok(n)
    case Some(block) =>
      var s :- ParseBlock(n.props, block, conv);
      Ok(n.(props := s))
  }

  /** The `from_dict` of a data-node variant, with fresh handles from `next`
      on: the instance itself takes `next`, its parent record and children
      the following ones. */
  function FromDict(kind: Kind, data: Value, remote: Remote, conv: Conversions, next: nat): (r: Result<Made, Error>)
    ensures r.Ok? ==> r.value.node.handle == next && r.value.node.kind == kind && r.value.next > next
    decreases data, 2
  {
    var base :- BaseFromDict(kind, data, next);
    var stated := WithState(base, Content(data).value);
    var parented :- ParentOf(stated, data, remote, conv, next + 1);
    var n :- WithProperties(parented.node, data, conv);
    if !IsContainer(kind) then Ok(Made(n, parented.next))
    else
      var kids :- ChildrenOf(data, remote, conv, parented.next);
      var added :- Add(n, kids.nodes, remote);
      Ok(Made(added, kids.next))
  }

  /** A successful construction keeps the identity the base layer read from
      the content, and a container always has one (adding its children
      requires it). */
  lemma FromDictIdentity(kind: Kind, data: Value, remote: Remote, conv: Conversions, next: nat)
    requires FromDict(kind, data, remote, conv, next).Ok?
    ensures BaseFromDict(kind, data, next).Ok?
    ensures FromDict(kind, data, remote, conv, next).value.node.id == BaseFromDict(kind, data, next).value.id
    ensures IsContainer(kind) ==> Exists(FromDict(kind, data, remote, conv, next).value.node)
  {
    FromDictSteps(kind, data, remote, conv, next);
  }

  /** The instance `from_dict` returns is the one after the parent and the
      properties are set: adding the children changes only the child cache. */
  lemma FromDictSteps(kind: Kind, data: Value, remote: Remote, conv: Conversions, next: nat)
    requires FromDict(kind, data, remote, conv, next).Ok?
    ensures BaseFromDict(kind, data, next).Ok? && data.Obj?
    ensures var stated := WithState(BaseFromDict(kind, data, next).value, Content(data).value);
      && ParentOf(stated, data, remote, conv, next + 1).Ok?
      && var parented := ParentOf(stated, data, remote, conv, next + 1).value;
      && WithProperties(parented.node, data, conv).Ok?
      && var n := WithProperties(parented.node, data, conv).value;
      && FromDict(kind, data, remote, conv, next).value.node == n.(items := FromDict(kind, data, remote, conv, next).value.node.items)
      && (IsContainer(kind) ==> Exists(n))
  {
    var stated := WithState(BaseFromDict(kind, data, next).value, Content(data).value);
    var parented := ParentOf(stated, data, remote, conv, next + 1).value;
    var n := WithProperties(parented.node, data, conv).value;
    if IsContainer(kind) {
      var kids := ChildrenOf(data, remote, conv, parented.next).value;
      assert Add(n, kids.nodes, remote).value == n.(items := Add(n, kids.nodes, remote).value.items);
    }
  }

  /** The `state` of the content and a string `parent` of the record land in
      the instance's attributes; without a `parent` entry the constructor's
      own value stays. */
  lemma FromDictAttributes(kind: Kind, data: Value, remote: Remote, conv: Conversions, next: nat)
    requires FromDict(kind, data, remote, conv, next).Ok?
    ensures BaseFromDict(kind, data, next).Ok?
    ensures var n := FromDict(kind, data, remote, conv, next).value.node;
      && (Field(data, "parent").Some? && Field(data, "parent").value.Str? ==> Get(n.attrs, "parent") == Field(data, "parent"))
      && (Field(data, "parent").None? ==> Get(n.attrs, "parent") == Get(BaseFromDict(kind, data, next).value.attrs, "parent"))
      && ("state" in Keys(Content(data).value) ==> Get(n.attrs, "state") == Get(Content(data).value, "state"))
  {
    FromDictSteps(kind, data, remote, conv, next);
  }

  /** Without a `properties` block the instance's store is empty. */
  lemma FromDictNoProperties(kind: Kind, data: Value, remote: Remote, conv: Conversions, next: nat)
    requires FromDict(kind, data, remote, conv, next).Ok? && Field(data, "properties").None?
    ensures FromDict(kind, data, remote, conv, next).value.node.props == []
  {
    FromDictSteps(kind, data, remote, conv, next);
  }

  /** A nested parent record is collapsed to the id its own content carries. */
  lemma ParentCollapsesToId(kind: Kind, data: Value, remote: Remote, conv: Conversions, next: nat)
    requires FromDict(kind, data, remote, conv, next).Ok?
    requires Field(data, "parent").Some? && !Field(data, "parent").value.Str?
    requires Content(Field(data, "parent").value).Ok? && !ContentId(Content(Field(data, "parent").value).value).Null?
    ensures Get(FromDict(kind, data, remote, conv, next).value.node.attrs, "parent") ==
              Some(ContentId(Content(Field(data, "parent").value).value))
  {
    FromDictSteps(kind, data, remote, conv, next);
    var p := Field(data, "parent").value;
    var pk := PackageClass(p).value;
    FromDictIdentity(pk, p, remote, conv, next + 1);
    BuiltIdentity(pk, p, next + 1);
  }

  /** The `parent` of a record: a string is kept as the parent id; any other
      value is built as an entity of its own (its variant read from its tag)
      and only that entity's id is kept. */
  function ParentOf(n: Node, data: Value, remote: Remote, conv: Conversions, next: nat): (r: Result<Made, Error>)
    requires data.Obj?
    ensures r.Ok? ==> r.value.node == n.(attrs := r.value.node.attrs) && r.value.next >= next
    ensures r.Ok? ==> forall k :: k != "parent" ==> Get(r.value.node.attrs, k) == Get(n.attrs, k)
    ensures Field(data, "parent").None? ==> r == Ok(Made(n, next))
    ensures Field(data, "parent").Some? && Field(data, "parent").value.Str? ==>
              r.Ok? && Get(r.value.node.attrs, "parent") == Field(data, "parent")
    ensures Field(data, "parent").Some? && !Field(data, "parent").value.Str? ==>
              var p := Field(data, "parent").value;
              && (r.Ok? <==> PackageClass(p).Ok? && FromDict(PackageClass(p).value, p, remote, conv, next).Ok?)
              && (r.Ok? ==> Get(r.value.node.attrs, "parent") == Some(FromDict(PackageClass(p).value, p, remote, conv, next).value.node.id))
    decreases data, 1
  {
    match Field(data, "parent")
    case None => Ok(Made(n, next))
    case Some(p) =>
      if p.Str? then Ok(Made(n.(attrs := Put(n.attrs, "parent", p)), next))
      else
        FieldSmaller(data, "parent");
        var pk :- PackageClass(p);
        var built :- FromDict(pk, p, remote, conv, next);
        Ok(Made(n.(attrs := Put(n.attrs, "parent", built.node.id)), built.next))
  }

  /** `for child in data['children']`: a list is built element by element;
      iterating a string or a dict yields strings, which the type resolver
      rejects, so only an empty one goes through; anything else is not
      iterable. */
  function ChildrenOf(data: Value, remote: Remote, conv: Conversions, next: nat): (r: Result<Many, Error>)
    requires data.Obj?
    ensures Field(data, "children").None? ==> r == Ok(Many([], next))
    ensures r.Ok? ==> r.value.next >= next && Fresh(r.value, next)
    ensures r.Ok? && Field(data, "children").Some? && Field(data, "children").value.List? ==>
              |r.value.nodes| == |Field(data, "children").value.items|
    ensures r.Ok? && Field(data, "children").Some? && !Field(data, "children").value.List? ==> r.value.nodes == []
    decreases data, 1
  {
    match Field(data, "children")
    case None => Ok(Many([], next))
    case Some(kids) =>
      match kids
      case List(xs) =>
        FieldSmaller(data, "children");
        Children(kids, 0, remote, conv, next)
      case Str(s) => if s == [] then Ok(Many([], next)) else Err(AttributeError("get"))
      case Obj(fs) => if fs == [] then Ok(Many([], next)) else Err(AttributeError("get"))
      case _ => Err(TypeError("object is not iterable"))
  }

  /** The handles of a batch of built instances are increasing and lie
      between `next` and the batch's own next handle: distinct instances. */
  predicate Fresh(m: Many, next: nat)
  {
    && (forall j :: 0 <= j < |m.nodes| ==> next <= m.nodes[j].handle < m.next)
    && (forall j, k :: 0 <= j < k < |m.nodes| ==> m.nodes[j].handle < m.nodes[k].handle)
  }

  /** The children from position `i` on, each built as the variant its tag names. */
  function Children(list: Value, i: nat, remote: Remote, conv: Conversions, next: nat): (r: Result<Many, Error>)
    requires list.List? && i <= |list.items|
    ensures r.Ok? ==> |r.value.nodes| == |list.items| - i && r.value.next >= next && Fresh(r.value, next)
    decreases list, 0, |list.items| - i
  {
    if i == |list.items| then Ok(Many([], next))
    else
      var child := list.items[i];
      var k :- PackageClass(child);
      var built :- FromDict(k, child, remote, conv, next);
      var rest :- Children(list, i + 1, remote, conv, built.next);
      FreshCons(built.node, rest, next, built.next);
      Ok(Many([built.node] + rest.nodes, rest.next))
  }

  lemma FreshCons(first: Node, rest: Many, next: nat, mid: nat)
    requires next <= first.handle < mid <= rest.next && Fresh(rest, mid)
    ensures Fresh(Many([first] + rest.nodes, rest.next), next)
  {
    var nodes := [first] + rest.nodes;
    assert forall j :: 1 <= j < |nodes| ==> nodes[j] == rest.nodes[j - 1];
  }
}

/** `Property` and the categorised property store of a data node: a dictionary
    from category to a dictionary from key to property, so that a key is
    unique within its category and the same key may live in several
    categories. */
module Properties {
  import opened Outcomes
  import opened PyDict
  import opened Values
  import opened Errors
  import opened Text

  /** The accepted data-type names (`Property._data_types`). */
  const DataTypes: set<string> := {"string", "integer", "double", "date", "user", "boolean"}

  const DefaultCategory: string := "Blackfynn"

  datatype Property = Property(key: string, value: Value, dataType: string, fixed: Value, hidden: Value, category: string)

  /** The value conversions the property code delegates to: type inference
      (`get_data_type`), conversion to a named type (`value_as_type`) and
      Python's `str`.  None of them is part of this model, so they are
      parameters. */
  datatype Conversions = Conversions(
    infer: Value -> (string, Value),
    asType: (Value, string) -> Value,
    show: Value -> string)

  /** `Property(key, value, fixed, hidden, category, data_type)`: a data type
      whose lower-cased name is one of the six accepted names is kept as
      given and converts the value; a missing or unknown one is inferred from
      the value. */
  function NewProperty(key: string, value: Value, fixed: Value, hidden: Value, category: string,
                       dataType: Value, conv: Conversions): (r: Result<Property, Error>)
    ensures r.Ok? <==> dataType.Null? || dataType.Str?
    ensures r.Ok? ==> r.value.key == key && r.value.category == category && r.value.fixed == fixed && r.value.hidden == hidden
    ensures dataType.Str? && Lower(dataType.s) in DataTypes ==>
              r == Ok(Property(key, conv.asType(value, Lower(dataType.s)), dataType.s, fixed, hidden, category))
    ensures dataType.Null? || (dataType.Str? && Lower(dataType.s) !in DataTypes) ==>
              r.Ok? && (r.value.dataType, r.value.value) == conv.infer(value)
  {
    if dataType.Null? || (dataType.Str? && Lower(dataType.s) !in DataTypes) then
      var (dt, v) := conv.infer(value);
      Ok(Property(key, v, dt, fixed, hidden, category))
    else if dataType.Str? then
      Ok(Property(key, conv.asType(value, Lower(dataType.s)), dataType.s, fixed, hidden, category))
    else
      Err(AttributeError("lower"))
  }

  /** `Property.as_dict`: the wire record, with the value rendered as a string. */
  function PropertyAsDict(p: Property, conv: Conversions): Value
  {
    Obj([("key", Str(p.key)),
         ("value", Str(conv.show(p.value))),
         ("dataType", Str(p.dataType)),
         ("fixed", p.fixed),
         ("hidden", p.hidden),
         ("category", Str(p.category))])
  }

  /** `data[key]` on a decoded record. */
  function Lookup(data: Value, key: string): Result<Value, Error>
  {
    if !data.Obj? then Err(TypeError("record is not a dict"))
    else match Get(data.fields, key)
      case Some(v) => Ok(v)
      case None => Err(KeyError(Str(key)))
  }

  /** `Property.from_dict(data, category)`: the category is taken from the
      argument, never from the record. */
  function PropertyFromDict(data: Value, category: Value, conv: Conversions): (r: Result<Property, Error>)
    ensures r.Ok? ==> Str(r.value.category) == category
    ensures r.Ok? ==> Lookup(data, "key") == Ok(Str(r.value.key))
    ensures r.Ok? ==> Lookup(data, "fixed") == Ok(r.value.fixed) && Lookup(data, "hidden") == Ok(r.value.hidden)
  {
    var key :- Lookup(data, "key");
    var value :- Lookup(data, "value");
    var fixed :- Lookup(data, "fixed");
    var hidden :- Lookup(data, "hidden");
    var dataType :- Lookup(data, "dataType");
    if !key.Str? || !category.Str? then Err(TypeError("key and category must be strings"))
    else NewProperty(key.s, value, fixed, hidden, category.s, dataType, conv)
  }

  /** Serialising a property and reading it back keeps its key, category,
      flags and (accepted) data type, and the value is the conversion of its
      string form.  When that conversion gives the value back, the property
      is reproduced exactly. */
  lemma PropertyRoundTrip(p: Property, conv: Conversions)
    requires Lower(p.dataType) in DataTypes
    ensures PropertyFromDict(PropertyAsDict(p, conv), Str(p.category), conv)
              == Ok(p.(value := conv.asType(Str(conv.show(p.value)), Lower(p.dataType))))
    ensures conv.asType(Str(conv.show(p.value)), Lower(p.dataType)) == p.value ==>
              PropertyFromDict(PropertyAsDict(p, conv), Str(p.category), conv) == Ok(p)
  {
    AsDictLookups(p, conv);
  }

  /** The fields `from_dict` reads back from a serialised property. */
  lemma AsDictLookups(p: Property, conv: Conversions)
    ensures Lookup(PropertyAsDict(p, conv), "key") == Ok(Str(p.key))
    ensures Lookup(PropertyAsDict(p, conv), "value") == Ok(Str(conv.show(p.value)))
    ensures Lookup(PropertyAsDict(p, conv), "fixed") == Ok(p.fixed)
    ensures Lookup(PropertyAsDict(p, conv), "hidden") == Ok(p.hidden)
    ensures Lookup(PropertyAsDict(p, conv), "dataType") == Ok(Str(p.dataType))
  {
    LookupKey(p, conv);
    LookupValue(p, conv);
    LookupDataType(p, conv);
    LookupFixed(p, conv);
    LookupHidden(p, conv);
  }

  lemma LookupKey(p: Property, conv: Conversions)
    ensures Lookup(PropertyAsDict(p, conv), "key") == Ok(Str(p.key))
  {
    GetAt(PropertyAsDict(p, conv).fields, "key", 0);
  }

  lemma LookupValue(p: Property, conv: Conversions)
    ensures Lookup(PropertyAsDict(p, conv), "value") == Ok(Str(conv.show(p.value)))
  {
    var f := PropertyAsDict(p, conv).fields;
    assert f[0].0 == "key" && "key" != "value";
    GetAt(f, "value", 1);
  }

  lemma LookupDataType(p: Property, conv: Conversions)
    ensures Lookup(PropertyAsDict(p, conv), "dataType") == Ok(Str(p.dataType))
  {
    var f := PropertyAsDict(p, conv).fields;
    assert f[0].0 == "key" && f[1].0 == "value";
    assert "key" != "dataType" && "value" != "dataType";
    GetAt(f, "dataType", 2);
  }

  lemma LookupFixed(p: Property, conv: Conversions)
    ensures Lookup(PropertyAsDict(p, conv), "fixed") == Ok(p.fixed)
  {
    var f := PropertyAsDict(p, conv).fields;
    assert f[0].0 == "key" && f[1].0 == "value" && f[2].0 == "dataType";
    assert "key" != "fixed" && "value" != "fixed" && "dataType" != "fixed";
    GetAt(f, "fixed", 3);
  }

  lemma LookupHidden(p: Property, conv: Conversions)
    ensures Lookup(PropertyAsDict(p, conv), "hidden") == Ok(p.hidden)
  {
    var f := PropertyAsDict(p, conv).fields;
    assert f[0].0 == "key" && f[1].0 == "value" && f[2].0 == "dataType" && f[3].0 == "fixed";
    assert "key" != "hidden" && "value" != "hidden" && "dataType" != "hidden" && "fixed" != "hidden";
    GetAt(f, "hidden", 4);
  }

  // ---------------------------------------------------------------------------
  // The store
  // ---------------------------------------------------------------------------

  type Store = Dict<string, Dict<string, Property>>

  /** Every property sits under its own category and key, and no category or key repeats. */
  predicate WellFormed(s: Store)
  {
    && Valid(s)
    && forall i :: 0 <= i < |s| ==> Valid(s[i].1) && CategoryHolds(s[i].0, s[i].1)
  }

  predicate CategoryHolds(category: string, entries: Dict<string, Property>)
  {
    forall j :: 0 <= j < |entries| ==> entries[j].1.category == category && entries[j].1.key == entries[j].0
  }

  /** The property stored under a category and key, if any. */
  function Find(s: Store, category: string, key: string): Option<Property>
  {
    match Get(s, category)
    case None => None
    case Some(entries) => Get(entries, key)
  }

  /** `_set_properties` for one entry (also `cls_add_property`): create the
      category on first use, then assign the key inside it. */
  function SetProperty(s: Store, p: Property): (r: Store)
    ensures Find(r, p.category, p.key) == Some(p)
    ensures forall c, k :: c != p.category || k != p.key ==> Find(r, c, k) == Find(s, c, k)
    ensures Keys(r) == Keys(s) + {p.category}
  {
    var s1 := if p.category in Keys(s) then s else Put(s, p.category, []);
    var entries := Get(s1, p.category).value;
    Put(s1, p.category, Put(entries, p.key, p))
  }

  lemma SetPropertyWellFormed(s: Store, p: Property)
    requires WellFormed(s)
    ensures WellFormed(SetProperty(s, p))
  {
    var s1 := if p.category in Keys(s) then s else Put(s, p.category, []);
    if p.category !in Keys(s) {
      NewCategoryWellFormed(s, p.category);
    }
    var entries := Get(s1, p.category).value;
    var i := KeyEntry(s1, p.category);
    GetEntry(s1, i);
    PutValid(entries, p.key, p);
    var e' := Put(entries, p.key, p);
    PutKeepsEntry(entries, p.key, p, p.category);
    PutReplaces(s1, p.category, e', i);
    ReplaceWellFormed(s1, i, e');
  }

  /** A new, empty category keeps the store well formed. */
  lemma NewCategoryWellFormed(s: Store, category: string)
    requires WellFormed(s) && category !in Keys(s)
    ensures WellFormed(Put(s, category, []))
  {
    PutValid(s, category, []);
    var r := Put(s, category, []);
    assert r == s + [(category, [])];
    forall i | 0 <= i < |r| ensures Valid(r[i].1) && CategoryHolds(r[i].0, r[i].1) {
      if i < |s| {
        assert r[i] == s[i];
      }
    }
  }

  /** Replacing one category's entries by well-formed ones keeps the store well formed. */
  lemma ReplaceWellFormed(s: Store, i: nat, entries: Dict<string, Property>)
    requires WellFormed(s) && i < |s|
    requires Valid(entries) && CategoryHolds(s[i].0, entries)
    ensures WellFormed(s[i := (s[i].0, entries)])
  {
    var r := s[i := (s[i].0, entries)];
    assert forall j :: 0 <= j < |r| ==> r[j].0 == s[j].0;
  }

  /** Assigning a property whose key and category match keeps `CategoryHolds`. */
  lemma PutKeepsEntry(entries: Dict<string, Property>, key: string, p: Property, category: string)
    requires CategoryHolds(category, entries)
    requires p.category == category && p.key == key
    ensures CategoryHolds(category, Put(entries, key, p))
  {
    if entries != [] && entries[0].0 != key {
      PutKeepsEntry(entries[1..], key, p, category);
      var rest := Put(entries[1..], key, p);
      assert Put(entries, key, p) == [entries[0]] + rest;
    }
  }

  /** Assigning to a present key replaces exactly that entry. */
  lemma PutReplaces<K(!new), V>(d: Dict<K, V>, k: K, v: V, i: nat)
    requires Valid(d) && i < |d| && d[i].0 == k
    ensures Put(d, k, v) == d[i := (k, v)]
  {
    if d[0].0 != k {
      assert d[1..][i - 1].0 == k;
      PutReplaces(d[1..], k, v, i - 1);
      assert d[1..][i - 1 := (k, v)] == d[i := (k, v)][1..];
    }
  }

  /** The last of `ps` under category `c` and key `k`, if any. */
  function LastFor(ps: seq<Property>, c: string, k: string): (r: Option<Property>)
    ensures r.Some? ==> r.value in ps && r.value.category == c && r.value.key == k
    ensures r.None? <==> forall p :: p in ps ==> !(p.category == c && p.key == k)
    decreases |ps|
  {
    if ps == [] then None
    else
      var n := |ps| - 1;
      assert forall p :: p in ps <==> p in ps[..n] || p == ps[n];
      if ps[n].category == c && ps[n].key == k then Some(ps[n]) else LastFor(ps[..n], c, k)
  }

  /** `_set_properties(*entries)`: the entries are assigned in order, so
      the categories of the store grow by exactly the entries' categories. */
  function SetProperties(s: Store, ps: seq<Property>): (r: Store)
    ensures Keys(r) == Keys(s) + set p | p in ps :: p.category
    decreases |ps|
  {
    if ps == [] then s
    else
      var n := |ps| - 1;
      var r := SetProperty(SetProperties(s, ps[..n]), ps[n]);
      CategoriesSnoc(ps);
      r
  }

  /** The categories of a non-empty sequence of entries: those before the last, and the last's. */
  lemma CategoriesSnoc(ps: seq<Property>)
    requires ps != []
    ensures (set p | p in ps :: p.category) == (set p | p in ps[..|ps| - 1] :: p.category) + {ps[|ps| - 1].category}
  {
    var n := |ps| - 1;
    assert ps == ps[..n] + [ps[n]];
    assert forall p :: p in ps <==> p in ps[..n] || p == ps[n];
  }

  /** Under every category and key the store ends up holding the last entry
      for it, and the old property where there is none. */
  lemma {:induction false} SetPropertiesFind(s: Store, ps: seq<Property>, c: string, k: string)
    ensures Find(SetProperties(s, ps), c, k) == if LastFor(ps, c, k).Some? then LastFor(ps, c, k) else Find(s, c, k)
    decreases |ps|
  {
    if ps != [] {
      var n := |ps| - 1;
      SetPropertiesFind(s, ps[..n], c, k);
    }
  }

  /** Assigning entries in order keeps the store well formed. */
  lemma {:induction false} SetPropertiesWellFormed(s: Store, ps: seq<Property>)
    requires WellFormed(s)
    ensures WellFormed(SetProperties(s, ps))
    decreases |ps|
  {
    if ps != [] {
      var n := |ps| - 1;
      SetPropertiesWellFormed(s, ps[..n]);
      SetPropertyWellFormed(SetProperties(s, ps[..n]), ps[n]);
    }
  }

  /** The `properties` listing: every category's properties, category by category. */
  function AllProperties(s: Store): seq<Property>
  {
    if s == [] then [] else ValuesOf(s[0].1) + AllProperties(s[1..])
  }

  /** The listing holds exactly the stored properties. */
  lemma {:induction false} AllPropertiesExact(s: Store, p: Property)
    requires WellFormed(s)
    ensures p in AllProperties(s) <==> Find(s, p.category, p.key) == Some(p)
  {
    if s != [] {
      var rest := s[1..];
      assert WellFormed(rest) by {
        assert s == [s[0]] + rest;
        ValidCons(s[0], rest);
        forall i | 0 <= i < |rest| ensures Valid(rest[i].1) && CategoryHolds(rest[i].0, rest[i].1) {
          assert rest[i] == s[i + 1];
        }
      }
      AllPropertiesExact(rest, p);
      assert s == [s[0]] + rest;
      ValidCons(s[0], rest);
      GetConsAll(s[0], rest);
      var vs := ValuesOf(s[0].1);
      assert Valid(s[0].1) && CategoryHolds(s[0].0, s[0].1);
      if p in vs {
        var j :| 0 <= j < |vs| && vs[j] == p;
        GetEntry(s[0].1, j);
      }
      if s[0].0 == p.category && Find(s, p.category, p.key) == Some(p) {
        var j := KeyEntry(s[0].1, p.key);
        GetEntry(s[0].1, j);
        assert vs[j] == p;
      }
    }
  }

  /** `get_property(key, category)`: an absent category raises KeyError, an
      absent key in an existing category gives None. */
  function GetProperty(s: Store, key: string, category: string): (r: Result<Option<Property>, Error>)
    ensures r.Err? <==> category !in Keys(s)
    ensures r.Ok? ==> r.value == Find(s, category, key)
  {
    match Get(s, category)
    case None => Err(KeyError(Str(category)))
    case Some(entries) => Ok(Get(entries, key))
  }

  /** What `remove_property` leaves behind: the store pushed to the server
      (with the removed property's value blanked) when the key was present,
      the local store afterwards, and the error `update_properties` raised,
      if any. */
  datatype Removal = Removal(pushed: Option<Store>, store: Store, raised: Option<Error>)

  /** `remove_property(key, category)`: only a present key is removed.  Its
      value is blanked in place, the blanked store is pushed to the server
      (`update`, the answer of `update_properties`), and only when that
      succeeds is the entry dropped locally; a failing push leaves the
      blanked property in the store and raises. */
  function RemoveProperty(s: Store, key: string, category: string, update: Store -> Option<Error>): (r: Result<Removal, Error>)
    ensures r.Err? <==> category !in Keys(s)
    ensures r.Err? ==> r.error == KeyError(Str(category))
    ensures r.Ok? ==> (r.value.pushed.Some? <==> Find(s, category, key).Some?)
    ensures r.Ok? && r.value.pushed.Some? ==>
              Find(r.value.pushed.value, category, key) == Some(Find(s, category, key).value.(value := Str("")))
    ensures r.Ok? ==> r.value.raised == if r.value.pushed.Some? then update(r.value.pushed.value) else None
    ensures r.Ok? && r.value.raised.None? ==> Find(r.value.store, category, key) == None
    ensures r.Ok? && r.value.raised.Some? ==> r.value.store == r.value.pushed.value
    ensures r.Ok? ==> forall c, k :: c != category || k != key ==> Find(r.value.store, c, k) == Find(s, c, k)
    ensures r.Ok? && Find(s, category, key).None? ==> r.value.store == s
  {
    match Get(s, category)
    case None => Err(KeyError(Str(category)))
    case Some(entries) =>
      match Get(entries, key)
      case None =>
        PutSame(s, category, entries);
        Ok(Removal(None, s, None))
      case Some(p) =>
        var blanked := Put(s, category, Put(entries, key, p.(value := Str(""))));
        match update(blanked)
        case Some(e) => Ok(Removal(Some(blanked), blanked, Some(e)))
        case None => Ok(Removal(Some(blanked), Put(s, category, Pop(entries, key)), None))
  }

  // ---------------------------------------------------------------------------
  // Parsing the `properties` block of a wire record
  // ---------------------------------------------------------------------------

  /** `for x in v`: a list yields its items, a string its characters, a dict its keys. */
  function Iterate(v: Value): (r: Result<seq<Value>, Error>)
    ensures r.Ok? <==> v.List? || v.Str? || v.Obj?
    ensures v.List? ==> r == Ok(v.items)
    ensures v.Str? ==> r.Ok? && |r.value| == |v.s|
    ensures v.Obj? ==> r.Ok? && |r.value| == |v.fields|
  {
    match v
    case List(xs) => Ok(xs)
    case Str(s) => Ok(seq(|s|, i requires 0 <= i < |s| => Str([s[i]])))
    case Obj(fs) => Ok(seq(|fs|, i requires 0 <= i < |fs| => Str(fs[i].0)))
    case _ => Err(TypeError("object is not iterable"))
  }

  /** One element of the block: a flat property record carrying its own
      `category`, or a `{category, properties: [...]}` group.  Anything that
      is not a dict fails on `entry['category']`. */
  function ParseEntry(s: Store, entry: Value, conv: Conversions): (r: Result<Store, Error>)
    ensures r.Ok? ==> Keys(s) <= Keys(r.value)
    ensures !entry.Obj? ==> r.Err?
  {
    if !entry.Obj? then Err(TypeError("entry is not a dict"))
    else
      var category :- Lookup(entry, "category");
      match Get(entry.fields, "properties")
      case None =>
        var p :- PropertyFromDict(entry, category, conv);
        Ok(SetProperty(s, p))
      case Some(group) =>
        var members :- Iterate(group);
        ParseGroup(s, category, members, conv)
  }

  /** The members of one group, all filed under the group's category. */
  function ParseGroup(s: Store, category: Value, members: seq<Value>, conv: Conversions): (r: Result<Store, Error>)
    ensures members == [] ==> r == Ok(s)
    ensures r.Ok? && members != [] ==> category.Str? && Keys(r.value) == Keys(s) + {category.s}
    decreases |members|
  {
    if members == [] then Ok(s)
    else
      var p :- PropertyFromDict(members[0], category, conv);
      ParseGroup(SetProperty(s, p), category, members[1..], conv)
  }

  /** The elements of the block, in order. */
  function ParseEntries(s: Store, entries: seq<Value>, conv: Conversions): (r: Result<Store, Error>)
    ensures r.Ok? ==> Keys(s) <= Keys(r.value)
    decreases |entries|
  {
    if entries == [] then Ok(s)
    else
      var s' :- ParseEntry(s, entries[0], conv);
      ParseEntries(s', entries[1..], conv)
  }

  /** `for entry in data['properties']: ...` */
  function ParseBlock(s: Store, block: Value, conv: Conversions): (r: Result<Store, Error>)
    ensures r.Ok? ==> Keys(s) <= Keys(r.value)
  {
    var entries :- Iterate(block);
    ParseEntries(s, entries, conv)
  }

  /** Parsing a concatenation is parsing the first part, then the second from where it left off. */
  lemma {:induction false} ParseEntriesAppend(s: Store, a: seq<Value>, b: seq<Value>, conv: Conversions)
    ensures ParseEntries(s, a + b, conv) ==
              match ParseEntries(s, a, conv)
              case Err(e) => Err(e)
              case Ok(s') => ParseEntries(s', b, conv)
    decreases |a|
  {
    if a == [] {
      assert a + b == b;
    } else {
      assert (a + b)[0] == a[0];
      assert (a + b)[1..] == a[1..] + b;
      match ParseEntry(s, a[0], conv)
      case Err(e) =>
      case Ok(s1) =>
        ParseEntriesAppend(s1, a[1..], b, conv);
    }
  }

  /** A group of property records under one category. */
  datatype Group = Group(category: Value, members: seq<Value>)

  /** A member that may be written flat: a dict without a `properties` key. */
  predicate FlatMember(e: Value)
  {
    e.Obj? && "properties" !in Keys(e.fields)
  }

  /** The group written as one nested entry. */
  function NestedEntry(g: Group): Value
  {
    Obj([("category", g.category), ("properties", List(g.members))])
  }

  /** A member written flat, carrying the group's category itself. */
  function FlatEntry(e: Value, category: Value): Value
    requires FlatMember(e)
  {
    Obj(Put(e.fields, "category", category))
  }

  function FlatGroup(g: Group): seq<Value>
    requires forall i :: 0 <= i < |g.members| ==> FlatMember(g.members[i])
  {
    seq(|g.members|, i requires 0 <= i < |g.members| => FlatEntry(g.members[i], g.category))
  }

  predicate Flattenable(groups: seq<Group>)
  {
    forall i, j :: 0 <= i < |groups| && 0 <= j < |groups[i].members| ==> FlatMember(groups[i].members[j])
  }

  /** The block written as nested groups. */
  function Nested(groups: seq<Group>): seq<Value>
  {
    seq(|groups|, i requires 0 <= i < |groups| => NestedEntry(groups[i]))
  }

  /** The same block written flat, group after group. */
  function Flat(groups: seq<Group>): seq<Value>
    requires Flattenable(groups)
  {
    if groups == [] then []
    else
      assert forall j :: 0 <= j < |groups[0].members| ==> FlatMember(groups[0].members[j]);
      FlatGroup(groups[0]) + Flat(groups[1..])
  }

  /** A flat property record and its nested counterpart parse to the same store. */
  lemma FlatEntryParses(s: Store, e: Value, category: Value, conv: Conversions)
    requires FlatMember(e)
    ensures ParseEntry(s, FlatEntry(e, category), conv) ==
              match PropertyFromDict(e, category, conv)
              case Err(err) => Err(err)
              case Ok(p) => Ok(SetProperty(s, p))
  {
    var f := FlatEntry(e, category);
    assert Lookup(f, "category") == Ok(category);
    assert Get(f.fields, "properties") == None;
    FlatEntryFields(e, category);
    assert PropertyFromDict(f, category, conv) == PropertyFromDict(e, category, conv);
  }

  /** Adding `category` to a record leaves the fields `from_dict` reads untouched. */
  lemma FlatEntryFields(e: Value, category: Value)
    requires FlatMember(e)
    ensures Lookup(FlatEntry(e, category), "key") == Lookup(e, "key")
    ensures Lookup(FlatEntry(e, category), "value") == Lookup(e, "value")
    ensures Lookup(FlatEntry(e, category), "fixed") == Lookup(e, "fixed")
    ensures Lookup(FlatEntry(e, category), "hidden") == Lookup(e, "hidden")
    ensures Lookup(FlatEntry(e, category), "dataType") == Lookup(e, "dataType")
  {
    PutOtherLookup(e, category, "key");
    PutOtherLookup(e, category, "value");
    PutOtherLookup(e, category, "fixed");
    PutOtherLookup(e, category, "hidden");
    PutOtherLookup(e, category, "dataType");
  }

  /** Setting `category` leaves every field `from_dict` reads as it was. */
  lemma PutOtherLookup(e: Value, category: Value, key: string)
    requires e.Obj? && key in {"key", "value", "fixed", "hidden", "dataType"}
    ensures Lookup(Obj(Put(e.fields, "category", category)), key) == Lookup(e, key)
  {
    assert key != "category";
  }

  /** The flat members of one group parse like the group. */
  lemma {:induction false} FlatGroupParses(s: Store, g: Group, conv: Conversions)
    requires forall j :: 0 <= j < |g.members| ==> FlatMember(g.members[j])
    ensures ParseEntries(s, FlatGroup(g), conv) == ParseGroup(s, g.category, g.members, conv)
    decreases |g.members|
  {
    if g.members != [] {
      var rest := Group(g.category, g.members[1..]);
      FlatGroupCons(g);
      FlatEntryParses(s, g.members[0], g.category, conv);
      match PropertyFromDict(g.members[0], g.category, conv)
      case Err(e) =>
      case Ok(p) =>
        FlatGroupParses(SetProperty(s, p), rest, conv);
    }
  }

  lemma FlatGroupCons(g: Group)
    requires forall j :: 0 <= j < |g.members| ==> FlatMember(g.members[j])
    requires g.members != []
    ensures FlatGroup(g)[0] == FlatEntry(g.members[0], g.category)
    ensures FlatGroup(g)[1..] == FlatGroup(Group(g.category, g.members[1..]))
  {
    var rest := Group(g.category, g.members[1..]);
    assert |FlatGroup(g)[1..]| == |FlatGroup(rest)|;
    forall i | 0 <= i < |FlatGroup(rest)| ensures FlatGroup(g)[1..][i] == FlatGroup(rest)[i] {
      assert g.members[1..][i] == g.members[i + 1];
    }
  }

  /** A nested entry parses as its group. */
  lemma NestedEntryParses(s: Store, g: Group, conv: Conversions)
    ensures ParseEntry(s, NestedEntry(g), conv) == ParseGroup(s, g.category, g.members, conv)
  {
    var f := NestedEntry(g).fields;
    GetAt(f, "category", 0);
    assert f[0].0 == "category" && "category" != "properties";
    GetAt(f, "properties", 1);
  }

  /** A `properties` block gives the same store whether its records are
      listed flat, each carrying its category, or grouped under
      `{category, properties}` entries. */
  lemma {:induction false} FlatEqualsNested(s: Store, groups: seq<Group>, conv: Conversions)
    requires Flattenable(groups)
    ensures ParseEntries(s, Flat(groups), conv) == ParseEntries(s, Nested(groups), conv)
    decreases |groups|
  {
    if groups != [] {
      var g := groups[0];
      var rest := groups[1..];
      assert Flattenable(rest) by {
        forall i, j | 0 <= i < |rest| && 0 <= j < |rest[i].members| ensures FlatMember(rest[i].members[j]) {
          assert rest[i] == groups[i + 1];
        }
      }
      assert forall j :: 0 <= j < |g.members| ==> FlatMember(g.members[j]);
      assert Flat(groups) == FlatGroup(g) + Flat(rest);
      assert Nested(groups) == [NestedEntry(g)] + Nested(rest);
      ParseEntriesAppend(s, FlatGroup(g), Flat(rest), conv);
      FlatGroupParses(s, g, conv);
      NestedEntryParses(s, g, conv);
      match ParseGroup(s, g.category, g.members, conv)
      case Err(e) =>
      case Ok(s1) =>
        FlatEqualsNested(s1, rest, conv);
    }
  }
}

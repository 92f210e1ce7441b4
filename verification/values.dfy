/** Python values as they arrive in decoded wire records (JSON) and as they
    are stored in instance attributes.  `Null` is Python's `None`; objects
    keep their keys in insertion order. */
module Values {
  import opened Outcomes
  import opened PyDict

  datatype Value =
    | Null
    | Bool(b: bool)
    | Int(i: int)
    | Str(s: string)
    | List(items: seq<Value>)
    | Obj(fields: Dict<string, Value>)

  /** Python truthiness: `None`, `False`, `0`, and empty strings, lists and dicts are false. */
  predicate Truthy(v: Value)
  {
    match v
    case Null => false
    case Bool(b) => b
    case Int(i) => i != 0
    case Str(s) => s != ""
    case List(xs) => xs != []
    case Obj(fs) => fs != []
  }

  /** `obj.get(key)` on a decoded record; anything that is not a dict has no keys. */
  function Field(v: Value, key: string): Option<Value>
  {
    if v.Obj? then Get(v.fields, key) else None
  }

  /** A field of a record is a strictly smaller value than the record, so
      functions may recurse into nested records. */
  lemma FieldSmaller(v: Value, key: string)
    requires Field(v, key).Some?
    ensures Field(v, key).value < v
  {
    var fs := v.fields;
    var i := KeyEntry(fs, key);
    GetFirst(fs, key, i);
    assert fs[i].1 < fs[i];
  }

  /** `Get` returns the first entry with the key; in particular a value that sits in an entry with that key. */
  lemma GetFirst(fs: Dict<string, Value>, key: string, i: nat)
    requires i < |fs| && fs[i].0 == key
    ensures exists j :: 0 <= j <= i && Get(fs, key) == Some(fs[j].1) && fs[j].0 == key
  {
    if fs[0].0 != key {
      assert fs[1..][i - 1] == fs[i];
      GetFirst(fs[1..], key, i - 1);
      var j :| 0 <= j <= i - 1 && Get(fs[1..], key) == Some(fs[1..][j].1) && fs[1..][j].0 == key;
      assert fs[1..][j] == fs[j + 1];
    }
  }
}

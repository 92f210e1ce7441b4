/** The field reconciler of `BaseNode.from_dict`: every key of a wire record
    is mapped to the name of a constructor argument by trying three
    rewritings in a fixed order, falling back to the key itself.  The set of
    accepted names is a parameter here; the per-variant tables live in
    `Variants`. */
module Reconcile {
  import opened Outcomes
  import opened PyDict
  import opened Values
  import opened Text

  /** `re.sub('[A-Z]', lambda x: '_' + x.group(0).lower(), k)`: every capital
      becomes an underscore followed by its lower-case letter. */
  function CamelKey(k: string): (r: string)
    ensures NoUpper(r)
  {
    if k == [] then []
    else (if IsUpper(k[0]) then ['_', LowerChar(k[0])] else [k[0]]) + CamelKey(k[1..])
  }

  /** `re.sub('[0-9]', lambda x: x.group(0) + '_', k)`: an underscore after
      every digit (not after every run of digits). */
  function DigitKey(k: string): string
  {
    if k == [] then []
    else (if IsDigit(k[0]) then [k[0], '_'] else [k[0]]) + DigitKey(k[1..])
  }

  /** The local name a wire key binds to: the first rewriting that is an
      accepted name wins, otherwise the key is kept verbatim. */
  function ReconcileKey(accepted: set<string>, k: string): (r: string)
    ensures r in accepted || r == k
    ensures !(Lower(k) in accepted || CamelKey(k) in accepted || DigitKey(k) in accepted) ==> r == k
    ensures Lower(k) in accepted ==> r == Lower(k)
    ensures Lower(k) !in accepted && CamelKey(k) in accepted ==> r == CamelKey(k)
    ensures Lower(k) !in accepted && CamelKey(k) !in accepted && DigitKey(k) in accepted ==> r == DigitKey(k)
  {
    var lower := Lower(k);
    var camel := CamelKey(k);
    var digits := DigitKey(k);
    if lower in accepted then lower
    else if camel in accepted then camel
    else if digits in accepted then digits
    else k
  }

  /** The keyword arguments built from the wire entries, in order; a later
      entry whose key reconciles to the same name overwrites an earlier one. */
  function Reconciled(accepted: set<string>, entries: Dict<string, Value>): (r: Dict<string, Value>)
    ensures Keys(r) == set k | k in Keys(entries) :: ReconcileKey(accepted, k)
  {
    Rekeyed(k => ReconcileKey(accepted, k), entries)
  }

  /** Entries re-inserted in order under the keys `f` gives them, a later
      entry overwriting an earlier one that lands on the same key. */
  function Rekeyed(f: string -> string, entries: Dict<string, Value>): (r: Dict<string, Value>)
    ensures Keys(r) == set k | k in Keys(entries) :: f(k)
    decreases |entries|
  {
    if entries == [] then []
    else
      var n := |entries| - 1;
      var prefix := entries[..n];
      assert entries == prefix + [entries[n]];
      KeysAppend(prefix, [entries[n]]);
      KeysCons(entries[n], []);
      assert [entries[n]] == [entries[n]] + [];
      Put(Rekeyed(f, prefix), f(entries[n].0), entries[n].1)
  }

  /** The keyword arguments of `from_dict`: `id` is popped from the content
      first, and every other key is reconciled. */
  function Kwargs(accepted: set<string>, content: Dict<string, Value>): Dict<string, Value>
  {
    Reconciled(accepted, Pop(content, "id"))
  }

  /** Deleting the underscores of a text. */
  function Strip(s: string): string
  {
    if s == [] then [] else (if s[0] == '_' then [] else [s[0]]) + Strip(s[1..])
  }

  lemma StripConcat(a: string, b: string)
    ensures Strip(a + b) == Strip(a) + Strip(b)
  {
    if a != [] {
      assert (a + b)[1..] == a[1..] + b;
      StripConcat(a[1..], b);
    } else {
      assert a + b == b;
    }
  }

  // ---------------------------------------------------------------------------
  // Properties of the rewritings
  // ---------------------------------------------------------------------------

  /** The camelCase rewriting only lower-cases capitals and inserts
      underscores: without underscores it is the lower-cased key. */
  lemma {:induction false} CamelKeyIsLowerPlusUnderscores(k: string)
    ensures Strip(CamelKey(k)) == Strip(Lower(k))
  {
    if k != [] {
      var head := if IsUpper(k[0]) then ['_', LowerChar(k[0])] else [k[0]];
      assert CamelKey(k) == head + CamelKey(k[1..]);
      assert Lower(k) == [LowerChar(k[0])] + Lower(k[1..]);
      StripConcat(head, CamelKey(k[1..]));
      StripConcat([LowerChar(k[0])], Lower(k[1..]));
      CamelKeyIsLowerPlusUnderscores(k[1..]);
    }
  }

  /** The digit rewriting keeps every character of the key and puts an
      underscore right after each digit. */
  lemma {:induction false} DigitKeyShape(k: string)
    ensures Strip(DigitKey(k)) == Strip(k)
    ensures |DigitKey(k)| >= |k|
    ensures forall i :: 0 <= i < |DigitKey(k)| && IsDigit(DigitKey(k)[i]) ==> i + 1 < |DigitKey(k)| && DigitKey(k)[i + 1] == '_'
  {
    if k != [] {
      var head := if IsDigit(k[0]) then [k[0], '_'] else [k[0]];
      DigitKeyCons(k[0], k[1..]);
      assert k == [k[0]] + k[1..];
      StripConcat(head, DigitKey(k[1..]));
      StripConcat([k[0]], k[1..]);
      DigitKeyShape(k[1..]);
    }
    DigitKeyUnderscores(k);
  }

  /** The underscore half of `DigitKeyShape`. */
  lemma {:induction false} DigitKeyUnderscores(k: string)
    ensures forall i :: 0 <= i < |DigitKey(k)| && IsDigit(DigitKey(k)[i]) ==> i + 1 < |DigitKey(k)| && DigitKey(k)[i + 1] == '_'
  {
    if k != [] {
      var head := if IsDigit(k[0]) then [k[0], '_'] else [k[0]];
      var rest := DigitKey(k[1..]);
      var r := DigitKey(k);
      DigitKeyCons(k[0], k[1..]);
      assert k == [k[0]] + k[1..];
      assert r == head + rest;
      DigitKeyUnderscores(k[1..]);
      forall i | 0 <= i < |r| && IsDigit(r[i]) ensures i + 1 < |r| && r[i + 1] == '_' {
        if i >= |head| {
          assert r[i] == rest[i - |head|];
          assert r[i + 1] == rest[i + 1 - |head|];
        }
      }
    }
  }

  /** A key without capitals or digits is left as it is by all three rewritings. */
  lemma {:induction false} PlainKeyRewritings(k: string)
    requires NoUpper(k) && forall i :: 0 <= i < |k| ==> !IsDigit(k[i])
    ensures Lower(k) == k && CamelKey(k) == k && DigitKey(k) == k
  {
    LowerFixed(k);
    if k != [] {
      assert forall i :: 0 <= i < |k[1..]| ==> k[1..][i] == k[i + 1];
      PlainKeyRewritings(k[1..]);
      assert k == [k[0]] + k[1..];
    }
  }

  /** Such a key therefore always binds to itself, accepted or not. */
  lemma PlainKeyKept(accepted: set<string>, k: string)
    requires NoUpper(k) && forall i :: 0 <= i < |k| ==> !IsDigit(k[i])
    ensures ReconcileKey(accepted, k) == k
  {
    PlainKeyRewritings(k);
  }

  /** The camelCase rewriting works character by character. */
  lemma {:induction false} CamelKeyAppend(a: string, b: string)
    ensures CamelKey(a + b) == CamelKey(a) + CamelKey(b)
  {
    if a == [] {
      assert a + b == b;
    } else {
      assert (a + b)[1..] == a[1..] + b;
      CamelKeyAppend(a[1..], b);
    }
  }

  /** The digit rewriting works character by character. */
  lemma {:induction false} DigitKeyAppend(a: string, b: string)
    ensures DigitKey(a + b) == DigitKey(a) + DigitKey(b)
  {
    if a == [] {
      assert a + b == b;
    } else {
      assert (a + b)[1..] == a[1..] + b;
      DigitKeyAppend(a[1..], b);
    }
  }

  // The three rewritings on the keys the file variant is sent.

  lemma CamelS3KeyRewritings()
    ensures Lower("s3Key") == "s3key" && CamelKey("s3Key") == "s3_key"
  {
    var k := ['s'] + (['3'] + (['K'] + "ey"));
    assert k == "s3Key";
    PlainKeyRewritings("ey");
    CamelKeyCons('K', "ey");
    CamelKeyCons('3', ['K'] + "ey");
    CamelKeyCons('s', ['3'] + (['K'] + "ey"));
    assert CamelKey(k) == "s3_key";
    assert Lower(k) == "s3key";
  }

  lemma LowerS3KeyRewritings()
    ensures Lower("s3key") == "s3key" && CamelKey("s3key") == "s3key" && DigitKey("s3key") == "s3_key"
  {
    var k := ['s'] + (['3'] + "key");
    assert k == "s3key";
    PlainKeyRewritings("key");
    CamelKeyCons('3', "key");
    CamelKeyCons('s', ['3'] + "key");
    assert CamelKey(k) == "s3key";
    DigitKeyCons('3', "key");
    DigitKeyCons('s', ['3'] + "key");
    assert DigitKey(k) == "s3_key";
    assert Lower(k) == "s3key";
  }

  /** One step of the camelCase rewriting on a key's first character. */
  lemma CamelKeyCons(c: char, t: string)
    ensures CamelKey([c] + t) == (if IsUpper(c) then ['_', LowerChar(c)] else [c]) + CamelKey(t)
  {
    assert ([c] + t)[1..] == t;
  }

  /** One step of the digit rewriting on a key's first character. */
  lemma DigitKeyCons(c: char, t: string)
    ensures DigitKey([c] + t) == (if IsDigit(c) then [c, '_'] else [c]) + DigitKey(t)
  {
    assert ([c] + t)[1..] == t;
  }

  lemma CapitalS3KeyRewritings()
    ensures Lower("S3Key") == "s3key" && CamelKey("S3Key") == "_s3_key" && DigitKey("S3Key") == "S3_Key"
  {
    var k := ['S'] + (['3'] + (['K'] + "ey"));
    assert k == "S3Key";
    PlainKeyRewritings("ey");
    CamelKeyCons('K', "ey");
    CamelKeyCons('3', ['K'] + "ey");
    CamelKeyCons('S', ['3'] + (['K'] + "ey"));
    assert CamelKey(k) == "_s3_key";
    DigitKeyCons('K', "ey");
    DigitKeyCons('3', ['K'] + "ey");
    DigitKeyCons('S', ['3'] + (['K'] + "ey"));
    assert DigitKey(k) == "S3_Key";
    assert Lower(k) == "s3key";
  }

  lemma ETagRewritings()
    ensures Lower("eTag") == "etag" && CamelKey("eTag") == "e_tag" && DigitKey("eTag") == "eTag"
  {
    var k := ['e'] + (['T'] + "ag");
    assert k == "eTag";
    PlainKeyRewritings("ag");
    CamelKeyCons('T', "ag");
    CamelKeyCons('e', ['T'] + "ag");
    assert CamelKey(k) == "e_tag";
    DigitKeyCons('T', "ag");
    DigitKeyCons('e', ['T'] + "ag");
    assert DigitKey(k) == "eTag";
    assert Lower(k) == "etag";
  }

  /** Reconciliation is idempotent when every accepted name is lower case:
      a name it produced reconciles to itself. */
  lemma ReconcileIdempotent(accepted: set<string>, k: string)
    requires forall a :: a in accepted ==> Lower(a) == a
    ensures ReconcileKey(accepted, ReconcileKey(accepted, k)) == ReconcileKey(accepted, k)
  {
  }

  /** Which local names the keyword arguments hold: the literal `id` key never
      contributes, so `id` is among them only when some other wire key
      (`ID`, `Id`, ...) reconciles to it. */
  lemma KwargsKeys(accepted: set<string>, content: Dict<string, Value>)
    ensures Keys(Kwargs(accepted, content)) == set k | k in Keys(content) && k != "id" :: ReconcileKey(accepted, k)
    ensures "id" in Keys(Kwargs(accepted, content)) <==>
              exists k :: k in Keys(content) && k != "id" && ReconcileKey(accepted, k) == "id"
  {
    var popped := Pop(content, "id");
    assert Keys(popped) == Keys(content) - {"id"};
    var s := set k | k in Keys(popped) :: ReconcileKey(accepted, k);
    assert Keys(Kwargs(accepted, content)) == s;
    if "id" in s {
      var k :| k in Keys(popped) && ReconcileKey(accepted, k) == "id";
      assert k in Keys(content) && k != "id";
    }
  }

  /** When no two wire keys reconcile to the same name, each value lands
      under its key's reconciled name unchanged. */
  lemma ReconciledValue(accepted: set<string>, entries: Dict<string, Value>, k: string)
    requires Valid(entries) && k in Keys(entries)
    requires forall j :: j in Keys(entries) && j != k ==> ReconcileKey(accepted, j) != ReconcileKey(accepted, k)
    ensures Get(Reconciled(accepted, entries), ReconcileKey(accepted, k)) == Get(entries, k)
  {
    var f := k => ReconcileKey(accepted, k);
    forall j | j in Keys(entries) && j != k ensures f(j) != f(k) {
    }
    RekeyedValue(f, entries, k);
  }

  /** The same for any renaming of the keys. */
  lemma {:induction false} RekeyedValue(f: string -> string, entries: Dict<string, Value>, k: string)
    requires Valid(entries) && k in Keys(entries)
    requires forall j :: j in Keys(entries) && j != k ==> f(j) != f(k)
    ensures Get(Rekeyed(f, entries), f(k)) == Get(entries, k)
    decreases |entries|
  {
    var n := |entries| - 1;
    var prefix := entries[..n];
    var last := entries[n];
    RekeyedSnoc(f, entries);
    GetSnoc(entries, k);
    if last.0 != k {
      RekeyedValue(f, prefix, k);
    }
  }

  /** Unfolds `Rekeyed` on its last entry. */
  lemma RekeyedSnoc(f: string -> string, entries: Dict<string, Value>)
    requires entries != []
    ensures var n := |entries| - 1;
      Rekeyed(f, entries) == Put(Rekeyed(f, entries[..n]), f(entries[n].0), entries[n].1)
  {
  }

  /** Looking a key up in a well-formed dictionary split before its last entry. */
  lemma GetSnoc(d: Dict<string, Value>, k: string)
    requires Valid(d) && d != []
    ensures var n := |d| - 1;
      && Valid(d[..n])
      && Keys(d) == Keys(d[..n]) + {d[n].0}
      && d[n].0 !in Keys(d[..n])
      && Get(d, k) == if d[n].0 == k then Some(d[n].1) else Get(d[..n], k)
  {
    var n := |d| - 1;
    var prefix := d[..n];
    var last := d[n];
    ValidPrefix(d, n);
    assert d == prefix + [last];
    KeysAppend(prefix, [last]);
    KeysCons(last, []);
    assert [last] == [last] + [];
    GetAppendLast(prefix, last, k);
  }

  lemma ValidPrefix(d: Dict<string, Value>, n: nat)
    requires Valid(d) && n <= |d|
    ensures Valid(d[..n])
    ensures n < |d| ==> d[n].0 !in Keys(d[..n])
  {
    if n < |d| {
      forall x | x in Keys(d[..n]) ensures x != d[n].0 {
        var i := KeyEntry(d[..n], x);
        assert d[..n][i] == d[i];
      }
    }
  }

  lemma GetAppendLast(d: Dict<string, Value>, e: (string, Value), k: string)
    requires e.0 !in Keys(d) || e.0 != k
    ensures Get(d + [e], k) == if k in Keys(d) then Get(d, k) else if e.0 == k then Some(e.1) else None
  {
    if d != [] {
      assert (d + [e])[1..] == d[1..] + [e];
      GetAppendLast(d[1..], e, k);
    }
  }
}

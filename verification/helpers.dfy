/** Small pure rules of three variants: the annotation-layer selection of a
    time series, the annotation record, and an organization's default slug. */
module Helpers {
  import opened Outcomes
  import opened PyDict
  import opened Values
  import opened Errors
  import opened Text
  import opened Nodes

  // ---------------------------------------------------------------------------
  // TimeSeries.get_layer
  // ---------------------------------------------------------------------------

  /** An annotation layer as far as selection is concerned. */
  datatype Layer = Layer(id: Value, name: Value)

  /** The layers whose id equals `x`, in order. */
  function WithId(layers: seq<Layer>, x: Value): (r: seq<Layer>)
    ensures forall l :: l in r <==> l in layers && l.id == x
    ensures |r| <= |layers|
  {
    if layers == [] then []
    else
      var rest := WithId(layers[1..], x);
      assert forall l :: l in layers <==> l == layers[0] || l in layers[1..];
      if layers[0].id == x then [layers[0]] + rest else rest
  }

  /** The layers whose name equals `x`, in order. */
  function WithName(layers: seq<Layer>, x: Value): (r: seq<Layer>)
    ensures forall l :: l in r <==> l in layers && l.name == x
    ensures |r| <= |layers|
  {
    if layers == [] then []
    else
      var rest := WithName(layers[1..], x);
      assert forall l :: l in layers <==> l == layers[0] || l in layers[1..];
      if layers[0].name == x then [layers[0]] + rest else rest
  }

  /** The number of layers with id `x`. */
  function CountId(layers: seq<Layer>, x: Value): nat
  {
    if layers == [] then 0 else (if layers[0].id == x then 1 else 0) + CountId(layers[1..], x)
  }

  /** The number of layers with name `x`. */
  function CountName(layers: seq<Layer>, x: Value): nat
  {
    if layers == [] then 0 else (if layers[0].name == x then 1 else 0) + CountName(layers[1..], x)
  }

  lemma {:induction false} WithIdCount(layers: seq<Layer>, x: Value)
    ensures |WithId(layers, x)| == CountId(layers, x)
  {
    if layers != [] {
      WithIdCount(layers[1..], x);
    }
  }

  lemma {:induction false} WithNameCount(layers: seq<Layer>, x: Value)
    ensures |WithName(layers, x)| == CountName(layers, x)
  {
    if layers != [] {
      WithNameCount(layers[1..], x);
    }
  }

  /** `get_layer(id_or_name)`: the layers of the series (read from the
      platform, a parameter here) are matched by id first and by name only
      when no id matches; exactly one match is required. */
  function GetLayer(ts: Node, layers: seq<Layer>, x: Value): (r: Result<Layer, Error>)
    ensures !Exists(ts) ==> r == Err(NotCreated)
    ensures Exists(ts) ==>
      (r.Ok? <==> CountId(layers, x) == 1 || (CountId(layers, x) == 0 && CountName(layers, x) == 1))
    ensures Exists(ts) && CountId(layers, x) == 0 && CountName(layers, x) == 0 ==> r == Err(NoLayerMatch)
    ensures Exists(ts) && (CountId(layers, x) > 1 || (CountId(layers, x) == 0 && CountName(layers, x) > 1)) ==>
              r == Err(ManyLayersMatch)
    ensures r.Ok? ==> r.value in layers
    ensures r.Ok? ==> r.value.id == x || (r.value.name == x && forall l :: l in layers ==> l.id != x)
  {
    var _ :- CheckExists(ts);
    WithIdCount(layers, x);
    WithNameCount(layers, x);
    var byId := WithId(layers, x);
    var matches := if |byId| == 0 then WithName(layers, x) else byId;
    if |matches| == 0 then Err(NoLayerMatch)
    else if |matches| > 1 then Err(ManyLayersMatch)
    else
      assert matches[0] in matches;
      Ok(matches[0])
  }

  /** An id match wins over name matches: the layer whose id is `x` is
      selected even when other layers are named `x`. */
  lemma IdBeatsName(ts: Node, layers: seq<Layer>, x: Value, i: nat)
    requires Exists(ts) && i < |layers| && layers[i].id == x
    requires forall j :: 0 <= j < |layers| && j != i ==> layers[j].id != x
    ensures GetLayer(ts, layers, x) == Ok(layers[i])
  {
    OnlyOne(layers, x, i);
    WithIdCount(layers, x);
    var byId := WithId(layers, x);
    assert layers[i] in byId;
    assert byId[0] in byId;
  }

  lemma {:induction false} OnlyOne(layers: seq<Layer>, x: Value, i: nat)
    requires i < |layers| && layers[i].id == x
    requires forall j :: 0 <= j < |layers| && j != i ==> layers[j].id != x
    ensures CountId(layers, x) == 1
  {
    if i == 0 {
      NoneWithId(layers[1..], x);
    } else {
      assert layers[0].id != x;
      forall j | 0 <= j < |layers[1..]| && j != i - 1 ensures layers[1..][j].id != x {
        assert layers[1..][j] == layers[j + 1];
      }
      OnlyOne(layers[1..], x, i - 1);
    }
  }

  lemma {:induction false} NoneWithId(layers: seq<Layer>, x: Value)
    requires forall j :: 0 <= j < |layers| ==> layers[j].id != x
    ensures CountId(layers, x) == 0
  {
    if layers != [] {
      assert forall j :: 0 <= j < |layers[1..]| ==> layers[1..][j] == layers[j + 1];
      NoneWithId(layers[1..], x);
    }
  }

  // ---------------------------------------------------------------------------
  // TimeSeriesAnnotation
  // ---------------------------------------------------------------------------

  /** An annotation on one or more channels of a series. */
  datatype Annotation = Annotation(
    name: Value, labelText: Value, channelIds: Value, start: Value, end: Value,
    description: Value, layerId: Value, timeSeriesId: Value)

  /** `TimeSeriesAnnotation.__init__`: the `name` argument is accepted but
      the instance's name is always the empty string. */
  function NewAnnotation(labelText: Value, channelIds: Value, start: Value, end: Value, name: Value,
                         layerId: Value, timeSeriesId: Value, description: Value): (r: Annotation)
    ensures r.name == Str("")
    ensures r.labelText == labelText && r.channelIds == channelIds && r.start == start && r.end == end
    ensures r.layerId == layerId && r.timeSeriesId == timeSeriesId && r.description == description
  {
    Annotation(Str(""), labelText, channelIds, start, end, description, layerId, timeSeriesId)
  }

  /** The channel ids as a list: a single id is wrapped. */
  function ChannelList(v: Value): (r: Value)
    ensures r.List?
    ensures v.List? ==> r == v
    ensures !v.List? ==> r == List([v])
  {
    if v.List? then v else List([v])
  }

  /** `as_dict`: the eight fields under their wire names, channel ids always
      a list. The keys are `AnnotationKeys`, in order and pairwise distinct. */
  function AnnotationAsDict(a: Annotation): (r: Value)
    ensures r.Obj? && |r.fields| == 8
    ensures forall i :: 0 <= i < |r.fields| ==> r.fields[i].0 == AnnotationKeys[i]
    ensures Valid(r.fields)
    ensures Get(r.fields, "name") == Some(a.name) && Get(r.fields, "label") == Some(a.labelText)
    ensures Get(r.fields, "channelIds") == Some(ChannelList(a.channelIds))
    ensures Get(r.fields, "start") == Some(a.start) && Get(r.fields, "end") == Some(a.end)
    ensures Get(r.fields, "description") == Some(a.description)
    ensures Get(r.fields, "layer_id") == Some(a.layerId) && Get(r.fields, "time_series_id") == Some(a.timeSeriesId)
  {
    var vs := [a.name, a.labelText, ChannelList(a.channelIds), a.start, a.end, a.description, a.layerId, a.timeSeriesId];
    KeyedLookups(vs);
    Obj(Keyed(vs))
  }

  /** The keys of an annotation record, in the order `as_dict` writes them. */
  const AnnotationKeys: seq<string> :=
    ["name", "label", "channelIds", "start", "end", "description", "layer_id", "time_series_id"]

  lemma AnnotationKeysDistinct()
    ensures forall i, j :: 0 <= i < j < |AnnotationKeys| ==> AnnotationKeys[i] != AnnotationKeys[j]
  {
    var ks := AnnotationKeys;
    var lengths := [4, 5, 10, 5, 3, 11, 8, 14];
    assert forall i :: 0 <= i < |ks| ==> |ks[i]| == lengths[i];
    assert ks[1][0] == 'l' && ks[3][0] == 's';
  }

  /** Eight values under `AnnotationKeys`, in order. */
  function Keyed(vs: seq<Value>): (d: Dict<string, Value>)
    requires |vs| == |AnnotationKeys|
  {
    var ks := AnnotationKeys;
    [(ks[0], vs[0]), (ks[1], vs[1]), (ks[2], vs[2]), (ks[3], vs[3]), (ks[4], vs[4]), (ks[5], vs[5]), (ks[6], vs[6]), (ks[7], vs[7])]
  }

  /** Eight values under `AnnotationKeys` form a dictionary in which each
      key finds its own value. */
  lemma KeyedRecord(vs: seq<Value>)
    requires |vs| == |AnnotationKeys|
    ensures var d := Keyed(vs);
      && (forall i :: 0 <= i < |d| ==> d[i] == (AnnotationKeys[i], vs[i]))
      && Valid(d)
      && forall i :: 0 <= i < |d| ==> Get(d, AnnotationKeys[i]) == Some(vs[i])
  {
    var d := Keyed(vs);
    KeyedValid(vs);
    forall i | 0 <= i < |d| ensures Get(d, AnnotationKeys[i]) == Some(vs[i]) {
      GetEntry(d, i);
    }
  }

  /** The same lookups, one wire name at a time. */
  lemma KeyedLookups(vs: seq<Value>)
    requires |vs| == |AnnotationKeys|
    ensures var d := Keyed(vs);
      && (forall i :: 0 <= i < |d| ==> d[i].0 == AnnotationKeys[i])
      && Valid(d)
      && Get(d, "name") == Some(vs[0]) && Get(d, "label") == Some(vs[1]) && Get(d, "channelIds") == Some(vs[2])
      && Get(d, "start") == Some(vs[3]) && Get(d, "end") == Some(vs[4]) && Get(d, "description") == Some(vs[5])
      && Get(d, "layer_id") == Some(vs[6]) && Get(d, "time_series_id") == Some(vs[7])
  {
    KeyedRecord(vs);
    var ks := AnnotationKeys;
    assert ks[0] == "name" && ks[1] == "label" && ks[2] == "channelIds" && ks[3] == "start";
    assert ks[4] == "end" && ks[5] == "description" && ks[6] == "layer_id" && ks[7] == "time_series_id";
  }

  lemma KeyedValid(vs: seq<Value>)
    requires |vs| == |AnnotationKeys|
    ensures forall i :: 0 <= i < |Keyed(vs)| ==> Keyed(vs)[i] == (AnnotationKeys[i], vs[i])
    ensures Valid(Keyed(vs))
  {
    var d := Keyed(vs);
    var ks := AnnotationKeys;
    assert ks == [d[0].0, d[1].0, d[2].0, d[3].0, d[4].0, d[5].0, d[6].0, d[7].0];
    assert vs == [d[0].1, d[1].1, d[2].1, d[3].1, d[4].1, d[5].1, d[6].1, d[7].1];
    AnnotationKeysDistinct();
    ValidByKeys(d, ks);
  }

  /** Wrapping is idempotent: feeding the record's channel list back in
      gives the same record. */
  lemma AnnotationAsDictIdempotent(a: Annotation)
    ensures AnnotationAsDict(a.(channelIds := ChannelList(a.channelIds))) == AnnotationAsDict(a)
  {
  }

  /** The record's channel list contains exactly the annotation's channels:
      the list itself, or the single id. */
  lemma AnnotationChannels(a: Annotation, c: Value)
    ensures var l := Get(AnnotationAsDict(a).fields, "channelIds").value.items;
            c in l <==> (if a.channelIds.List? then c in a.channelIds.items else c == a.channelIds)
  {
  }

  // ---------------------------------------------------------------------------
  // Organization
  // ---------------------------------------------------------------------------

  /** `s.replace(' ', '-')`. */
  function Dashed(s: string): (r: string)
    ensures |r| == |s|
    ensures forall i :: 0 <= i < |s| ==> r[i] == if s[i] == ' ' then '-' else s[i]
  {
    seq(|s|, i requires 0 <= i < |s| => if s[i] == ' ' then '-' else s[i])
  }

  /** The slug an organization is given: the one passed in, or else its
      name lower-cased with spaces turned into dashes. */
  function Slug(name: Value, slug: Value): (r: Result<Value, Error>)
    ensures !slug.Null? ==> r == Ok(slug)
    ensures slug.Null? && !name.Str? ==> r == Err(AttributeError("lower"))
    ensures slug.Null? && name.Str? ==> r.Ok? && r.value.Str? && |r.value.s| == |name.s|
    ensures slug.Null? && name.Str? ==>
      forall i :: 0 <= i < |name.s| ==> r.value.s[i] == if name.s[i] == ' ' then '-' else LowerChar(name.s[i])
  {
    if !slug.Null? then Ok(slug)
    else if !name.Str? then Err(AttributeError("lower"))
    else Ok(Str(Dashed(Lower(name.s))))
  }

  /** A default slug has no capitals and no spaces, keeps every other
      character of the name in place, and is its own default slug. */
  lemma DefaultSlugShape(name: string)
    ensures var s := Slug(Str(name), Null).value.s;
      && NoUpper(s)
      && (forall i :: 0 <= i < |s| ==> s[i] != ' ')
      && (forall i :: 0 <= i < |name| && !IsUpper(name[i]) && name[i] != ' ' ==> s[i] == name[i])
      && Slug(Str(s), Null) == Ok(Str(s))
  {
    var s := Slug(Str(name), Null).value.s;
    assert forall i :: 0 <= i < |s| ==> s[i] == if LowerChar(name[i]) == ' ' then '-' else LowerChar(name[i]);
    LowerFixed(s);
    assert Dashed(Lower(s)) == s;
  }

  /** The default slug of "My Org" is "my-org". */
  lemma SlugExample()
    ensures Slug(Str("My Org"), Null) == Ok(Str("my-org"))
    ensures Slug(Str("My Org"), Str("custom")) == Ok(Str("custom"))
  {
    assert Lower("My Org") == "my org";
    assert Dashed("my org") == "my-org";
  }
}

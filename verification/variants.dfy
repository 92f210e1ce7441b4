/** The entity variants a wire record can become, the names each variant's
    construction chain accepts, and the type resolver `get_package_class`. */
module Variants {
  import opened Outcomes
  import opened PyDict
  import opened Values
  import opened Errors
  import opened Text
  import opened Reconcile

  datatype Kind = DatasetKind | CollectionKind | DataPackageKind | TimeSeriesKind | TabularKind | FileKind

  /** Datasets and collections hold a child cache and the `add`/`remove`/`items` operations. */
  predicate IsContainer(k: Kind)
  {
    k == DatasetKind || k == CollectionKind
  }

  // The local names of each `__init__` (arguments and locals), as collected by
  // walking the base classes; `self`, `kwargs` and Dataset's loop variable `k`
  // are among them.
  const BaseNodeArgs: set<string> := {"self", "id"}
  const BaseDataNodeArgs: set<string> :=
    {"self", "name", "type", "parent", "owner_id", "dataset_id", "id", "provenance_id", "kwargs"}
  const BaseCollectionArgs: set<string> := {"self", "name", "package_type", "kwargs"}
  const DataPackageArgs: set<string> := {"self", "name", "package_type", "kwargs"}
  const NameOnlyArgs: set<string> := {"self", "name", "kwargs"}

  /** The accepted field names of a variant: the union over its class and all its bases. */
  function AcceptedFields(kind: Kind): set<string>
  {
    var dataNode := BaseNodeArgs + BaseDataNodeArgs;
    match kind
    case DatasetKind => dataNode + BaseCollectionArgs + {"self", "name", "description", "kwargs", "k"}
    case CollectionKind => dataNode + BaseCollectionArgs + NameOnlyArgs
    case DataPackageKind => dataNode + DataPackageArgs
    case TimeSeriesKind => dataNode + DataPackageArgs + NameOnlyArgs
    case TabularKind => dataNode + DataPackageArgs + NameOnlyArgs
    case FileKind => dataNode + {"self", "name", "s3_key", "s3_bucket", "file_type", "size", "pkg_id", "kwargs"}
  }

  /** The variant a lower-cased type tag selects; every unknown tag gives the generic package. */
  function KindOfTag(tag: string): (r: Kind)
    ensures r == DataPackageKind <==> tag !in {"collection", "timeseries", "tabular", "dataset"}
  {
    if tag == "collection" then CollectionKind
    else if tag == "timeseries" then TimeSeriesKind
    else if tag == "tabular" then TabularKind
    else if tag == "dataset" then DatasetKind
    else DataPackageKind
  }

  /** `data.get('content', data)`: the envelope the type tag is read from. */
  function Envelope(data: Value): Value
  {
    Field(data, "content").GetOr(data)
  }

  /** The `packageType` tag of a record's envelope, if it has one. */
  function Tag(data: Value): Option<Value>
  {
    Field(Envelope(data), "packageType")
  }

  /** `get_package_class`: picks the variant from the `packageType` tag of the
      envelope.  A record without a tag is a Dataset; a tag is matched after
      lower-casing; an unknown tag gives DataPackage.  The errors are the ones
      Python raises on records of the wrong shape. */
  function PackageClass(data: Value): (r: Result<Kind, Error>)
    ensures data.Obj? && Envelope(data).Obj? && Tag(data).None? ==> r == Ok(DatasetKind)
    ensures data.Obj? && Envelope(data).Obj? && Tag(data).Some? && Tag(data).value.Str? ==>
      var tag := Lower(Tag(data).value.s);
      && r.Ok?
      && (r.value == CollectionKind <==> tag == "collection")
      && (r.value == TimeSeriesKind <==> tag == "timeseries")
      && (r.value == TabularKind <==> tag == "tabular")
      && (r.value == DatasetKind <==> tag == "dataset")
      && (r.value == DataPackageKind <==> tag !in {"collection", "timeseries", "tabular", "dataset"})
    ensures r.Ok? ==> r.value != FileKind
    ensures !data.Obj? ==> r.Err?
  {
    if !data.Obj? then Err(AttributeError("get"))
    else
      var content := Envelope(data);
      match content
      case Obj(fields) =>
        (match Get(fields, "packageType")
         case None => Ok(DatasetKind)
         case Some(tag) =>
           if tag.Str? then Ok(KindOfTag(Lower(tag.s))) else Err(AttributeError("lower")))
      case Str(s) =>
        // `in` on a string is a substring test; indexing a string by a key fails
        if Occurs("packageType", s) then Err(TypeError("string indices must be integers")) else Ok(DatasetKind)
      case List(xs) =>
        if Str("packageType") in xs then Err(TypeError("list indices must be integers")) else Ok(DatasetKind)
      case _ => Err(TypeError("argument of type is not iterable"))
  }

  // ---------------------------------------------------------------------------
  // Properties of the resolver
  // ---------------------------------------------------------------------------

  /** Tags that differ only in letter case select the same variant. */
  lemma ResolverIgnoresCase(fields: Dict<string, Value>, tag: string, tag': string)
    requires "content" !in Keys(fields)
    requires Lower(tag) == Lower(tag')
    ensures PackageClass(Obj(Put(fields, "packageType", Str(tag)))) == PackageClass(Obj(Put(fields, "packageType", Str(tag'))))
  {
    TaggedRecord(fields, tag);
    TaggedRecord(fields, tag');
  }

  /** A record without an envelope whose `packageType` is a string is resolved by that string. */
  lemma TaggedRecord(fields: Dict<string, Value>, tag: string)
    requires "content" !in Keys(fields)
    ensures PackageClass(Obj(Put(fields, "packageType", Str(tag)))) == Ok(KindOfTag(Lower(tag)))
  {
    var a := Put(fields, "packageType", Str(tag));
    assert "content" != "packageType";
    assert Field(Obj(a), "content") == None;
    assert Envelope(Obj(a)) == Obj(a);
  }

  /** The tag is read from the `content` envelope when one is present, and
      the outer record's own tag is then ignored. */
  lemma ResolverReadsEnvelope(fields: Dict<string, Value>, content: Value)
    requires Get(fields, "content") == Some(content)
    requires content.Obj? && "content" !in Keys(content.fields)
    ensures PackageClass(Obj(fields)) == PackageClass(content)
  {
    assert Field(content, "content") == None;
  }

  /** The examples of the type resolver: no tag gives Dataset, any spelling of
      "Collection" gives Collection, the tag inside a `content` envelope is
      the one read, and an unknown tag gives DataPackage. */
  lemma ResolverNoTag()
    ensures PackageClass(Obj([])) == Ok(DatasetKind)
  {
  }

  lemma ResolverCollection()
    ensures PackageClass(Obj([("packageType", Str("Collection"))])) == Ok(CollectionKind)
    ensures PackageClass(Obj([("packageType", Str("COLLECTION"))])) == Ok(CollectionKind)
  {
    assert Lower("Collection") == "collection";
    assert Lower("COLLECTION") == "collection";
  }

  lemma ResolverEnvelope()
    ensures PackageClass(Obj([("content", Obj([("packageType", Str("TimeSeries"))]))])) == Ok(TimeSeriesKind)
  {
    assert Lower("TimeSeries") == "timeseries";
  }

  lemma ResolverUnknownTag()
    ensures PackageClass(Obj([("packageType", Str("Frobnicate"))])) == Ok(DataPackageKind)
  {
    assert Lower("Frobnicate") == "frobnicate";
  }

  // ---------------------------------------------------------------------------
  // The reconciler on the variant tables
  // ---------------------------------------------------------------------------

  /** Every accepted name is lower case, so reconciliation on these tables is idempotent. */
  lemma AcceptedAreLowerCase(kind: Kind)
    ensures forall a :: a in AcceptedFields(kind) ==> Lower(a) == a
  {
    BaseTablesLower();
    OwnTablesLower();
  }

  /** Each accepted name is its own lower-case form. */
  predicate AllLower(t: set<string>)
  {
    forall a :: a in t ==> Lower(a) == a
  }

  lemma BaseTablesLower()
    ensures AllLower(BaseNodeArgs) && AllLower(BaseDataNodeArgs) && AllLower(BaseCollectionArgs)
    ensures AllLower(DataPackageArgs) && AllLower(NameOnlyArgs)
  {
    NamesLower();
  }

  lemma OwnTablesLower()
    ensures AllLower({"self", "name", "description", "kwargs", "k"})
    ensures AllLower({"self", "name", "s3_key", "s3_bucket", "file_type", "size", "pkg_id", "kwargs"})
  {
    NamesLower();
  }

  /** The accepted names, each its own lower-case form. */
  lemma NamesLower()
    ensures Lower("self") == "self"
    ensures Lower("id") == "id"
    ensures Lower("name") == "name"
    ensures Lower("type") == "type"
    ensures Lower("parent") == "parent"
    ensures Lower("owner_id") == "owner_id"
    ensures Lower("dataset_id") == "dataset_id"
    ensures Lower("provenance_id") == "provenance_id"
    ensures Lower("kwargs") == "kwargs"
    ensures Lower("package_type") == "package_type"
    ensures Lower("description") == "description"
    ensures Lower("k") == "k"
    ensures Lower("s3_key") == "s3_key"
    ensures Lower("s3_bucket") == "s3_bucket"
    ensures Lower("file_type") == "file_type"
    ensures Lower("size") == "size"
    ensures Lower("pkg_id") == "pkg_id"
  {
    NamesLower1();
    NamesLower2();
    NamesLower3();
  }

  lemma NamesLower1()
    ensures Lower("self") == "self"
    ensures Lower("id") == "id"
    ensures Lower("name") == "name"
    ensures Lower("type") == "type"
    ensures Lower("parent") == "parent"
    ensures Lower("owner_id") == "owner_id"
  {
  }

  lemma NamesLower2()
    ensures Lower("dataset_id") == "dataset_id"
    ensures Lower("provenance_id") == "provenance_id"
    ensures Lower("kwargs") == "kwargs"
    ensures Lower("package_type") == "package_type"
    ensures Lower("description") == "description"
    ensures Lower("k") == "k"
  {
  }

  lemma NamesLower3()
    ensures Lower("s3_key") == "s3_key"
    ensures Lower("s3_bucket") == "s3_bucket"
    ensures Lower("file_type") == "file_type"
    ensures Lower("size") == "size"
    ensures Lower("pkg_id") == "pkg_id"
  {
  }

  /** Reconciling a wire key against a variant's table a second time changes nothing. */
  lemma TableReconcileIdempotent(kind: Kind, k: string)
    ensures var accepted := AcceptedFields(kind);
            ReconcileKey(accepted, ReconcileKey(accepted, k)) == ReconcileKey(accepted, k)
  {
    AcceptedAreLowerCase(kind);
    ReconcileIdempotent(AcceptedFields(kind), k);
  }

  /** No file argument is five or seven characters long or starts with a
      capital, which rules out `s3key`, `_s3_key` and `S3_Key` at once. */
  lemma FileFieldLengths()
    ensures forall x :: x in AcceptedFields(FileKind) ==> |x| != 5 && |x| != 7 && x != [] && x[0] != 'S'
  {
  }

  /** `s3Key` binds to `s3_key` through the camelCase rule. */
  lemma CamelS3KeyReconciles()
    ensures ReconcileKey(AcceptedFields(FileKind), "s3Key") == "s3_key"
  {
    CamelS3KeyRewritings();
    FileFieldLengths();
  }

  /** `s3key` binds to `s3_key` through the digit rule. */
  lemma LowerS3KeyReconciles()
    ensures ReconcileKey(AcceptedFields(FileKind), "s3key") == "s3_key"
  {
    LowerS3KeyRewritings();
    FileFieldLengths();
  }

  /** `S3Key` matches none of the rules (they give `s3key`, `_s3_key` and
      `S3_Key`) and is kept verbatim. */
  lemma CapitalS3KeyFallsThrough()
    ensures ReconcileKey(AcceptedFields(FileKind), "S3Key") == "S3Key"
  {
    CapitalS3KeyRewritings();
    FileFieldLengths();
  }

  /** An unknown key is kept verbatim rather than dropped, even when a
      rewriting changes it: `eTag` rewrites to `etag`, `e_tag` and itself,
      and none of these is a file argument. */
  lemma UnknownKeyKept()
    ensures ReconcileKey(AcceptedFields(FileKind), "eTag") == "eTag"
  {
    ETagRewritings();
  }
}

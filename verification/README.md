# Blackfynn client data model, in Dafny

This project models the object layer of the Blackfynn Python client and the
path-tree helpers of its command-line tool.

**Entities.** Every object on the platform is a `Node`:
- an identity handle, which stands for Python's `is`;
- a variant `Kind`: Dataset, Collection, DataPackage, TimeSeries, Tabular or File;
- a platform id, which is `Null` until the object exists;
- the instance attributes as an insertion-ordered dictionary;
- a categorised property store;
- for datasets and collections, an optional cache of child items.

**Construction.** Wire records are decoded JSON `Value`s. `from_dict` turns one into a typed node in these steps:
- find the variant from `packageType`, ignoring case;
- unwrap the `content` envelope;
- pop the `id`;
- reconcile every remaining key against the constructor's argument names, by lower-casing, then camel-to-snake, then adding an underscore after each digit;
- run the variant's constructor;
- read `state`, collapse a nested `parent` record to its id, and parse the flat or nested `properties` block;
- for containers, rebuild the children and add them.

**Other node operations.**
- `as_dict` writes a node back to its wire record.
- Property operations: set, get, remove and list.
- Child-cache operations: `add`, `remove`, `items`, `__contains__` and `get_items_by_name`.
- Identity operations: `__eq__`, `exists`, `_check_exists` and `_update_self`.
- `TimeSeries.get_layer`, `TimeSeriesAnnotation.as_dict` and the default organization slug.

**Command-line path tree.** `get_item_path` walks the parent chain from an item up to its dataset. `make_tree` nests one path into a one-key dictionary. `merge` combines such dictionaries, `reduce(merge, …)` folds them, and `print_tree` / `print_path_tree` produce the indented listing. The listing is modelled as a sequence of `Line`s rather than printed. The merge, the fold and the listing take a `Mode`: `AsWritten` follows the code, where a leaf meeting a sub-dictionary raises from `__eq__`, and `Intended` reports that clash as a conflict. The two agree whenever either succeeds.

**How outside calls are modelled.**
- Calls to the platform become parameters:
  - `Collections.Remote` holds `create`, `delete`, `fetch` and id resolution;
  - a `map` answers `bf.get` and `bf.get_dataset`.
- The value-conversion helpers `get_data_type`, `value_as_type` and `str` are `Properties.Conversions` parameters.
- Python exceptions are `Errors.Error` values inside a `Result`.

Modules, one per file:
- `Outcomes` — Option and Result;
- `Values` — decoded JSON;
- `Errors`;
- `Text` — ASCII lower-casing;
- `PyDict` — Python dictionaries as association lists;
- `Reconcile` — the key reconciler;
- `Variants` — package classes and constructor argument names;
- `Properties`;
- `Nodes` — identity, constructors, `as_dict`;
- `Construct` — `from_dict`;
- `Collections` — the child cache;
- `Helpers` — layers, annotations, slug;
- `PathTree`.

Where the client's documented behaviour and its code differ, the model follows the code:
- A wire key that matches no constructor argument does not become an extra attribute. It goes into `**kwargs`, and `BaseDataNode.__init__` discards it (`Variants.UnknownKeyKept`, `Reconcile.KwargsKeys`).
- `S3Key` does not bind to `s3_key`. Its three rewritings are `s3key`, `_s3_key` and `S3_Key`, so it falls through verbatim (`Variants.CapitalS3KeyFallsThrough`).
- The digit rule inserts `_` after every digit, not after a run of digits (`Reconcile.DigitKeyShape`).
- Merging a leaf against a sub-dictionary does not report a conflict: it raises from `__eq__` (see Findings).

## Model

| member | source | states |
|---|---|---|
| Variants.PackageClass | blackfynn/models.py:21-41 | A record's class is chosen by its `packageType`, read inside `content` when present and compared case-insensitively: collection, timeseries, tabular and dataset select their class, any other tag selects DataPackage, a missing tag selects Dataset. The resolver never yields File, and a record that is not a dictionary fails. |
| Variants.KindOfTag | blackfynn/models.py:29-39 | A lower-cased tag selects DataPackage exactly when it is none of the four known tags. |
| Variants.ResolverIgnoresCase | blackfynn/models.py:28 | Two tags that differ only in case resolve to the same class. |
| Variants.TaggedRecord | blackfynn/models.py:25-39 | A record without an envelope and with a string tag resolves to the class of its lower-cased tag. |
| Variants.ResolverReadsEnvelope | blackfynn/models.py:25 | A record with a `content` envelope resolves exactly as the envelope itself does. |
| Variants.ResolverNoTag | blackfynn/models.py:26-27 | An empty record is a Dataset. |
| Variants.ResolverCollection | blackfynn/models.py:28-31 | The tags `Collection` and `COLLECTION` both select Collection. |
| Variants.ResolverEnvelope | blackfynn/models.py:25-33 | A tag inside the envelope (`TimeSeries`) is the one that counts. |
| Variants.ResolverUnknownTag | blackfynn/models.py:38-39 | An unrecognised tag selects DataPackage. |
| Variants.AcceptedAreLowerCase | blackfynn/models.py:119-129 | Every constructor argument name of every variant, including its base classes, is already lower case. |
| Variants.TableReconcileIdempotent | blackfynn/models.py:162-178 | Reconciling an already-reconciled key against a variant's argument names changes nothing. |
| Variants.CamelS3KeyReconciles | blackfynn/models.py:162-178 | For a File, the wire key `s3Key` binds to the argument `s3_key` through the camel-to-snake rule. |
| Variants.LowerS3KeyReconciles | blackfynn/models.py:162-178 | For a File, `s3key` also binds to `s3_key`. |
| Variants.CapitalS3KeyFallsThrough | blackfynn/models.py:162-178 | For a File, `S3Key` matches none of the three rewritings and is kept verbatim. |
| Variants.UnknownKeyKept | blackfynn/models.py:162-178 | An unknown key such as `eTag` is passed on unchanged. |
| Reconcile.ReconcileKey | blackfynn/models.py:162-178 | The chosen key is an accepted name or the original key. The lower-cased form wins, then the camel-to-snake form, then the digit form. When none is accepted, the key is kept. |
| Reconcile.CamelKey | blackfynn/models.py:166 | The camel-to-snake rewriting leaves no capital letters. |
| Reconcile.CamelKeyIsLowerPlusUnderscores | blackfynn/models.py:166 | With underscores removed, the camel-to-snake form equals the lower-cased key. |
| Reconcile.DigitKeyShape | blackfynn/models.py:168 | The digit rewriting only inserts underscores: with every underscore removed, the output and the key are equal. Every digit in the output is followed by `_`. |
| Reconcile.CamelKeyAppend | blackfynn/models.py:166 | The camel-to-snake rewriting works character by character: it distributes over concatenation. |
| Reconcile.DigitKeyAppend | blackfynn/models.py:168 | The digit rewriting distributes over concatenation. |
| Reconcile.PlainKeyRewritings | blackfynn/models.py:164-168 | A key without capitals or digits is a fixed point of all three rewritings. |
| Reconcile.PlainKeyKept | blackfynn/models.py:162-178 | A key without capitals or digits is reconciled to itself, whatever the accepted names. |
| Reconcile.CamelS3KeyRewritings | blackfynn/models.py:164-168 | `s3Key` rewrites to `s3key` and `s3_key`. |
| Reconcile.LowerS3KeyRewritings | blackfynn/models.py:164-168 | `s3key` rewrites to `s3key`, `s3key` and `s3_key`. |
| Reconcile.CapitalS3KeyRewritings | blackfynn/models.py:164-168 | `S3Key` rewrites to `s3key`, `_s3_key` and `S3_Key`. |
| Reconcile.ETagRewritings | blackfynn/models.py:164-168 | `eTag` rewrites to `etag`, `e_tag` and `eTag`. |
| Reconcile.ReconcileIdempotent | blackfynn/models.py:162-178 | When the accepted names are lower case, reconciliation is idempotent. |
| Reconcile.Reconciled | blackfynn/models.py:162-181 | The keyword dictionary's keys are exactly the reconciled keys of the record. |
| Reconcile.KwargsKeys | blackfynn/models.py:160-181 | The keyword arguments hold the reconciled keys of every record key except the popped `id`. An `id` keyword appears only when another key reconciles to it. |
| Reconcile.ReconciledValue | blackfynn/models.py:162-181 | A key whose reconciled name no other key shares keeps its value under that name. |
| Reconcile.RekeyedValue | blackfynn/models.py:162-181 | The same holds for any renaming of the keys that sends no other key to the same name: later entries only overwrite entries that land on the same name. |
| Reconcile.DigitKeyUnderscores | blackfynn/models.py:168 | In the digit rewriting's output, every digit is followed by `_`. |
| Properties.NewProperty | blackfynn/models.py:70-81 | Key, category, fixed and hidden are stored as given. A data type that is a known name in any case converts the value to that type. No data type, or an unknown one, infers both the type and the value. A data type that is not a string fails. |
| Properties.PropertyFromDict | blackfynn/models.py:97-109 | A parsed property takes its category from the argument and its key, fixed and hidden flags from the record. |
| Properties.AsDictLookups | blackfynn/models.py:84-94 | The record of a property holds its key, its value as a string, its data type and its flags under the wire names. |
| Properties.PropertyRoundTrip | blackfynn/models.py:84-109 | Reading back a property's own record, with its own category and a known data type, gives the property with its value passed through string and back. Where that conversion is lossless, it gives the same property. |
| Properties.SetProperty | blackfynn/models.py:252-259 | After a property is stored it is found under its category and key. Every other category and key finds what it found before, and its category becomes present. |
| Properties.SetPropertyWellFormed | blackfynn/models.py:252-259 | Storing keeps the store well formed: unique categories, unique keys, each entry filed under its own category and key. |
| Properties.SetProperties | blackfynn/models.py:255-268 | Adding a sequence of properties creates exactly the categories of those properties. |
| Properties.LastFor | blackfynn/models.py:255-259 | The last property with a given category and key is one of the added properties with that category and key. There is none exactly when no added property has them. |
| Properties.SetPropertiesFind | blackfynn/models.py:255-268 | After adding a sequence, a category and key find the last added property with that category and key. When no added property has them, they find what they found before. |
| Properties.SetPropertiesWellFormed | blackfynn/models.py:255-268 | Adding a sequence keeps the store well formed. |
| Properties.AllPropertiesExact | blackfynn/models.py:329-336 | In a well-formed store, a property is listed exactly when it is the one stored under its category and key. |
| Properties.GetProperty | blackfynn/models.py:338-355 | An unknown category raises KeyError. Otherwise the result is the stored property, or none. |
| Properties.RemoveProperty | blackfynn/models.py:357-372 | An unknown category raises KeyError. The update is pushed to the platform exactly when the key was present, and it carries the property with an empty value. If the push succeeds, the key is gone. If it fails, its error is raised and the store keeps the property with the empty value. Either way no other property changes. |
| Properties.Iterate | blackfynn/models.py:467 | Iterating a list yields its items, a string its characters, a dictionary its keys. Anything else fails. |
| Properties.ParseEntry | blackfynn/models.py:467-477 | Parsing an entry only adds categories, and an entry that is not a dictionary fails. |
| Properties.ParseGroup | blackfynn/models.py:474-477 | A nested group with members adds exactly its category, and an empty group changes nothing. |
| Properties.ParseEntries | blackfynn/models.py:467-477 | Parsing entries only adds categories. |
| Properties.ParseBlock | blackfynn/models.py:466-477 | Parsing a properties block only adds categories. |
| Properties.ParseEntriesAppend | blackfynn/models.py:467-477 | Parsing a concatenation is parsing the first part and then the second, and the first failure stops it. |
| Properties.FlatEntryParses | blackfynn/models.py:468-471 | A flat entry stores the property its fields describe, under the entry's own category. |
| Properties.FlatEntryFields | blackfynn/models.py:468-470 | Adding the category to an entry leaves the property fields it is read from unchanged. |
| Properties.FlatGroupParses | blackfynn/models.py:466-477 | A group written as flat entries parses to the same store as the group itself. |
| Properties.NestedEntryParses | blackfynn/models.py:472-477 | A nested entry parses as its group. |
| Properties.FlatEqualsNested | blackfynn/models.py:466-477 | The flat and the nested layouts of the same groups give the same store. |
| Nodes.EqLaws | blackfynn/models.py:196-200 | Equality is reflexive and symmetric. It is transitive whenever equal handles imply equal ids. |
| Nodes.CheckExists | blackfynn/models.py:203-211 | `_check_exists` passes exactly for an object with an id. Otherwise it raises the not-created error. |
| Nodes.Attr | blackfynn/models.py:432 | Reading an attribute succeeds exactly when the instance has it. |
| Nodes.Delete | blackfynn/models.py:390-397 | Deleting requires existence and a successful remote delete. The result no longer exists and keeps its identity, attributes and properties. |
| Nodes.DeletedComparesByIdentity | blackfynn/models.py:196-200 | After a delete, the object equals exactly the objects it is identical to. |
| Nodes.Absorb | blackfynn/models.py:512 | Absorbing a response keeps the instance's identity and variant, and takes the response's id and properties. Attributes the response lacks are kept. |
| Nodes.UpdateSelf | blackfynn/models.py:43-49 | Updating from an object with another id fails. Otherwise identity and id are kept and every attribute of the update is taken. |
| Nodes.UpdateSelfIdempotent | blackfynn/models.py:43-49 | Updating an object from itself changes nothing. |
| Nodes.Arg | blackfynn/models.py:185 | A required constructor argument is present exactly when the keyword dictionary has it. |
| Nodes.DataNodeInit | blackfynn/models.py:223-247 | The data-node constructor fails on a duplicated `type` or on a parent that is neither a string nor None. Otherwise it builds the node with the given id, an empty property store and no cache. |
| Nodes.WithStorage | blackfynn/models.py:709-711 | The constructor succeeds exactly when `type` is not passed twice and the parent is a string or None. A duplicated `type` is the TypeError, and a bad parent is the parent error. On success the node is built with its name and links, its `storage` attribute is the popped value (None when absent), and every other attribute is what the data-node constructor sets. |
| Nodes.CoreIgnoresStorage | blackfynn/models.py:709-711 | The attributes the data-node constructor sets do not depend on a `storage` keyword, so popping it first changes none of them. |
| Nodes.PackageInit | blackfynn/models.py:709-714 | A package or collection is built with its name and its parent and dataset links, and carries the type it was given. |
| Nodes.SessionAttrs | blackfynn/models.py:713-714 | Packages carry a local `session` of None. Other attributes are untouched. |
| Nodes.DatasetInit | blackfynn/models.py:1758-1766 | A dataset drops `parent`, `type`, `state` and `dataset`. Its description is the one given, or the empty string when that is falsy. |
| Nodes.DatasetRest | blackfynn/models.py:1759 | Removing the dataset's own arguments keeps `type`, `parent` and `id` as they were. |
| Nodes.DatasetAttrs | blackfynn/models.py:1761-1766 | The dataset's attributes carry the description and the name and none of the dropped keys. |
| Nodes.FileInit | blackfynn/models.py:841-849 | A file requires its S3 key, bucket, file type and size. It is built with its name and links, and its type is the file type. |
| Nodes.Init | blackfynn/models.py:184-185 | Construction fails when the keywords hold `self`, lack `name`, or (for a DataPackage) lack `package_type`. Keywords with neither `self` nor `name` fail with the missing-argument TypeError, and every failure is a TypeError or a parent error. Otherwise the node carries the name and id of the keywords and their parent and dataset links (except a dataset's). |
| Nodes.Variant | blackfynn/models.py:709-714 | Each variant's constructor builds a node of that variant from the name and the remaining keywords. A DataPackage without `package_type` fails. |
| Nodes.InitDataset | blackfynn/models.py:1758-1766 | A dataset built from keywords has no parent, type, state or dataset attribute, and has a description. |
| Nodes.InitType | blackfynn/models.py:925-927 | The stored type is the fixed name `TimeSeries` for a time series, whatever `package_type` the keywords carry. Collection and Tabular do the same with their own names, and a DataPackage stores the given package type. |
| Nodes.PropertyRecords | blackfynn/models.py:425-427 | The `properties` list holds one record per listed property, in listing order. |
| Nodes.DataNodeRecord | blackfynn/models.py:421-438 | The data-node record holds the name, the type under the variant's type key and the property records. `parent`, `state`, `dataset` and `provenanceId` appear exactly when set and not None. It has no other key. |
| Nodes.DataNodeDict | blackfynn/models.py:421-438 | Writing a data node fails exactly when a required attribute is missing. Otherwise it gives the record above. |
| Nodes.DatasetDict | blackfynn/models.py:1802-1807 | A dataset's record is exactly name, description and properties. |
| Nodes.FileDict | blackfynn/models.py:851-864 | Writing a file fails exactly when one of `name`, `type`, `provenance_id`, `s3_bucket`, `s3_key` and `size` is missing. A file's record is `objectType` `file`, then `content`, then the property records. The content holds `s3bucket`, `s3key` and `size` from the S3 attributes, and the record's name, type and optional attributes. It holds neither `parent` nor `properties`. |
| Nodes.PackageDict | blackfynn/models.py:790-794 | Packages and containers add `owner` exactly when the owner id is set. |
| Nodes.AsDict | blackfynn/models.py:421-438 | `as_dict` chooses the dataset, file or package layout by variant and always yields a dictionary. |
| Construct.Content | blackfynn/models.py:152-155 | The content is the `content` entry of the record. A missing entry raises KeyError. |
| Construct.BaseFromDict | blackfynn/models.py:144-194 | A record without `content` fails with that KeyError. Otherwise base construction succeeds exactly when the variant's constructor accepts the reconciled keywords, and a failure is a TypeError or a parent error. Without `self` and `name` keywords it is the missing-argument TypeError. On success the node has the requested variant and handle, no properties and no cache. Its name is the `name` keyword. Its id is the popped `id` when that is not None, and otherwise the keyword `id`. Non-dataset nodes carry the keywords' parent and dataset links. |
| Construct.BuiltIdentity | blackfynn/models.py:161-188 | The popped id becomes the instance's id. Without one, and with no other key reconciling to `id`, the instance does not exist. |
| Construct.WithState | blackfynn/models.py:444-447 | `state` is copied from the content when present. Otherwise the node is unchanged. |
| Construct.WithProperties | blackfynn/models.py:466-477 | Without a `properties` block the node is unchanged. Otherwise its store is the parsed block, which only adds categories. |
| Construct.ParentOf | blackfynn/models.py:450-457 | A string parent is stored as is. A nested parent record is rebuilt with its own class, and its id is stored. No `parent` changes nothing. |
| Construct.ChildrenOf | blackfynn/models.py:680-686 | Without `children` there are none. A list gives one rebuilt child per record, each with a fresh identity. Any other value that succeeds gives none. |
| Construct.FromDict | blackfynn/models.py:441-479 | A constructed node has the requested variant and a fresh handle. |
| Construct.FromDictSteps | blackfynn/models.py:678-689 | The container step changes only the child cache of the node built by the data-node steps. |
| Construct.FromDictIdentity | blackfynn/models.py:687 | The constructed id is the one the base layer read. A container always exists, because adding its children requires it. |
| Construct.FromDictAttributes | blackfynn/models.py:444-457 | A string `parent` of the record and the content's `state` end up as attributes. |
| Construct.FromDictNoProperties | blackfynn/models.py:466 | Without a `properties` block the property store is empty. |
| Construct.ParentCollapsesToId | blackfynn/models.py:454-457 | A nested parent record collapses to the id found in its content. |
| Collections.Link | blackfynn/models.py:503-508 | Placing an item changes only its attributes. |
| Collections.LinkPlacesItem | blackfynn/models.py:503-508 | In a dataset an item gets no parent and the dataset's id. In a collection with a dataset it gets the collection as parent and the same dataset. Otherwise it is unchanged. No other attribute changes. |
| Collections.CreateEach | blackfynn/models.py:499-515 | Creating the items gives one created item per item, in order, with the same identity and variant. |
| Collections.CreateEachFails | blackfynn/models.py:511 | One failed remote creation fails the whole add. |
| Collections.Add | blackfynn/models.py:494-515 | Adding needs an existing container. The cache grows by the created items, appended in order after the old cache. Nothing else of the container changes. |
| Collections.EchoCreatesLinked | blackfynn/models.py:499-515 | With a remote that echoes its input, each created item is the placed item. |
| Collections.AddLinksItems | blackfynn/models.py:494-515 | With an echoing remote, the appended cache entries are the placed items. |
| Collections.InList | blackfynn/models.py:523 | An object is in the cache when some entry is it or equals it. An id string is never found, and the membership test succeeds for it only when no cached entry exists on the platform. |
| Collections.CheckCached | blackfynn/models.py:522-524 | The cache test passes exactly when every removed reference is in the cache. With no cache, a non-empty removal fails. |
| Collections.Remove | blackfynn/models.py:517-528 | Removal succeeds exactly when the collection exists, every reference is cached and the remote delete succeeds. It then drops the cache and changes nothing else. |
| Collections.RemoveByIdFails | blackfynn/models.py:522-524 | Removing by id string always fails. With a cached existing item it raises AttributeError from `__eq__`. |
| Collections.InListIntended | blackfynn/models.py:517-524 | An id string is found when a cached item has that id. |
| Collections.RemoveIntended | blackfynn/models.py:517-528 | With id lookup, removal succeeds exactly when every reference is cached and the delete succeeds. |
| Collections.RemoveIntendedById | blackfynn/models.py:517-528 | With id lookup, removing a cached item by its id succeeds and drops the cache. |
| Collections.Items | blackfynn/models.py:531-548 | A cached list is returned as is. Otherwise the container is fetched and its list cached. A missing list becomes an empty one. |
| Collections.ReadTwiceFetchesOnce | blackfynn/models.py:543-548 | A second read returns the same items without consulting the platform. |
| Collections.RemoveThenReadFetches | blackfynn/models.py:528-546 | After a removal the next read fetches from the platform again. |
| Collections.Contains | blackfynn/models.py:654-669 | An object is contained when the cache holds it or an equal object, and never when there is no cache. An id string is resolved and compared with the ids of the items read. For an id on an existing collection the answer comes exactly when the items can be read; otherwise the read's error is raised, or NotCreated for a collection that does not exist. |
| Collections.NamedMembers | blackfynn/models.py:583 | An item is kept by the name filter exactly when it is among the items and has that name. The result is empty exactly when no item has the name. |
| Collections.NamedCounts | blackfynn/models.py:583 | Each item with the name is kept as many times as it occurs, and every other item is dropped. |
| Collections.NamedAll | blackfynn/models.py:583 | When every item has the name, the filter keeps the whole list. |
| Collections.NamedAppend | blackfynn/models.py:583 | Filtering a concatenation filters each part and keeps their order. |
| Collections.NamedCons | blackfynn/models.py:583 | The first item comes first in the result when it has the name, followed by the filtered rest. |
| Collections.ItemsByName | blackfynn/models.py:566-583 | A container that does not exist fails with the not-created error. Otherwise the result is the name filter of the items read, in their order. It holds exactly the items whose name matches, and it fails only when reading fails. |
| Helpers.GetLayer | blackfynn/models.py:1120-1138 | Layer lookup requires existence. It succeeds exactly when one layer has the id, or none has it and one has the name. No match and several matches are distinct errors. The result has the id, or else the name with no layer having the id. |
| Helpers.IdBeatsName | blackfynn/models.py:1129-1131 | A unique id match is selected even when other layers carry that name. |
| Helpers.NewAnnotation | blackfynn/models.py:1523-1534 | An annotation's name is always empty, whatever is passed. The other fields are stored as given. |
| Helpers.ChannelList | blackfynn/models.py:1541-1543 | Channel ids are always a list: a single id is wrapped. |
| Helpers.AnnotationAsDict | blackfynn/models.py:1540-1554 | The record has eight fields under `name`, `label`, `channelIds`, `start`, `end`, `description`, `layer_id` and `time_series_id`, in that order and pairwise distinct. Each holds the annotation's value, and the channel ids are always a list. |
| Helpers.AnnotationAsDictIdempotent | blackfynn/models.py:1541-1543 | Wrapping the channel ids again does not change the record. |
| Helpers.AnnotationChannels | blackfynn/models.py:1541-1545 | The channel list holds exactly the annotation's channels. |
| Helpers.Dashed | blackfynn/models.py:1736 | Spaces become dashes and every other character stays in place. |
| Helpers.Slug | blackfynn/models.py:1736 | A given slug is kept. Otherwise each character of the name becomes `-` if it is a space and its lower-case form if not, and the length is kept. A non-string name fails with AttributeError on `lower`. |
| Helpers.DefaultSlugShape | blackfynn/models.py:1736 | A default slug has no capitals and no spaces, keeps the name's other characters, and is its own default slug. |
| Helpers.SlugExample | blackfynn/models.py:1736 | `My Org` gets the slug `my-org`. |
| PathTree.GetItemPath | blackfynn/cli/cli_utils.py:5-11 | A found path has at least two objects and ends with the item. Its second object has no parent, and its first is the dataset that object names. Each later object is the store's child of the one before, and no parent id repeats. A failure is a missing attribute, an unknown id or a parent cycle. |
| PathTree.ItemPath | blackfynn/cli/cli_utils.py:5-11 | A path ends with the item and starts with the dataset of its top-most ancestor. Each step is the store's parent of the next, and no parent id repeats. A failure is a missing attribute, an unknown id or a parent cycle. |
| PathTree.SelfParentLoops | blackfynn/cli/cli_utils.py:6-8 | An object that is its own parent never finishes. |
| PathTree.ShortPaths | blackfynn/cli/cli_utils.py:5-11 | A top-level item gives [dataset, item]. An item under a top-level parent gives [dataset, parent, item]. |
| PathTree.MakeTree | blackfynn/cli/cli_utils.py:13-18 | The tree of a path has one key, the first id. It is a leaf exactly for a one-object path. |
| PathTree.MakeTreeLookup | blackfynn/cli/cli_utils.py:13-18 | Following the path's ids through its tree reaches the last object as a leaf. Every proper prefix reaches a sub-dictionary. |
| PathTree.MakeTreeKeys | blackfynn/cli/cli_utils.py:13-18 | The keys anywhere in a path's tree are exactly the path's ids. |
| PathTree.Clash | blackfynn/cli/cli_utils.py:24-29 | As intended, a clash is a conflict at its key path. As written, it can only be that or the AttributeError from `__eq__`. |
| PathTree.MergeFrom | blackfynn/cli/cli_utils.py:20-32 | A merge has the keys of both sides. Keys only on the left keep their values. |
| PathTree.Merge | blackfynn/cli/cli_utils.py:20-32 | The same, for the corrected merge. |
| PathTree.MergeAsWritten | blackfynn/cli/cli_utils.py:20-32 | The merge as written has the keys of both sides when it succeeds. |
| PathTree.MergeBy | blackfynn/cli/cli_utils.py:20-32 | A merge in either behaviour has the keys of both sides, and keys only on the left keep their values. |
| PathTree.ModesAgree | blackfynn/cli/cli_utils.py:20-32 | The two merges succeed on the same inputs, with the same result. |
| PathTree.MergeEntries | blackfynn/cli/cli_utils.py:22-31 | Each right-hand key ends up with the combination of both sides: merged sub-dictionaries, the shared leaf, or the new value. |
| PathTree.MergeStep | blackfynn/cli/cli_utils.py:22-31 | One step of the loop settles one key and leaves the others alone. |
| PathTree.MergeOkIff | blackfynn/cli/cli_utils.py:20-32 | A merge succeeds exactly when the two sides agree on every shared key, recursively. |
| PathTree.MergeOkIffNested | blackfynn/cli/cli_utils.py:24-25 | The same, for a shared key with sub-dictionaries on both sides. |
| PathTree.MergeIdempotent | blackfynn/cli/cli_utils.py:20-32 | Merging a tree with itself gives the tree. |
| PathTree.MergeSingles | blackfynn/cli/cli_utils.py:22-31 | The four cases on one key: a distinct key is appended, sub-dictionaries are merged, equal leaves stay, and anything else clashes. |
| PathTree.SharedPrefix | blackfynn/cli/cli_utils.py:20-32 | Two paths sharing a prefix merge into one chain with two leaves. |
| PathTree.SharedPrefixConflict | blackfynn/cli/cli_utils.py:26-29 | Two different objects under the same id conflict at that id's key path. |
| PathTree.LeafMeetsBranch | blackfynn/cli/cli_utils.py:24-29 | A path that ends at an object clashes with a longer path through it. |
| PathTree.AncestorResult | blackfynn/cli/cli_utils.py:26 | A result whose ancestor is also a result: as written the merge raises AttributeError, as intended it reports a conflict. |
| PathTree.MergeDeepKeys | blackfynn/cli/cli_utils.py:20-32 | A merge introduces no key that is not in either side. |
| PathTree.MergeErrors | blackfynn/cli/cli_utils.py:20-32 | A merge fails only with a conflict, or, as written, with the AttributeError of a leaf meeting a dictionary. |
| PathTree.FoldFrom | blackfynn/cli/cli_utils.py:46 | Folding in either behaviour keeps all top-level keys and adds no deep key. |
| PathTree.Fold | blackfynn/cli/cli_utils.py:46 | `reduce` of no trees fails with its TypeError, and of one tree gives it. The result has every tree's top-level keys and no key not in some tree. Any other failure is a merge error of the behaviour used. |
| PathTree.FoldErrors | blackfynn/cli/cli_utils.py:46 | A fold fails only as a merge of the same behaviour does. |
| PathTree.FoldModesAgree | blackfynn/cli/cli_utils.py:20-46 | The fold as written and the corrected fold succeed on the same trees, with the same result. |
| PathTree.FoldSame | blackfynn/cli/cli_utils.py:46 | Folding copies of one tree gives that tree, in either behaviour. |
| PathTree.PrintFrom | blackfynn/cli/cli_utils.py:34-40 | The listing succeeds exactly when every key has an object, and otherwise names a missing key. It prints one line per node, indented by even steps from the start, each for a known object. |
| PathTree.PrintTree | blackfynn/cli/cli_utils.py:34-40 | The listing of a tree succeeds exactly when every key has an object. Its first line is the first key's object at the starting indent, marked `-` for a sub-dictionary and `*` for a leaf. |
| PathTree.PrintChain | blackfynn/cli/cli_utils.py:34-40 | A single path's tree lists its objects one per line, indented two more at each step, ending in the leaf. |
| PathTree.PrintNest | blackfynn/cli/cli_utils.py:34-40 | A chain of sub-dictionaries prints one `-` line per object, indented two more at each step, followed by the listing of what the chain holds at the deepest indent. |
| PathTree.SiblingsPrint | blackfynn/cli/cli_utils.py:20-40 | Two paths that share a prefix and end at different ids merge in either behaviour. The result prints the prefix once as a chain of `-` lines, then both ends as `*` lines at the indent just below the prefix. |
| PathTree.ItemPaths | blackfynn/cli/cli_utils.py:43 | Each result's path is its own lookup, and a failure is a lookup failure. |
| PathTree.AddObjects | blackfynn/cli/cli_utils.py:44 | The table gains exactly the path's ids. Every entry still holds an object with that id, and the path's last object is filed under its own id. |
| PathTree.ObjectsFrom | blackfynn/cli/cli_utils.py:44 | The id-to-object table covers exactly the ids on the paths. |
| PathTree.PathObjects | blackfynn/cli/cli_utils.py:44 | The table covers exactly the ids on the paths, each mapped to an object with that id. |
| PathTree.Trees | blackfynn/cli/cli_utils.py:45 | One tree per path, whose keys are exactly the paths' ids. |
| PathTree.PrintPaths | blackfynn/cli/cli_utils.py:44-46 | The listing of found paths fails for no paths with the empty `reduce`, and otherwise only with a merge error of the behaviour used. It succeeds exactly when the fold of the path trees does: printing never fails, because every merged key has an object. |
| PathTree.PrintPathTree | blackfynn/cli/cli_utils.py:42-46 | A failed path lookup is raised as it is, and no results fail as `reduce` of an empty sequence. |
| PathTree.PrintPathTreeErrors | blackfynn/cli/cli_utils.py:42-46 | Once every path is found, the listing fails only with a merge error of the behaviour used or the empty `reduce`, never with a KeyError. |
| PathTree.PrintPathTreeModesAgree | blackfynn/cli/cli_utils.py:20-46 | The listing as written and the corrected listing succeed on the same results and print the same lines. |
| PathTree.TwoResults | blackfynn/cli/cli_utils.py:43 | Two results whose paths are found give those two paths, in order. |
| PathTree.AncestorListing | blackfynn/cli/cli_utils.py:20-46 | A search that finds a top-level collection and a file inside it fails as written with the AttributeError of the collection's `__eq__`. The corrected listing reports a conflict at the dataset's and the collection's ids. |
| PathTree.SingleResult | blackfynn/cli/cli_utils.py:42-46 | A single result prints as its path's chain, in either behaviour. |

## Left out

- Printing and other I/O: `print_tree` and `print_path_tree` produce a sequence of `Line` records (indent, marker, object) instead of writing to the terminal.
- Calls to the platform (`_api.core.create`, `_api.data.delete`, `_api.data.update_properties`, `_get_method`, `_api.data._get_id`, `bf.get`, `bf.get_dataset`, `_api.timeseries.get_annotation_layers`) are parameters. For example, `update_properties` is the `update` parameter of Properties.RemoveProperty, which returns the error it raises. Their side effects on the platform are not modelled.
- `api.core.set_local` and attaching the client (`item._api`) in `from_dict` are not modelled, because they only register the instance with the client.
- `get_data_type`, `value_as_type` and `str` of a property value are oracle parameters (`Properties.Conversions`), because the conversion module is not part of this model.
- Lower-casing is ASCII only, because Python's Unicode case mapping has no counterpart here.
- Floating-point numbers, dates and the `createdAt`/`updatedAt` timestamps are not modelled. Values are null, booleans, integers, strings, lists and dictionaries.
- Python 2 dictionary order is unspecified. The model uses insertion order, which is one order Python may produce.
- Aliasing and in-place mutation are not modelled: operations return new values. This covers the state left behind when an operation fails part-way, and the removal of `id` from the caller's `content` dictionary. For the same reason `_update_self` copies attributes, id, properties and cache, and `add` absorbs the created item into the caller's object.
- Python's recursion limit is modelled as a `RecursionLimit` error when a parent id repeats on a chain. A long chain without a repeat is not cut off.
- `DataPackage.from_dict` parsing of the `objects` block (sources, files, view) is not modelled, because it only attaches File records and plays no part in identity, properties or the cache.
- The other TimeSeries, DataPackage, Tabular, File and Dataset methods (channels, data access, uploads, collaborators, views, `update`, `set_ready` and the like) are outside this model. So are `BaseCollection.print_tree`, `get_items_names`, `create_collection`, the sequence methods other than `__contains__`, and `insert_property`, which calls `set_property` unchanged.
- `Property.__init__` type checks of the value are left to the conversion oracle. A data type that is neither None nor a string is an error here, where Python would fail inside `.lower()`.
- PathTree.MakeTree: requires a non-empty path. On an empty path the source does not terminate: `len(path)==1` is false, so `make_tree(path[1:])` calls itself on the empty list again, until Python's recursion limit raises RuntimeError (blackfynn/cli/cli_utils.py:14-17). Every caller passes a path that `get_item_path` built, which has at least two objects.
- PathTree.PrintPathTree: its own contract states only the lookup failure and the empty case. The other error cases are in PathTree.PrintPathTreeErrors and PathTree.PrintPaths. The agreement of the two behaviours is in PathTree.PrintPathTreeModesAgree. The one-result case is in PathTree.SingleResult, and the ancestor case in PathTree.AncestorListing.
- Properties.PropertyFromDict: a key or category that is not a string fails with a TypeError, where Python would store it. The `Property` docstring (blackfynn/models.py:60 and 65) documents both as `str`, and the property store is keyed by strings here.
- Properties.SetProperties: its own contract states only the categories. Last-wins lookup is in Properties.SetPropertiesFind, and well-formedness is in Properties.SetPropertiesWellFormed.
- Construct.FromDict: its own contract states only variant and handle. The content of the result is in Construct.FromDictSteps, Construct.FromDictIdentity and Construct.FromDictAttributes.
- Collections.InList: models Python list membership with a string probe, which compares the string with each cached node through `Node.__eq__`. Only the `exists` short-circuit is modelled: a non-existing cached node compares by identity and is skipped.

## Findings

| source | as written | input that shows it | evidently intended | confidence | as-written member | corrected member |
|---|---|---|---|---|---|---|
| blackfynn/models.py:517-524 | `remove` checks `item not in self._items` for each argument. For an id string, Python compares the string with each cached node through `BaseNode.__eq__`, which reads `item.exists` on the string. | `ds.remove("N:package:1")` on a dataset whose cached items include any object with an id: it raises AttributeError. With no such object the string is "not in collection". | The docstring says items may be an object or its id. A cached item with that id should be removed. | not executed | Collections.RemoveByIdFails | Collections.RemoveIntendedById |
| blackfynn/cli/cli_utils.py:20-32 | When one side holds a node and the other a sub-dictionary under the same key, `merge` evaluates `a[key] == b[key]`. `BaseNode.__eq__` then reads `.exists` on the dictionary. | `print_path_tree(bf, [c, f])` where `f` is inside collection `c`: the path trees `{d: {c: c}}` and `{d: {c: {f: f}}}` meet at `c`, and it raises AttributeError. | A leaf against a sub-dictionary is a conflict, reported as `Conflict at d.c`. | not executed | PathTree.AncestorResult, PathTree.AncestorListing | PathTree.Merge, PathTree.PrintPathTreeModesAgree |

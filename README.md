# Firebase serializer of emberfire, modelled in Dafny

This project models the Firebase serializer of emberfire
(`addon/serializers/firebase.js`, lines 11-249), the ember-data serializer that
maps records to and from Firebase's path-addressed tree.

- **Read side.** A tree snapshot of one record becomes a normalized record
  `{id, type, attributes, relationships}`. A snapshot of a list becomes a
  document `{data, included}`. Relationships are read from the shape of the
  tree. A leaf holding `true` is a collection-membership entry whose key is
  the related id. Any other leaf is a direct pointer whose value is the id.
- **Write side.** A record snapshot becomes a flat patch `path -> value`,
  written in place. For the one side of a one-to-many relationship,
  `serializeOneToMany` keeps both ends consistent in the same patch. It writes
  the forward pointer, then a null retraction under the old parent (only when
  the field changed from a truthy saved value), then `true` under the new
  parent.

Files:

- `types.dfy` (module `FirebaseTypes`): values, the tree node, the schema, and
  the collaborators (serializer configuration, store lookups, record snapshot).
- `options.dfy` (module `AttrsTable`): `_canSerialize` and `_getMappedKey`.
- `normalize.dfy` (module `Normalizer`): the read side.
- `patch.dfy` (module `Patches`): the patch object and what a sequence of
  writes does to it.
- `serialize.dfy` (module `Serializing`): the write side.

How the source is modelled:

- Code that fills a dictionary or array inside a `forEach` is a method with a
  loop. It is proved equal to a specification function, and the function's
  properties are lemmas.
- Each write-side method changes the `entries` map of a `Patch` object.
  Its postcondition names the entries it writes, as a function of its inputs.
- The two "NEED TO IMPLEMENT" stubs become explicit outcomes:
  - a polymorphic belongsTo at line 40 gives `Stub(Polymorphic)`;
  - a node with children at line 66 gives `Stub(Embedded)`.
  In the source these show up as `data: null` and `undefined` after a log line.
- `serializeOneToMany` dereferences three lookups without checking them:
  - `inverseFor` at line 145;
  - the related snapshot at line 146;
  - the inverse relationship at line 170.
  When one of them is null or undefined the source throws a TypeError after
  the forward pointer has been written. The model returns that as a `Crash`
  value, and `serialize` returns `Failure` instead of a patch.

Where the code differs from a tidier design, the model keeps what the code does:

- `serialize` writes relationships only when their type is `oneToMany`
  (lines 104-108). Plain belongsTo and hasMany relationships write nothing,
  and `serializeHasMany` is never called (the call at line 113 is commented out).
- Clearing a one-to-many pointer does not skip the membership writes. The
  related snapshot is then null and line 146 throws (`ClearedPointerFails`).
- The retraction sentinel is `null` (line 155), never `false`.
- The polymorphic branches log and go on; they do not fail. The write side
  still writes the pointer before reaching the polymorphic hook.
- The read side looks children up with `keyForAttribute` / `keyForRelationship`
  only (lines 19 and 34). It never consults the `attrs` rename table that the
  write side uses. So `AttributeRoundTrip`, `PointerReadsBack` and
  `MembershipRoundTrip` need "no rename" as a precondition, and
  `RenamedPointerMissesReadKey` shows a renamed pointer is written where the
  read side does not look.
- `belongsTo(key, { id: true })` and `belongsTo(key)` are two separate
  queries of the snapshot. The forward pointer uses the first; the membership
  writes use the second. `BothEndsAgree` states the consistency of both ends
  under the condition that the two queries agree (`CoherentBelongsTo`), as
  they do in ember-data.

## Model

| member | source | states |
|---|---|---|
| `AttrsTable.CanSerialize` | addon/serializers/firebase.js:226-230 | false exactly when the key's `attrs` entry is in object form with `serialize` the literal false; true for a missing key and for a string entry |
| `AttrsTable.GetMappedKey` | addon/serializers/firebase.js:232-248 | a non-empty string rename wins, then a non-empty string `key` member; every other case (missing entry, empty or non-string key) gives the key unchanged; the model class is not an input |
| `AttrsTable.PayloadKey` | addon/serializers/firebase.js:129-134 | a key with no `attrs` entry, or an object-form entry without a string `key`, takes the inherited key-naming hook's answer; a non-empty string rename or string `key` member that differs from the key wins; whatever else it is, the result is the hook's answer or a non-empty name different from the key that is the entry's rename or `key` member, so an identity or empty rename gives the hook's answer |
| `Normalizer.ResolveEncodings` | addon/serializers/firebase.js:63-71 | a missing node gives no reference; a `true` leaf refers to its own key; any other leaf refers to its value; a node with children reaches the embedded stub; the reference carries the requested model name |
| `Normalizer.ExtractAttributes` | addon/serializers/firebase.js:16-27 | attribute k is in the result iff it is declared and the child at its read key exists, and then maps to that child's value; no other keys |
| `Normalizer.AttributesOfSpec` | addon/serializers/firebase.js:16-27 | the same presence-iff and value facts, proved for the fold that the loop computes |
| `Normalizer.ExtractHasMany` | addon/serializers/firebase.js:45-49 | one resolved reference per child of the relationship node, in iteration order |
| `Normalizer.ResolveAllAt` | addon/serializers/firebase.js:47-49 | element i of the hasMany data is the resolution of child i |
| `Normalizer.RelationshipDataCases` | addon/serializers/firebase.js:37-53 | a belongsTo resolves its own node; a polymorphic belongsTo reaches the stub; a hasMany has exactly one entry per child, in order; any other kind is `{data: null}` |
| `Normalizer.ExtractRelationships` | addon/serializers/firebase.js:29-61 | with unique relationship names: a name is present iff its child exists, only declared names appear, and each datum is resolved from that child by kind |
| `Normalizer.RelationshipsOfSpec` | addon/serializers/firebase.js:29-61 | the same presence-iff, no-extra-keys and datum facts, proved for the fold the loop computes |
| `Normalizer.NormalizeArrayResponse` | addon/serializers/firebase.js:74-92 | `data` has one record per child of the root, the normalization of that child, in order; `included` is the in-order concatenation of what each child included (undefined counts as nothing) |
| `Normalizer.IncludedOfConcat` | addon/serializers/firebase.js:81-87 | the `included` of two runs of children is the concatenation of the two `included` lists |
| `Normalizer.DefaultListAssembly` | addon/serializers/firebase.js:12-14 | with the inherited normalize, `included` stays empty, each listed record's id is its node's key and its type the model's name, and its attributes are exactly the declared ones its node stores, with their values |
| `Patches.Patch.constructor` | addon/serializers/firebase.js:95 | a new patch is empty |
| `Patches.ApplyAllAt` | addon/serializers/firebase.js:136 | after a sequence of writes, each path holds its last write, or its old value when it was not written |
| `Patches.ApplyAllConcat` | addon/serializers/firebase.js:94-118 | writing one sequence and then another is writing their concatenation into the same patch |
| `Patches.ApplyAllIdempotent` | addon/serializers/firebase.js:159-166 | performing the same writes again leaves the patch unchanged |
| `Patches.ApplyAllFrame` | addon/serializers/firebase.js:136 | the writes add exactly their own paths, and every other path keeps its value |
| `Serializing.SerializeAttribute` | addon/serializers/firebase.js:120-138 | the patch gains `path/payloadKey = value` (transformed when the attribute has a type), or is unchanged when the key is disabled |
| `Serializing.SerializeBelongsTo` | addon/serializers/firebase.js:184-207 | the patch gains `path/payloadKey = related id`, or is unchanged when the key is disabled; reports whether the polymorphic stub was reached |
| `Serializing.SerializeHasManyMember` | addon/serializers/firebase.js:169-182 | the patch gains `buildPath(type, id)/payloadKey/origin.id = value`, with key mapping and toggle taken from the serializer it runs on, or is unchanged when the key is disabled |
| `Serializing.SerializeHasMany` | addon/serializers/firebase.js:209-224 | the patch gains `path/payloadKey = id list` when the hasMany toggle allows it and the list is known, and is unchanged otherwise |
| `Serializing.SerializeOneToMany` | addon/serializers/firebase.js:140-167 | the patch is the old patch after the forward pointer, the conditional retraction and the addition, in that order; a failed lookup stops it after the forward pointer |
| `Serializing.SerializeAttributes` | addon/serializers/firebase.js:98-100 | the patch is the old patch after every attribute's write, in declaration order |
| `Serializing.SerializeRelationships` | addon/serializers/firebase.js:102-115 | the patch is the old patch after the one-to-many writes of each relationship in order, stopping at the first failure, which is returned |
| `Serializing.Serialize` | addon/serializers/firebase.js:94-118 | returns the patch built from an empty one by all attribute writes and then all one-to-many writes, or the failure that stopped it |
| `Serializing.FailureSticks` | addon/serializers/firebase.js:102-115 | once the relationship loop has failed, later relationships change neither the writes nor the failure |
| `Serializing.OnlyOneToManyWrites` | addon/serializers/firebase.js:102-108 | relationships whose type is not oneToMany produce no writes and no failure |
| `Serializing.DisabledKeyWritesNothing` | addon/serializers/firebase.js:121 | a key with `serialize: false` makes serializeAttribute write nothing for that attribute, and serializeBelongsTo and serializeHasManyMember write nothing for that relationship; each writer depends only on its own key |
| `Serializing.SingleWriteFrame` | addon/serializers/firebase.js:180 | an enabled writer adds exactly its one path with its value and changes no other path; a disabled one changes nothing |
| `Serializing.BelongsToWrite` | addon/serializers/firebase.js:184-200 | when enabled, serializeBelongsTo writes the related id (null when none) at `path/payloadKey` |
| `Serializing.OneToManyOutcome` | addon/serializers/firebase.js:140-167 | with the lookups succeeding and keys enabled: the new parent lists the record as `true` even when the old path coincides; the forward pointer holds the related id unless a later write hits its path; the old parent's entry is null when the field changed from a truthy saved value and its path differs; exactly these paths are added and nothing else changes |
| `Serializing.BothEndsAgree` | addon/serializers/firebase.js:140-167 | when the snapshot's id query and record query agree, the forward pointer holds the new parent's id and the membership path built from that id holds `true`: both ends name the same parent (unless a membership write lands on the pointer's own path) |
| `Serializing.UnchangedWritesNoRetraction` | addon/serializers/firebase.js:148-157 | without a change or without a truthy saved value, only the forward pointer and the addition are written, and no membership write is null |
| `Serializing.OneToManyIdempotent` | addon/serializers/firebase.js:159-166 | serializing the same one-to-many field twice into a patch leaves it as after the first time |
| `Serializing.ClearedPointerFails` | addon/serializers/firebase.js:143-146 | when the related record is null, only the forward pointer is written and the call fails at the related snapshot's `record` |
| `Serializing.MembershipReadsBack` | addon/serializers/firebase.js:69 | a membership entry written as `true` reads back as a reference to the origin record's id; one retracted with null reads back as no reference |
| `Serializing.CollectionReadsBack` | addon/serializers/firebase.js:47-48 | a collection of `id: true` membership entries reads back as references to those ids, one per entry, in order |
| `Serializing.PointerReadsBack` | addon/serializers/firebase.js:184-200 | for a non-polymorphic belongsTo with no rename whose read and write key names agree, the pointer is written at `path/key`, the child the read side looks up; the relationship is read iff the id is neither null nor an empty array, and then as a reference to that id (an id equal to `true` would be read as a membership entry keyed by its node) |
| `Serializing.RenamedPointerMissesReadKey` | addon/serializers/firebase.js:31-35 | under an `attrs` rename that differs from the read key, the pointer is written at `path/rename`, which is not the child the read side looks up |
| `Serializing.MembershipRoundTrip` | addon/serializers/firebase.js:169-182 | with no rename and agreeing key names on the related type's serializer, the membership path is the parent's collection node (where its hasMany read looks) followed by the origin's id, and a `true` written there is read by the parent as a reference to the origin record |
| `Serializing.AttributeRoundTrip` | addon/serializers/firebase.js:120-137 | for an enabled attribute with no rename whose read and write key names agree, the value written at `path/key` reads back as that attribute; a null or empty-array write reads back as absent |

## Left out

- The Firebase snapshot API is replaced by the immutable `Node` datatype.
  `child` is modelled for one path segment only. A key-naming hook that
  returns a key containing `/` would address a grandchild, which the model
  does not follow.
- Members inherited from the JSON serializer are function-valued fields of
  `Serializer`: `keyForAttribute`, `keyForRelationship`, the
  `transformFor(type).serialize` pair and `shouldSerializeHasMany`. The source
  also checks that `this.keyForAttribute` (line 132) and
  `this.keyForRelationship` (lines 176, 192 and 217) are defined; they always
  are (they are inherited), so those checks are not modelled.
- `serializePolymorphicType` (line 204) is foreign code. The model only
  reports that the polymorphic branch was reached.
- The inherited `normalize` is a parameter of `NormalizeArrayResponse`.
  `NormalizeRecord` composes this file's extractors as the default. The
  inherited renaming (`normalizeUsingDeclaredMapping`) and read-side
  attribute transforms are not part of this model.
- Store, adapter and model lookups are fields of `Store`, `Snapshot` and
  `Related`: `serializerFor`, `adapterFor(...).buildPath`,
  `determineRelationshipType`, `inverseFor`, `relationshipFor`, `didChange`,
  `savedTrackerValue` and the snapshot accessors. `store.modelFor` is
  dropped, because `_getMappedKey` never reads its argument.
- The attribute's `options` argument to the transform is not modelled. The
  transform sees only the type and the value.
- Numbers are integers; floating-point values are not modelled.
- A path is written as the string concatenation of its segments. The
  origin record's id is a string; `buildPath` turns a related id into a path.
- `store.serializerFor` (line 142) is assumed to return a serializer of this
  kind, one that differs only in its `attrs` table and its inherited hooks.
  A related type whose serializer lacks `serializeHasManyMember`, or
  overrides it, is not modelled. In the source the first throws a TypeError
  at line 149 or 159, after the forward pointer has been written. That
  failure has no `Crash` value.
- `Node` admits trees that Firebase never yields: an absent child inside
  `children`, or a node with children whose `val` is unrelated to them. The
  model places no well-formedness condition on nodes. For example, a root
  whose only child is absent lists one record. `MembershipReadsBack` speaks
  of the retracted leaf itself; in the store, a retracted entry is simply
  not among the parent's children.
- Serializing.AttributeRoundTrip: the store's other normalisations of a
  written value are not modelled. An array's null elements are dropped and
  its remaining elements kept as they are. Only a null or empty-array value
  stored as nothing is captured.
- Serializing.Serialize: `options` is assumed to be given. Without it, the
  destructuring at line 96 throws a TypeError before any write, and the
  model has no `Crash` value for that. `Value` also has no `undefined`, so
  an attribute whose value is undefined, which line 136 writes as
  undefined, is assumed not to occur. Its nearest model value, `Null`,
  deletes the path.
- Dictionary key order of `attributes` and `relationships` is not kept,
  because they are maps.
- The logging and `debugger` statements (lines 41, 67, 144, 203) are left
  out. So are the commented-out serializer at lines 250-545 and the
  commented-out belongsTo/hasMany dispatch at lines 110-114.
- Sending the patch to Firebase (the atomic multi-path update) is outside
  this file.
- Normalizer.ExtractRelationships: the per-relationship presence and data
  facts are stated only when relationship names are unique. ember-data keys
  relationships by name, so they always are. Otherwise the contract states
  only the fold, in which a later relationship of the same name wins.

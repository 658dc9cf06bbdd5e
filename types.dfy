/**
 * Values and collaborators of the Firebase serializer: the tree snapshot the
 * store hands back on reads, the model schema, the per-type serializer
 * configuration, the store lookups and the record snapshot consulted on writes.
 * Everything the serializer asks of foreign code is a field of one of these
 * datatypes (a function-valued field where the source calls a method).
 */
module FirebaseTypes {

  datatype Option<+T> = None | Some(value: T)

  /** A value as the tree store holds it. `List` is the array payload that serializeHasMany writes. */
  datatype Value = Null | Bool(b: bool) | Num(n: int) | Str(s: string) | List(items: seq<Value>)

  /** JavaScript truthiness of a value, as an `if` or `&&` in the source tests it. */
  predicate Truthy(v: Value)
  {
    match v
    case Null => false
    case Bool(b) => b
    case Num(n) => n != 0
    case Str(s) => s != ""
    case List(_) => true
  }

  /**
   * A snapshot of the tree store rooted at some path: its key (the last path
   * segment), whether anything is stored there, the value of a leaf, and the
   * children in the store's iteration order.
   */
  datatype Node = Node(key: string, present: bool, val: Value, children: seq<Node>)

  /** What the store returns for a key under which nothing is stored. */
  function Absent(k: string): (n: Node)
    ensures n.key == k && !n.present && n.children == []
  {
    Node(k, false, Null, [])
  }

  /**
   * The node the store holds at key `k` once `v` has been written there:
   * writing null deletes, and an empty array is stored as nothing too.
   */
  function Stored(k: string, v: Value): (n: Node)
    ensures n.key == k && n.children == []
    ensures n.present <==> v != Null && v != List([])
    ensures n.present ==> n.val == v
  {
    if v == Null || v == List([]) then Absent(k) else Node(k, true, v, [])
  }

  /** The first child stored under key `k`, or an absent node with that key. */
  function FindChild(cs: seq<Node>, k: string): (c: Node)
    ensures c.key == k
    ensures c.present ==> c in cs
  {
    if cs == [] then Absent(k)
    else if cs[0].key == k then cs[0]
    else FindChild(cs[1..], k)
  }

  /** Firebase's `snapshot.child(key)` for a single path segment. */
  function Child(n: Node, k: string): (c: Node)
    ensures c.key == k
    ensures c.present ==> c in n.children
  {
    FindChild(n.children, k)
  }

  /** The kind of an ember-data relationship (`relationshipMeta.kind`). */
  datatype Kind = BelongsTo | HasMany | OtherKind(name: string)

  /** One entry of `modelClass.eachAttribute`: its name and its declared transform type, if any. */
  datatype AttrMeta = AttrMeta(key: string, transformType: Option<string>)

  /** One entry of `modelClass.eachRelationship`: name, kind, related model name, `options.polymorphic`. */
  datatype RelMeta = RelMeta(key: string, kind: Kind, target: string, polymorphic: bool)

  /** A model class as the serializer sees it, attributes and relationships in iteration order. */
  datatype Schema = Schema(modelName: string, attributes: seq<AttrMeta>, relationships: seq<RelMeta>)

  /** The `key` member of an `attrs` entry written in object form: missing, a string, or some other value. */
  datatype KeyOption = NoKey | KeyName(name: string) | KeyOther

  /**
   * An entry of the serializer's `attrs` table: either the string form
   * `{ title: 'post_title' }` or the object form `{ title: { key, serialize } }`.
   * `serialize` is `Some(false)` only when it is the literal `false`.
   */
  datatype AttrOption = Rename(name: string) | Options(key: KeyOption, serialize: Option<bool>)

  /**
   * A serializer instance for one model type: its `attrs` table and the
   * members it inherits from the JSON serializer (key naming, attribute
   * transforms, the hasMany toggle), which are foreign code here.
   */
  datatype Serializer = Serializer(
    attrs: map<string, AttrOption>,
    keyForAttribute: (string, string) -> string,
    keyForRelationship: (string, Kind, string) -> string,
    transform: (string, Value) -> Value,
    shouldSerializeHasMany: (Snapshot, string, RelMeta) -> bool)

  /** The store lookups the serializer uses: `serializerFor` and `adapterFor(type).buildPath`. */
  datatype Store = Store(serializerFor: string -> Serializer, buildPath: (string, Value) -> string)

  /** What `determineRelationshipType` answers; only `oneToMany` matters to the serializer. */
  datatype RelType = OneToMany | OtherRelType(name: string)

  /** The snapshot of a related record: its id and its model's `relationshipFor` lookup. */
  datatype Related = Related(id: Value, relationshipFor: string -> Option<RelMeta>)

  /**
   * A record snapshot at serialization time. `belongsToId` answers
   * `belongsTo(key, { id: true })` (Null when none), `belongsTo` answers
   * `belongsTo(key)` (None for null or undefined), `inverseFor` gives the
   * `name` of the inverse relationship, and `didChange`/`savedTrackerValue`
   * are the change tracker's queries.
   */
  datatype Snapshot = Snapshot(
    id: string,
    attr: string -> Value,
    belongsToId: string -> Value,
    belongsTo: string -> Option<Related>,
    hasManyIds: string -> Option<seq<Value>>,
    inverseFor: string -> Option<string>,
    didChange: string -> bool,
    savedTrackerValue: string -> Value,
    relationshipType: RelMeta -> RelType)

  /** The two encodings the source leaves as "NEED TO IMPLEMENT". */
  datatype Gap = Polymorphic | Embedded

  /** What `extractRelationship` yields: null, a reference `{id, type}`, or a stub that was reached. */
  datatype Resolved = NoRef | Ref(id: Value, modelName: string) | Stub(gap: Gap)

  /** The `data` of one normalized relationship: one reference or an ordered list of them. */
  datatype Data = Single(ref: Resolved) | Many(refs: seq<Resolved>)

  /** A normalized record: `{id, type, attributes, relationships}`. */
  datatype Record = Record(id: string, modelName: string, attributes: map<string, Value>, relationships: map<string, Data>)

  /** What `normalize` returns for one node; `included` is undefined (None) unless some override fills it. */
  datatype Normalized = Normalized(data: Record, included: Option<seq<Record>>)

  /** The document `normalizeArrayResponse` returns. */
  datatype Document = Document(data: seq<Record>, included: seq<Record>)

  /** One write of the patch: `json[path] = value`. */
  datatype Entry = Entry(path: string, value: Value)

  /** The TypeErrors serializeOneToMany can throw, by the lookup that came back null or undefined. */
  datatype Crash = NoInverse | NoRelatedRecord | NoInverseRelationship

  datatype Result<+T> = Success(value: T) | Failure(error: Crash)
}

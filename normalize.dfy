/**
 * The read side of the serializer: a tree snapshot of one record becomes a
 * normalized record, and a snapshot of a list becomes a document. Each
 * extractor that fills a dictionary or an array inside a `forEach` in the
 * source is a method with a loop, proved against a specification function.
 */
module Normalizer {
  import opened FirebaseTypes

  /** `extractId`: a record's id is the key of its node. */
  function ExtractId(n: Node): string
  {
    n.key
  }

  /** The child key `extractAttributes` reads attribute `key` from (the source passes the misspelt 'deserialze'). */
  function AttributeKey(s: Serializer, key: string): string
  {
    s.keyForAttribute(key, "deserialze")
  }

  /** The child key `extractRelationships` reads relationship `meta` from. */
  function RelationshipKey(s: Serializer, meta: RelMeta): string
  {
    s.keyForRelationship(meta.key, meta.kind, "deserialze")
  }

  /**
   * `extractRelationship`: resolves one reference from the shape of its node.
   * A missing node is null; a leaf holding `true` is a membership entry whose
   * key is the id; any other leaf is a pointer whose value is the id; a node
   * with children is the unimplemented embedded stub.
   */
  function ExtractRelationship(modelName: string, n: Node): Resolved
  {
    if !n.present then NoRef
    else if n.children != [] then Stub(Embedded)
    else Ref(if n.val == Bool(true) then Str(n.key) else n.val, modelName)
  }

  /** Resolves each node of `cs` in order, as the hasMany branch does for the grandchildren. */
  function ResolveAll(modelName: string, cs: seq<Node>): (rs: seq<Resolved>)
    ensures |rs| == |cs|
  {
    if cs == [] then [] else ResolveAll(modelName, cs[..|cs| - 1]) + [ExtractRelationship(modelName, cs[|cs| - 1])]
  }

  /** The `data` of one relationship whose child node `c` exists. */
  function RelationshipData(meta: RelMeta, c: Node): Data
  {
    match meta.kind
    case BelongsTo => if meta.polymorphic then Single(Stub(Polymorphic)) else Single(ExtractRelationship(meta.target, c))
    case HasMany => Many(ResolveAll(meta.target, c.children))
    case OtherKind(_) => Single(NoRef)
  }

  /**
   * The dual encoding `extractRelationship` reads without being told which is
   * in use: a missing node is no reference, a `true` leaf refers to its own key,
   * any other leaf refers to its value, and a node with children is the stub.
   * The reference always carries the requested model name.
   */
  lemma ResolveEncodings(modelName: string, n: Node)
    ensures !n.present ==> ExtractRelationship(modelName, n) == NoRef
    ensures n.present && n.children != [] ==> ExtractRelationship(modelName, n) == Stub(Embedded)
    ensures n.present && n.children == [] && n.val == Bool(true) ==> ExtractRelationship(modelName, n) == Ref(Str(n.key), modelName)
    ensures n.present && n.children == [] && n.val != Bool(true) ==> ExtractRelationship(modelName, n) == Ref(n.val, modelName)
  {
  }

  /**
   * The `data` of a relationship, by kind: a belongsTo resolves its own node,
   * a polymorphic belongsTo reaches the stub, a hasMany has one reference per
   * child in iteration order, and any other kind is null.
   */
  lemma RelationshipDataCases(meta: RelMeta, c: Node)
    ensures meta.kind == BelongsTo && !meta.polymorphic ==> RelationshipData(meta, c) == Single(ExtractRelationship(meta.target, c))
    ensures meta.kind == BelongsTo && meta.polymorphic ==> RelationshipData(meta, c) == Single(Stub(Polymorphic))
    ensures meta.kind == HasMany ==>
              RelationshipData(meta, c).Many? && |RelationshipData(meta, c).refs| == |c.children| &&
              forall i :: 0 <= i < |c.children| ==> RelationshipData(meta, c).refs[i] == ExtractRelationship(meta.target, c.children[i])
    ensures meta.kind.OtherKind? ==> RelationshipData(meta, c) == Single(NoRef)
  {
    if meta.kind == HasMany {
      forall i | 0 <= i < |c.children| ensures ResolveAll(meta.target, c.children)[i] == ExtractRelationship(meta.target, c.children[i]) {
        ResolveAllAt(meta.target, c.children, i);
      }
    }
  }

  /** The set of names a list of attributes declares. */
  function AttrKeys(attrs: seq<AttrMeta>): set<string>
  {
    set i | 0 <= i < |attrs| :: attrs[i].key
  }

  /** The set of names a list of relationships declares. */
  function RelKeys(rels: seq<RelMeta>): set<string>
  {
    set i | 0 <= i < |rels| :: rels[i].key
  }

  /** No two relationships share a name (ember-data keys them by name). */
  predicate UniqueRelKeys(rels: seq<RelMeta>)
  {
    forall i, j :: 0 <= i < j < |rels| ==> rels[i].key != rels[j].key
  }

  /** The dictionary `extractAttributes` builds after visiting `attrs` in order. */
  function AttributesOf(s: Serializer, attrs: seq<AttrMeta>, n: Node): map<string, Value>
  {
    if attrs == [] then map[]
    else
      var m := AttributesOf(s, attrs[..|attrs| - 1], n);
      var key := attrs[|attrs| - 1].key;
      var c := Child(n, AttributeKey(s, key));
      if c.present then m[key := c.val] else m
  }

  /** The dictionary `extractRelationships` builds after visiting `rels` in order. */
  function RelationshipsOf(s: Serializer, rels: seq<RelMeta>, n: Node): map<string, Data>
  {
    if rels == [] then map[]
    else
      var m := RelationshipsOf(s, rels[..|rels| - 1], n);
      var meta := rels[|rels| - 1];
      var c := Child(n, RelationshipKey(s, meta));
      if c.present then m[meta.key := RelationshipData(meta, c)] else m
  }

  /** Attribute `k` is read exactly when it is declared and its child exists, and then holds that child's value. */
  lemma {:induction false} AttributesOfSpec(s: Serializer, attrs: seq<AttrMeta>, n: Node)
    ensures forall k :: k in AttributesOf(s, attrs, n) <==> k in AttrKeys(attrs) && Child(n, AttributeKey(s, k)).present
    ensures forall k :: k in AttributesOf(s, attrs, n) ==> AttributesOf(s, attrs, n)[k] == Child(n, AttributeKey(s, k)).val
  {
    if attrs != [] {
      var init := attrs[..|attrs| - 1];
      AttributesOfSpec(s, init, n);
      assert AttrKeys(attrs) == AttrKeys(init) + {attrs[|attrs| - 1].key} by {
        forall k | k in AttrKeys(attrs) ensures k in AttrKeys(init) + {attrs[|attrs| - 1].key} {
          var i :| 0 <= i < |attrs| && attrs[i].key == k;
          if i < |attrs| - 1 { assert init[i].key == k; }
        }
      }
    }
  }

  /**
   * With unique names, relationship `rels[j]` is present exactly when its child
   * exists, its data is resolved from that child, and no undeclared name appears.
   */
  lemma {:induction false} RelationshipsOfSpec(s: Serializer, rels: seq<RelMeta>, n: Node)
    requires UniqueRelKeys(rels)
    ensures forall k :: k in RelationshipsOf(s, rels, n) ==> k in RelKeys(rels)
    ensures forall j :: 0 <= j < |rels| ==> (rels[j].key in RelationshipsOf(s, rels, n) <==> Child(n, RelationshipKey(s, rels[j])).present)
    ensures forall j :: 0 <= j < |rels| && rels[j].key in RelationshipsOf(s, rels, n) ==>
              RelationshipsOf(s, rels, n)[rels[j].key] == RelationshipData(rels[j], Child(n, RelationshipKey(s, rels[j])))
  {
    if rels != [] {
      var init, last := rels[..|rels| - 1], rels[|rels| - 1];
      var m0, c := RelationshipsOf(s, init, n), Child(n, RelationshipKey(s, last));
      var m := RelationshipsOf(s, rels, n);
      assert m == if c.present then m0[last.key := RelationshipData(last, c)] else m0;
      assert UniqueRelKeys(init);
      RelationshipsOfSpec(s, init, n);
      forall k | k in m ensures k in RelKeys(rels) {
        if k in m0 {
          var i :| 0 <= i < |init| && init[i].key == k;
          assert rels[i].key == k;
        } else {
          assert k == rels[|rels| - 1].key;
        }
      }
      forall j | 0 <= j < |rels|
        ensures rels[j].key in m <==> Child(n, RelationshipKey(s, rels[j])).present
        ensures rels[j].key in m ==> m[rels[j].key] == RelationshipData(rels[j], Child(n, RelationshipKey(s, rels[j])))
      {
        if j < |rels| - 1 {
          assert init[j] == rels[j] && rels[j].key != last.key;
        }
      }
    }
  }

  /**
   * `extractAttributes`: copies each declared attribute whose child node
   * exists, and only those.
   */
  method ExtractAttributes(s: Serializer, schema: Schema, n: Node) returns (attributes: map<string, Value>)
    ensures attributes == AttributesOf(s, schema.attributes, n)
    ensures forall k :: k in attributes <==> k in AttrKeys(schema.attributes) && Child(n, AttributeKey(s, k)).present
    ensures forall k :: k in attributes ==> attributes[k] == Child(n, AttributeKey(s, k)).val
  {
    var attrs := schema.attributes;
    attributes := map[];
    for i := 0 to |attrs|
      invariant attributes == AttributesOf(s, attrs[..i], n)
    {
      assert attrs[..i + 1][..i] == attrs[..i];
      var key := attrs[i].key;
      var child := Child(n, AttributeKey(s, key));
      if child.present {
        attributes := attributes[key := child.val];
      }
    }
    assert attrs[..|attrs|] == attrs;
    AttributesOfSpec(s, attrs, n);
  }

  /** The `forEach` of the hasMany branch: one resolved reference per child, in iteration order. */
  method ExtractHasMany(modelName: string, c: Node) returns (data: seq<Resolved>)
    ensures |data| == |c.children|
    ensures forall i :: 0 <= i < |data| ==> data[i] == ExtractRelationship(modelName, c.children[i])
  {
    data := [];
    for i := 0 to |c.children|
      invariant |data| == i
      invariant forall j :: 0 <= j < i ==> data[j] == ExtractRelationship(modelName, c.children[j])
    {
      data := data + [ExtractRelationship(modelName, c.children[i])];
    }
  }

  /** The elements of `ResolveAll` are the resolutions of the nodes at the same positions. */
  lemma {:induction false} ResolveAllAt(modelName: string, cs: seq<Node>, i: int)
    requires 0 <= i < |cs|
    ensures ResolveAll(modelName, cs)[i] == ExtractRelationship(modelName, cs[i])
  {
    if i < |cs| - 1 {
      ResolveAllAt(modelName, cs[..|cs| - 1], i);
    }
  }

  /**
   * `extractRelationships`: one `{data}` per relationship whose child exists.
   * A hasMany resolves each grandchild in order, a belongsTo resolves the child
   * itself, a polymorphic belongsTo reaches the stub, any other kind is null.
   */
  method ExtractRelationships(s: Serializer, schema: Schema, n: Node) returns (relationships: map<string, Data>)
    ensures relationships == RelationshipsOf(s, schema.relationships, n)
    ensures UniqueRelKeys(schema.relationships) ==>
              (forall k :: k in relationships ==> k in RelKeys(schema.relationships)) &&
              (forall j :: 0 <= j < |schema.relationships| ==>
                (schema.relationships[j].key in relationships <==> Child(n, RelationshipKey(s, schema.relationships[j])).present)) &&
              (forall j :: 0 <= j < |schema.relationships| && schema.relationships[j].key in relationships ==>
                relationships[schema.relationships[j].key] == RelationshipData(schema.relationships[j], Child(n, RelationshipKey(s, schema.relationships[j]))))
  {
    var rels := schema.relationships;
    relationships := map[];
    for i := 0 to |rels|
      invariant relationships == RelationshipsOf(s, rels[..i], n)
    {
      assert rels[..i + 1][..i] == rels[..i];
      var meta := rels[i];
      var child := Child(n, RelationshipKey(s, meta));
      if child.present {
        var data: Data;
        match meta.kind {
          case BelongsTo =>
            if meta.polymorphic {
              data := Single(Stub(Polymorphic));
            } else {
              data := Single(ExtractRelationship(meta.target, child));
            }
          case HasMany =>
            var refs := ExtractHasMany(meta.target, child);
            forall j | 0 <= j < |refs| ensures refs[j] == ResolveAll(meta.target, child.children)[j] {
              ResolveAllAt(meta.target, child.children, j);
            }
            assert refs == ResolveAll(meta.target, child.children);
            data := Many(refs);
          case OtherKind(_) =>
            data := Single(NoRef);
        }
        relationships := relationships[meta.key := data];
      }
    }
    assert rels[..|rels|] == rels;
    if UniqueRelKeys(rels) {
      RelationshipsOfSpec(s, rels, n);
    }
  }

  /** What the inherited `normalize` builds from this file's extractors: one record, nothing included. */
  function NormalizeRecord(s: Serializer, schema: Schema, n: Node): Normalized
  {
    Normalized(Record(ExtractId(n), schema.modelName, AttributesOf(s, schema.attributes, n), RelationshipsOf(s, schema.relationships, n)), None)
  }

  /** The inherited `normalize` as a function of the node, for `NormalizeArrayResponse`. */
  function DefaultNormalize(s: Serializer, schema: Schema): Node -> Normalized
  {
    n => NormalizeRecord(s, schema, n)
  }

  /** The records one call of `normalize` contributes to `included`; undefined contributes none. */
  function IncludedBy(d: Normalized): seq<Record>
  {
    if d.included.Some? then d.included.value else []
  }

  /** The `included` list after normalizing the nodes `cs` in order. */
  function IncludedOf(normalize: Node -> Normalized, cs: seq<Node>): seq<Record>
  {
    if cs == [] then [] else IncludedOf(normalize, cs[..|cs| - 1]) + IncludedBy(normalize(cs[|cs| - 1]))
  }

  /** `included` is an in-order concatenation: splitting the children splits the list. */
  lemma {:induction false} IncludedOfConcat(normalize: Node -> Normalized, a: seq<Node>, b: seq<Node>)
    ensures IncludedOf(normalize, a + b) == IncludedOf(normalize, a) + IncludedOf(normalize, b)
  {
    if b != [] {
      assert (a + b)[..|a + b| - 1] == a + b[..|b| - 1];
      IncludedOfConcat(normalize, a, b[..|b| - 1]);
    } else {
      assert a + b == a;
    }
  }

  /**
   * `normalizeArrayResponse`: one normalized record per child, in iteration
   * order, and the in-order concatenation of what each child included.
   */
  method NormalizeArrayResponse(normalize: Node -> Normalized, root: Node) returns (doc: Document)
    ensures |doc.data| == |root.children|
    ensures forall i :: 0 <= i < |root.children| ==> doc.data[i] == normalize(root.children[i]).data
    ensures doc.included == IncludedOf(normalize, root.children)
  {
    var cs := root.children;
    var results: seq<Record> := [];
    var included: seq<Record> := [];
    for i := 0 to |cs|
      invariant |results| == i
      invariant forall j :: 0 <= j < i ==> results[j] == normalize(cs[j]).data
      invariant included == IncludedOf(normalize, cs[..i])
    {
      assert cs[..i + 1][..i] == cs[..i];
      var d := normalize(cs[i]);
      if d.included.Some? {
        included := included + d.included.value;
      }
      results := results + [d.data];
    }
    assert cs[..|cs|] == cs;
    doc := Document(results, included);
  }

  /**
   * With the inherited `normalize`, `included` stays empty, and every listed
   * record takes its id from its child's key, its type from the model, and
   * holds exactly the declared attributes its child stores, with their values.
   */
  lemma {:induction false} DefaultListAssembly(s: Serializer, schema: Schema, cs: seq<Node>)
    ensures IncludedOf(DefaultNormalize(s, schema), cs) == []
    ensures forall i :: 0 <= i < |cs| ==>
              DefaultNormalize(s, schema)(cs[i]).data.id == cs[i].key && DefaultNormalize(s, schema)(cs[i]).data.modelName == schema.modelName
    ensures forall i, k :: 0 <= i < |cs| ==>
              (k in DefaultNormalize(s, schema)(cs[i]).data.attributes <==> k in AttrKeys(schema.attributes) && Child(cs[i], AttributeKey(s, k)).present)
    ensures forall i, k :: 0 <= i < |cs| && k in DefaultNormalize(s, schema)(cs[i]).data.attributes ==>
              DefaultNormalize(s, schema)(cs[i]).data.attributes[k] == Child(cs[i], AttributeKey(s, k)).val
  {
    if cs != [] {
      DefaultListAssembly(s, schema, cs[..|cs| - 1]);
    }
    forall i | 0 <= i < |cs| {
      AttributesOfSpec(s, schema.attributes, cs[i]);
    }
  }
}

/**
 * The write side of the serializer: a record snapshot becomes writes into
 * one shared patch. Each writer is a method that changes the patch in place,
 * specified by the entries it writes (a function of its inputs); the
 * properties of those entries are the lemmas below.
 */
module Serializing {
  import opened FirebaseTypes
  import opened AttrsTable
  import opened Patches
  import Normalizer

  /** `${path}/${segment}`. */
  function Under(path: string, segment: string): string
  {
    path + "/" + segment
  }

  /** The entry `serializeAttribute` writes, or None when the `attrs` table disables the key. */
  function AttributeEntry(s: Serializer, snap: Snapshot, key: string, attr: AttrMeta, path: string): Option<Entry>
  {
    if !CanSerialize(s.attrs, key) then None
    else
      var raw := snap.attr(key);
      var value := if attr.transformType.Some? && attr.transformType.value != "" then s.transform(attr.transformType.value, raw) else raw;
      Some(Entry(Under(path, PayloadKey(s.attrs, key, s.keyForAttribute(key, "serialize"))), value))
  }

  /** The entry `serializeBelongsTo` writes: the related id under the record's path, null when there is none. */
  function BelongsToEntry(s: Serializer, snap: Snapshot, rel: RelMeta, path: string): Option<Entry>
  {
    if !CanSerialize(s.attrs, rel.key) then None
    else Some(Entry(Under(path, PayloadKey(s.attrs, rel.key, s.keyForRelationship(rel.key, BelongsTo, "serialize"))), snap.belongsToId(rel.key)))
  }

  /** The path of the membership entry of `origin` in the collection `rel` of record `id` of type `modelName`. */
  function MembershipPath(s: Serializer, store: Store, modelName: string, id: Value, rel: RelMeta, origin: Snapshot): string
  {
    Under(Under(store.buildPath(modelName, id), PayloadKey(s.attrs, rel.key, s.keyForRelationship(rel.key, HasMany, "serialize"))), origin.id)
  }

  /** The entry `serializeHasManyMember` writes, using the key mapping of the serializer `s` it runs on. */
  function MembershipEntry(s: Serializer, store: Store, modelName: string, id: Value, rel: RelMeta, origin: Snapshot, value: Value): Option<Entry>
  {
    if !CanSerialize(s.attrs, rel.key) then None
    else Some(Entry(MembershipPath(s, store, modelName, id, rel, origin), value))
  }

  /** The entry `serializeHasMany` writes: the whole id list, when the toggle allows it and the list is known. */
  function HasManyEntry(s: Serializer, snap: Snapshot, rel: RelMeta, path: string): Option<Entry>
  {
    if !s.shouldSerializeHasMany(snap, rel.key, rel) then None
    else match snap.hasManyIds(rel.key)
      case None => None
      case Some(ids) => Some(Entry(Under(path, PayloadKey(s.attrs, rel.key, s.keyForRelationship(rel.key, HasMany, "serialize"))), List(ids)))
  }

  /** The writes a serialization performs, in order, and the TypeError that stopped it, if one did. */
  datatype Plan = Plan(entries: seq<Entry>, failure: Option<Crash>)

  /**
   * The writes of `serializeOneToMany`: the forward pointer; then, once the
   * inverse lookups have succeeded, a null retraction under the old parent
   * when the field changed and the saved value is truthy; then `true` under
   * the new parent. Membership entries use the serializer of the related type.
   */
  function OneToManyPlan(s: Serializer, store: Store, snap: Snapshot, rel: RelMeta, path: string): Plan
  {
    var forward := Writes(BelongsToEntry(s, snap, rel, path));
    var inverseSerializer := store.serializerFor(rel.target);
    match snap.inverseFor(rel.key)
    case None => Plan(forward, Some(NoInverse))
    case Some(name) =>
      match snap.belongsTo(rel.key)
      case None => Plan(forward, Some(NoRelatedRecord))
      case Some(related) =>
        match related.relationshipFor(name)
        case None => Plan(forward, Some(NoInverseRelationship))
        case Some(inverse) =>
          var saved := snap.savedTrackerValue(rel.key);
          var retraction := if snap.didChange(rel.key) && Truthy(saved)
                            then Writes(MembershipEntry(inverseSerializer, store, rel.target, saved, inverse, snap, Null))
                            else [];
          var addition := Writes(MembershipEntry(inverseSerializer, store, rel.target, related.id, inverse, snap, Bool(true)));
          Plan(forward + retraction + addition, None)
  }

  /** The writes of the attribute loop of `serialize` over `attrs`. */
  function AttributesPlan(s: Serializer, snap: Snapshot, attrs: seq<AttrMeta>, path: string): seq<Entry>
  {
    if attrs == [] then []
    else
      var attr := attrs[|attrs| - 1];
      AttributesPlan(s, snap, attrs[..|attrs| - 1], path) + Writes(AttributeEntry(s, snap, attr.key, attr, path))
  }

  /** The writes of the relationship loop of `serialize` over `rels`: only oneToMany relationships write. */
  function RelationshipsPlan(s: Serializer, store: Store, snap: Snapshot, rels: seq<RelMeta>, path: string): Plan
  {
    if rels == [] then Plan([], None)
    else
      var prefix := RelationshipsPlan(s, store, snap, rels[..|rels| - 1], path);
      var rel := rels[|rels| - 1];
      if prefix.failure.Some? || !snap.relationshipType(rel).OneToMany? then prefix
      else
        var p := OneToManyPlan(s, store, snap, rel, path);
        Plan(prefix.entries + p.entries, p.failure)
  }

  /** The writes of `serialize`: every attribute, then every oneToMany relationship. */
  function SerializePlan(s: Serializer, store: Store, snap: Snapshot, schema: Schema, path: string): Plan
  {
    var rp := RelationshipsPlan(s, store, snap, schema.relationships, path);
    Plan(AttributesPlan(s, snap, schema.attributes, path) + rp.entries, rp.failure)
  }

  /** `serializeAttribute`: one write under the record's path, none when the key is disabled. */
  method SerializeAttribute(s: Serializer, snap: Snapshot, json: Patch, key: string, attr: AttrMeta, path: string)
    modifies json
    ensures json.entries == ApplyAll(old(json.entries), Writes(AttributeEntry(s, snap, key, attr, path)))
  {
    if CanSerialize(s.attrs, key) {
      var value := snap.attr(key);
      if attr.transformType.Some? && attr.transformType.value != "" {
        value := s.transform(attr.transformType.value, value);
      }
      var payloadKey := GetMappedKey(s.attrs, key);
      if payloadKey == key {
        payloadKey := s.keyForAttribute(key, "serialize");
      }
      json.entries := json.entries[Under(path, payloadKey) := value];
    }
  }

  /**
   * `serializeBelongsTo`: one write under the record's path, none when the key
   * is disabled. `stub` reports that the polymorphic branch was reached.
   */
  method SerializeBelongsTo(s: Serializer, snap: Snapshot, json: Patch, rel: RelMeta, path: string) returns (stub: bool)
    modifies json
    ensures json.entries == ApplyAll(old(json.entries), Writes(BelongsToEntry(s, snap, rel, path)))
    ensures stub <==> CanSerialize(s.attrs, rel.key) && rel.polymorphic
  {
    stub := false;
    var key := rel.key;
    if CanSerialize(s.attrs, key) {
      var belongsToId := snap.belongsToId(key);
      var payloadKey := GetMappedKey(s.attrs, key);
      if payloadKey == key {
        payloadKey := s.keyForRelationship(key, BelongsTo, "serialize");
      }
      if belongsToId == Null {
        json.entries := json.entries[Under(path, payloadKey) := Null];
      } else {
        json.entries := json.entries[Under(path, payloadKey) := belongsToId];
      }
      stub := rel.polymorphic;
    }
  }

  /** `serializeHasManyMember`: one membership write under another record's root, none when the key is disabled. */
  method SerializeHasManyMember(s: Serializer, store: Store, modelName: string, id: Value, json: Patch, rel: RelMeta, origin: Snapshot, value: Value)
    modifies json
    ensures json.entries == ApplyAll(old(json.entries), Writes(MembershipEntry(s, store, modelName, id, rel, origin, value)))
  {
    var key := rel.key;
    if CanSerialize(s.attrs, key) {
      var path := store.buildPath(modelName, id);
      var payloadKey := GetMappedKey(s.attrs, key);
      if payloadKey == key {
        payloadKey := s.keyForRelationship(key, HasMany, "serialize");
      }
      json.entries := json.entries[Under(Under(path, payloadKey), origin.id) := value];
    }
  }

  /** `serializeHasMany`: the whole id list under the record's path, when allowed and known. */
  method SerializeHasMany(s: Serializer, snap: Snapshot, json: Patch, rel: RelMeta, path: string)
    modifies json
    ensures json.entries == ApplyAll(old(json.entries), Writes(HasManyEntry(s, snap, rel, path)))
  {
    var key := rel.key;
    if s.shouldSerializeHasMany(snap, key, rel) {
      var hasMany := snap.hasManyIds(key);
      if hasMany.Some? {
        var payloadKey := GetMappedKey(s.attrs, key);
        if payloadKey == key {
          payloadKey := s.keyForRelationship(key, HasMany, "serialize");
        }
        json.entries := json.entries[Under(path, payloadKey) := List(hasMany.value)];
      }
    }
  }

  /**
   * `serializeOneToMany`: keeps both ends of a one-to-many relationship
   * consistent in one patch. The forward pointer is written first; a failed
   * lookup then stops it with the TypeError the source would throw.
   */
  method SerializeOneToMany(s: Serializer, store: Store, snap: Snapshot, json: Patch, rel: RelMeta, path: string) returns (failure: Option<Crash>)
    modifies json
    ensures json.entries == ApplyAll(old(json.entries), OneToManyPlan(s, store, snap, rel, path).entries)
    ensures failure == OneToManyPlan(s, store, snap, rel, path).failure
  {
    var _ := SerializeBelongsTo(s, snap, json, rel, path);
    var inverseSerializer := store.serializerFor(rel.target);
    var inverseSnapshot := snap.belongsTo(rel.key);
    var name := snap.inverseFor(rel.key);
    if name.None? {
      return Some(NoInverse);
    }
    if inverseSnapshot.None? {
      return Some(NoRelatedRecord);
    }
    var inverseRelationship := inverseSnapshot.value.relationshipFor(name.value);
    if inverseRelationship.None? {
      // `relationship.key` at the head of serializeHasManyMember dereferences it
      return Some(NoInverseRelationship);
    }
    var forward := Writes(BelongsToEntry(s, snap, rel, path));
    var retraction: seq<Entry> := [];
    var saved := snap.savedTrackerValue(rel.key);
    if snap.didChange(rel.key) && Truthy(saved) {
      SerializeHasManyMember(inverseSerializer, store, rel.target, saved, json, inverseRelationship.value, snap, Null);
      retraction := Writes(MembershipEntry(inverseSerializer, store, rel.target, saved, inverseRelationship.value, snap, Null));
    }
    SerializeHasManyMember(inverseSerializer, store, rel.target, inverseSnapshot.value.id, json, inverseRelationship.value, snap, Bool(true));
    var addition := Writes(MembershipEntry(inverseSerializer, store, rel.target, inverseSnapshot.value.id, inverseRelationship.value, snap, Bool(true)));
    ApplyAllConcat(old(json.entries), forward, retraction);
    ApplyAllConcat(old(json.entries), forward + retraction, addition);
    failure := None;
  }

  /** Once a prefix of the relationship loop has failed, the whole loop fails the same way and writes nothing more. */
  lemma {:induction false} FailureSticks(s: Serializer, store: Store, snap: Snapshot, rels: seq<RelMeta>, path: string, i: nat)
    requires i <= |rels|
    requires RelationshipsPlan(s, store, snap, rels[..i], path).failure.Some?
    ensures RelationshipsPlan(s, store, snap, rels, path) == RelationshipsPlan(s, store, snap, rels[..i], path)
  {
    if i < |rels| {
      assert rels[..|rels| - 1][..i] == rels[..i];
      FailureSticks(s, store, snap, rels[..|rels| - 1], path, i);
    } else {
      assert rels[..i] == rels;
    }
  }

  /** The attribute loop of `serialize` (lines 98-100). */
  method SerializeAttributes(s: Serializer, snap: Snapshot, json: Patch, attrs: seq<AttrMeta>, path: string)
    modifies json
    ensures json.entries == ApplyAll(old(json.entries), AttributesPlan(s, snap, attrs, path))
  {
    for i := 0 to |attrs|
      invariant json.entries == ApplyAll(old(json.entries), AttributesPlan(s, snap, attrs[..i], path))
    {
      assert attrs[..i + 1][..i] == attrs[..i];
      SerializeAttribute(s, snap, json, attrs[i].key, attrs[i], path);
      ApplyAllConcat(old(json.entries), AttributesPlan(s, snap, attrs[..i], path), Writes(AttributeEntry(s, snap, attrs[i].key, attrs[i], path)));
    }
    assert attrs[..|attrs|] == attrs;
  }

  /** The relationship loop of `serialize` (lines 102-115): stops at the first TypeError. */
  method SerializeRelationships(s: Serializer, store: Store, snap: Snapshot, json: Patch, rels: seq<RelMeta>, path: string) returns (failure: Option<Crash>)
    modifies json
    ensures json.entries == ApplyAll(old(json.entries), RelationshipsPlan(s, store, snap, rels, path).entries)
    ensures failure == RelationshipsPlan(s, store, snap, rels, path).failure
  {
    for i := 0 to |rels|
      invariant RelationshipsPlan(s, store, snap, rels[..i], path).failure.None?
      invariant json.entries == ApplyAll(old(json.entries), RelationshipsPlan(s, store, snap, rels[..i], path).entries)
    {
      assert rels[..i + 1][..i] == rels[..i];
      ghost var before := RelationshipsPlan(s, store, snap, rels[..i], path).entries;
      if snap.relationshipType(rels[i]).OneToMany? {
        var f := SerializeOneToMany(s, store, snap, json, rels[i], path);
        ApplyAllConcat(old(json.entries), before, OneToManyPlan(s, store, snap, rels[i], path).entries);
        if f.Some? {
          FailureSticks(s, store, snap, rels, path, i + 1);
          return f;
        }
      }
    }
    assert rels[..|rels|] == rels;
    failure := None;
  }

  /**
   * `serialize`: runs every attribute through `serializeAttribute`, then every
   * relationship whose type is oneToMany through `serializeOneToMany`; the
   * patch is returned unless a TypeError escaped.
   */
  method Serialize(s: Serializer, store: Store, snap: Snapshot, schema: Schema, path: string) returns (r: Result<map<string, Value>>)
    ensures SerializePlan(s, store, snap, schema, path).failure.Some? ==>
              r == Failure(SerializePlan(s, store, snap, schema, path).failure.value)
    ensures SerializePlan(s, store, snap, schema, path).failure.None? ==>
              r == Success(ApplyAll(map[], SerializePlan(s, store, snap, schema, path).entries))
  {
    var json := new Patch();
    SerializeAttributes(s, snap, json, schema.attributes, path);
    var failure := SerializeRelationships(s, store, snap, json, schema.relationships, path);
    ApplyAllConcat(map[], AttributesPlan(s, snap, schema.attributes, path), RelationshipsPlan(s, store, snap, schema.relationships, path).entries);
    if failure.Some? {
      return Failure(failure.value);
    }
    r := Success(json.entries);
  }

  /** A disabled key makes each of the three `attrs`-guarded writers write nothing, each on its own key. */
  lemma DisabledKeyWritesNothing(s: Serializer, store: Store, snap: Snapshot, attr: AttrMeta, rel: RelMeta, modelName: string, id: Value, value: Value, path: string)
    ensures !CanSerialize(s.attrs, attr.key) ==> AttributeEntry(s, snap, attr.key, attr, path) == None
    ensures !CanSerialize(s.attrs, rel.key) ==> BelongsToEntry(s, snap, rel, path) == None
    ensures !CanSerialize(s.attrs, rel.key) ==> MembershipEntry(s, store, modelName, id, rel, snap, value) == None
  {
  }

  /** A writer adds at most its one path to the patch and leaves every other path as it was. */
  lemma SingleWriteFrame(m: map<string, Value>, e: Option<Entry>)
    ensures e.None? ==> ApplyAll(m, Writes(e)) == m
    ensures e.Some? ==> ApplyAll(m, Writes(e)).Keys == m.Keys + {e.value.path}
    ensures e.Some? ==> ApplyAll(m, Writes(e))[e.value.path] == e.value.value
    ensures forall p :: p in m && (e.None? || p != e.value.path) ==> ApplyAll(m, Writes(e))[p] == m[p]
  {
    if e.Some? {
      assert Writes(e)[..0] == [];
    }
  }

  /** `serializeBelongsTo` writes the related id, or null when there is none, at `path/payloadKey`. */
  lemma BelongsToWrite(s: Serializer, snap: Snapshot, rel: RelMeta, path: string)
    requires CanSerialize(s.attrs, rel.key)
    ensures BelongsToEntry(s, snap, rel, path).Some?
    ensures BelongsToEntry(s, snap, rel, path).value.path
              == Under(path, PayloadKey(s.attrs, rel.key, s.keyForRelationship(rel.key, BelongsTo, "serialize")))
    ensures BelongsToEntry(s, snap, rel, path).value.value == snap.belongsToId(rel.key)
  {
  }

  /** The inputs under which `serializeOneToMany` reaches its membership writes with every key enabled. */
  predicate OneToManyReady(s: Serializer, store: Store, snap: Snapshot, rel: RelMeta)
  {
    CanSerialize(s.attrs, rel.key) &&
    snap.inverseFor(rel.key).Some? &&
    snap.belongsTo(rel.key).Some? &&
    snap.belongsTo(rel.key).value.relationshipFor(snap.inverseFor(rel.key).value).Some? &&
    CanSerialize(store.serializerFor(rel.target).attrs, snap.belongsTo(rel.key).value.relationshipFor(snap.inverseFor(rel.key).value).value.key)
  }

  /** The relationship on the related type that mirrors `rel`. */
  function InverseOf(snap: Snapshot, rel: RelMeta): RelMeta
    requires snap.inverseFor(rel.key).Some? && snap.belongsTo(rel.key).Some?
    requires snap.belongsTo(rel.key).value.relationshipFor(snap.inverseFor(rel.key).value).Some?
  {
    snap.belongsTo(rel.key).value.relationshipFor(snap.inverseFor(rel.key).value).value
  }

  /**
   * Both ends stay consistent: after `serializeOneToMany` the record points to
   * its new parent, the new parent lists the record as `true` (whatever else
   * was written, the addition comes last), the old parent's entry is null when
   * the field changed from a truthy saved value (unless that path is the new
   * parent's), and nothing else in the patch changes.
   */
  lemma {:induction false} OneToManyOutcome(s: Serializer, store: Store, snap: Snapshot, rel: RelMeta, path: string, m: map<string, Value>)
    requires OneToManyReady(s, store, snap, rel)
    ensures var plan := OneToManyPlan(s, store, snap, rel, path);
            var inv := store.serializerFor(rel.target);
            var forwardPath := BelongsToEntry(s, snap, rel, path).value.path;
            var addPath := MembershipPath(inv, store, rel.target, snap.belongsTo(rel.key).value.id, InverseOf(snap, rel), snap);
            var oldPath := MembershipPath(inv, store, rel.target, snap.savedTrackerValue(rel.key), InverseOf(snap, rel), snap);
            var retracts := snap.didChange(rel.key) && Truthy(snap.savedTrackerValue(rel.key));
            var result := ApplyAll(m, plan.entries);
            plan.failure.None? &&
            result.Keys == m.Keys + {forwardPath, addPath} + (if retracts then {oldPath} else {}) &&
            result[addPath] == Bool(true) &&
            (forwardPath != addPath && (!retracts || forwardPath != oldPath) ==> result[forwardPath] == snap.belongsToId(rel.key)) &&
            (retracts && oldPath != addPath ==> result[oldPath] == Null) &&
            (forall p :: p in m && p != forwardPath && p != addPath && (!retracts || p != oldPath) ==> result[p] == m[p])
  {
    var plan := OneToManyPlan(s, store, snap, rel, path);
    var inv := store.serializerFor(rel.target);
    var inverse := InverseOf(snap, rel);
    var saved := snap.savedTrackerValue(rel.key);
    var forward := BelongsToEntry(s, snap, rel, path).value;
    var add := MembershipEntry(inv, store, rel.target, snap.belongsTo(rel.key).value.id, inverse, snap, Bool(true)).value;
    var retracts := snap.didChange(rel.key) && Truthy(saved);
    var retraction := if retracts then [MembershipEntry(inv, store, rel.target, saved, inverse, snap, Null).value] else [];
    assert plan.entries == [forward] + retraction + [add];
    ApplyAllConcat(m, [forward] + retraction, [add]);
    ApplyAllConcat(m, [forward], retraction);
    SingleWriteFrame(m, Some(forward));
    var m1 := ApplyAll(m, [forward]);
    if retracts {
      SingleWriteFrame(m1, Some(retraction[0]));
      assert retraction == Writes(Some(retraction[0]));
    } else {
      assert ApplyAll(m1, retraction) == m1;
    }
    SingleWriteFrame(ApplyAll(m1, retraction), Some(add));
  }

  /** `belongsTo(key, { id: true })` is the id of `belongsTo(key)`'s record, and null when there is none. */
  predicate CoherentBelongsTo(snap: Snapshot, key: string)
  {
    match snap.belongsTo(key)
    case Some(related) => snap.belongsToId(key) == related.id
    case None => snap.belongsToId(key) == Null
  }

  /**
   * Both ends name the same parent: when the snapshot's two queries agree,
   * the forward pointer holds the new parent's id and the parent it names
   * lists the record as `true` (unless a membership write landed on the
   * pointer's own path).
   */
  lemma BothEndsAgree(s: Serializer, store: Store, snap: Snapshot, rel: RelMeta, path: string, m: map<string, Value>)
    requires OneToManyReady(s, store, snap, rel) && CoherentBelongsTo(snap, rel.key)
    ensures var inv := store.serializerFor(rel.target);
            var forwardPath := BelongsToEntry(s, snap, rel, path).value.path;
            var addPath := MembershipPath(inv, store, rel.target, snap.belongsTo(rel.key).value.id, InverseOf(snap, rel), snap);
            var oldPath := MembershipPath(inv, store, rel.target, snap.savedTrackerValue(rel.key), InverseOf(snap, rel), snap);
            var retracts := snap.didChange(rel.key) && Truthy(snap.savedTrackerValue(rel.key));
            var result := ApplyAll(m, OneToManyPlan(s, store, snap, rel, path).entries);
            forwardPath != addPath && (!retracts || forwardPath != oldPath) ==>
              forwardPath in result && result[forwardPath] == snap.belongsTo(rel.key).value.id &&
              MembershipPath(inv, store, rel.target, result[forwardPath], InverseOf(snap, rel), snap) in result &&
              result[MembershipPath(inv, store, rel.target, result[forwardPath], InverseOf(snap, rel), snap)] == Bool(true)
  {
    OneToManyOutcome(s, store, snap, rel, path, m);
  }

  /** On an unchanged field, or a falsy saved value, no retraction is written: forward pointer and addition only. */
  lemma UnchangedWritesNoRetraction(s: Serializer, store: Store, snap: Snapshot, rel: RelMeta, path: string)
    requires snap.inverseFor(rel.key).Some? && snap.belongsTo(rel.key).Some?
    requires snap.belongsTo(rel.key).value.relationshipFor(snap.inverseFor(rel.key).value).Some?
    requires !snap.didChange(rel.key) || !Truthy(snap.savedTrackerValue(rel.key))
    ensures OneToManyPlan(s, store, snap, rel, path).entries
              == Writes(BelongsToEntry(s, snap, rel, path))
                 + Writes(MembershipEntry(store.serializerFor(rel.target), store, rel.target, snap.belongsTo(rel.key).value.id, InverseOf(snap, rel), snap, Bool(true)))
    ensures forall i :: 0 <= i < |OneToManyPlan(s, store, snap, rel, path).entries| ==>
              OneToManyPlan(s, store, snap, rel, path).entries[i].value != Null || i == 0
  {
  }

  /** Serializing the same one-to-many field twice into a patch leaves the patch as the first time. */
  lemma OneToManyIdempotent(s: Serializer, store: Store, snap: Snapshot, rel: RelMeta, path: string, m: map<string, Value>)
    ensures var es := OneToManyPlan(s, store, snap, rel, path).entries;
            ApplyAll(ApplyAll(m, es), es) == ApplyAll(m, es)
  {
    ApplyAllIdempotent(m, OneToManyPlan(s, store, snap, rel, path).entries);
  }

  /**
   * A cleared pointer (no related record) makes the source throw at
   * `inverseSnapshot.record`, after the forward pointer has been written.
   */
  lemma ClearedPointerFails(s: Serializer, store: Store, snap: Snapshot, rel: RelMeta, path: string)
    requires snap.inverseFor(rel.key).Some? && snap.belongsTo(rel.key).None?
    ensures OneToManyPlan(s, store, snap, rel, path) == Plan(Writes(BelongsToEntry(s, snap, rel, path)), Some(NoRelatedRecord))
  {
  }

  /** Relationships that are not oneToMany write nothing: without one, `serialize` writes the attributes only. */
  lemma {:induction false} OnlyOneToManyWrites(s: Serializer, store: Store, snap: Snapshot, rels: seq<RelMeta>, path: string)
    requires forall i :: 0 <= i < |rels| ==> !snap.relationshipType(rels[i]).OneToMany?
    ensures RelationshipsPlan(s, store, snap, rels, path) == Plan([], None)
  {
    if rels != [] {
      OnlyOneToManyWrites(s, store, snap, rels[..|rels| - 1], path);
    }
  }

  /** The node `membership` a collection of membership entries for `ids` reads back as. */
  function MembershipNode(key: string, ids: seq<string>): (n: Node)
    ensures |n.children| == |ids|
  {
    Node(key, ids != [], Null, seq(|ids|, i requires 0 <= i < |ids| => Stored(ids[i], Bool(true))))
  }

  /**
   * What the membership writes of `serializeOneToMany` encode reads back as the
   * origin records, in order: a collection of `id: true` entries resolves to a
   * reference to each `id`.
   */
  lemma CollectionReadsBack(modelName: string, key: string, ids: seq<string>)
    ensures var refs := Normalizer.ResolveAll(modelName, MembershipNode(key, ids).children);
            |refs| == |ids| && forall i :: 0 <= i < |ids| ==> refs[i] == Ref(Str(ids[i]), modelName)
  {
    forall i | 0 <= i < |ids| ensures Normalizer.ResolveAll(modelName, MembershipNode(key, ids).children)[i] == Ref(Str(ids[i]), modelName) {
      Normalizer.ResolveAllAt(modelName, MembershipNode(key, ids).children, i);
    }
  }

  /**
   * A membership entry reads back as a reference to the origin record when its
   * value is `true`, and as nothing once it has been retracted with null.
   */
  lemma MembershipReadsBack(s: Serializer, store: Store, modelName: string, id: Value, rel: RelMeta, origin: Snapshot, value: Value, originModel: string)
    requires MembershipEntry(s, store, modelName, id, rel, origin, value).Some?
    requires value == Bool(true) || value == Null
    ensures var e := MembershipEntry(s, store, modelName, id, rel, origin, value).value;
            var read := Normalizer.ExtractRelationship(originModel, Stored(origin.id, e.value));
            (value == Bool(true) ==> read == Ref(Str(origin.id), originModel)) &&
            (value == Null ==> read == NoRef)
  {
  }

  /**
   * With no `attrs` rename and write and read key names that agree, the
   * pointer `serializeBelongsTo` writes is at the child the read side looks
   * up, and reads back as a reference to the same id; a null (or empty-array)
   * pointer deletes the child, so the relationship is not read at all. An id
   * that is itself the value `true` would be read as a membership entry
   * instead.
   */
  lemma PointerReadsBack(s: Serializer, snap: Snapshot, rel: RelMeta, path: string, n: Node)
    requires rel.kind == BelongsTo && !rel.polymorphic
    requires CanSerialize(s.attrs, rel.key) && GetMappedKey(s.attrs, rel.key) == rel.key
    requires s.keyForRelationship(rel.key, BelongsTo, "serialize") == Normalizer.RelationshipKey(s, rel)
    requires Child(n, Normalizer.RelationshipKey(s, rel))
               == Stored(Normalizer.RelationshipKey(s, rel), BelongsToEntry(s, snap, rel, path).value.value)
    ensures var e := BelongsToEntry(s, snap, rel, path).value;
            var read := Normalizer.RelationshipsOf(s, [rel], n);
            e.path == Under(path, Normalizer.RelationshipKey(s, rel)) &&
            (rel.key in read <==> e.value != Null && e.value != List([])) &&
            (rel.key in read && e.value != Bool(true) ==> read[rel.key] == Single(Ref(e.value, rel.target))) &&
            (rel.key in read && e.value == Bool(true) ==> read[rel.key] == Single(Ref(Str(Normalizer.RelationshipKey(s, rel)), rel.target)))
  {
    assert [rel][..0] == [];
  }

  /**
   * The read side never consults the `attrs` table: under a rename `w` that
   * differs from the read key, the pointer is written to a child the read
   * side does not look at.
   */
  lemma RenamedPointerMissesReadKey(s: Serializer, snap: Snapshot, rel: RelMeta, path: string, w: string)
    requires rel.key in s.attrs && s.attrs[rel.key] == Rename(w)
    requires w != "" && w != rel.key && w != Normalizer.RelationshipKey(s, rel)
    ensures BelongsToEntry(s, snap, rel, path).Some?
    ensures BelongsToEntry(s, snap, rel, path).value.path == Under(path, w)
    ensures BelongsToEntry(s, snap, rel, path).value.path != Under(path, Normalizer.RelationshipKey(s, rel))
  {
    assert Under(path, w)[|path| + 1..] == w;
    assert Under(path, Normalizer.RelationshipKey(s, rel))[|path| + 1..] == Normalizer.RelationshipKey(s, rel);
  }

  /**
   * The membership path `serializeHasManyMember` writes, with no `attrs`
   * rename and agreeing key names on the related type's serializer, is the
   * parent's collection node (the child its hasMany read looks up) followed by
   * the origin's id; a `true` written there is read back by the parent as a
   * reference to the origin record.
   */
  lemma MembershipRoundTrip(inv: Serializer, store: Store, modelName: string, id: Value, inverse: RelMeta, origin: Snapshot, parent: Node)
    requires inverse.kind == HasMany && Child(parent, Normalizer.RelationshipKey(inv, inverse)).present
    requires CanSerialize(inv.attrs, inverse.key) && GetMappedKey(inv.attrs, inverse.key) == inverse.key
    requires inv.keyForRelationship(inverse.key, HasMany, "serialize") == Normalizer.RelationshipKey(inv, inverse)
    requires Child(Child(parent, Normalizer.RelationshipKey(inv, inverse)), origin.id)
               == Stored(origin.id, MembershipEntry(inv, store, modelName, id, inverse, origin, Bool(true)).value.value)
    ensures MembershipPath(inv, store, modelName, id, inverse, origin)
              == Under(Under(store.buildPath(modelName, id), Normalizer.RelationshipKey(inv, inverse)), origin.id)
    ensures var read := Normalizer.RelationshipsOf(inv, [inverse], parent);
            inverse.key in read && read[inverse.key].Many? && Ref(Str(origin.id), inverse.target) in read[inverse.key].refs
  {
    var c := Child(parent, Normalizer.RelationshipKey(inv, inverse));
    var leaf := Child(c, origin.id);
    assert leaf.present && leaf in c.children;
    assert [inverse][..0] == [];
    var i :| 0 <= i < |c.children| && c.children[i] == leaf;
    Normalizer.ResolveAllAt(inverse.target, c.children, i);
  }

  /**
   * An enabled attribute with no `attrs` rename, whose write and read key
   * names agree, reads back as the value written (a null or empty-array write
   * deletes it).
   */
  lemma AttributeRoundTrip(s: Serializer, snap: Snapshot, attr: AttrMeta, path: string, n: Node)
    requires CanSerialize(s.attrs, attr.key) && GetMappedKey(s.attrs, attr.key) == attr.key
    requires s.keyForAttribute(attr.key, "serialize") == Normalizer.AttributeKey(s, attr.key)
    requires Child(n, Normalizer.AttributeKey(s, attr.key))
               == Stored(Normalizer.AttributeKey(s, attr.key), AttributeEntry(s, snap, attr.key, attr, path).value.value)
    ensures var e := AttributeEntry(s, snap, attr.key, attr, path).value;
            var read := Normalizer.AttributesOf(s, [attr], n);
            e.path == Under(path, Normalizer.AttributeKey(s, attr.key)) &&
            (attr.key in read <==> e.value != Null && e.value != List([])) &&
            (attr.key in read ==> read[attr.key] == e.value)
  {
    assert [attr][..0] == [];
  }
}

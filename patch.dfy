/**
 * The patch the write side fills: a flat map from absolute path to value,
 * written in place by the serializer's methods, where a later write to the
 * same path replaces an earlier one.
 */
module Patches {
  import opened FirebaseTypes

  /** The `json` object `serialize` creates and every writer assigns into. */
  class Patch {
    var entries: map<string, Value>

    constructor ()
      ensures entries == map[]
    {
      entries := map[];
    }
  }

  /** The writes an optional entry stands for. */
  function Writes(e: Option<Entry>): (es: seq<Entry>)
    ensures |es| <= 1
    ensures e.Some? ==> es == [e.value]
  {
    if e.Some? then [e.value] else []
  }

  /** The patch `m` after the writes `es`, performed in order. */
  function ApplyAll(m: map<string, Value>, es: seq<Entry>): map<string, Value>
  {
    if es == [] then m
    else
      var last := es[|es| - 1];
      ApplyAll(m, es[..|es| - 1])[last.path := last.value]
  }

  /** The value of the last write to `path` among `es`, if any. */
  function LastWrite(es: seq<Entry>, path: string): Option<Value>
  {
    if es == [] then None
    else if es[|es| - 1].path == path then Some(es[|es| - 1].value)
    else LastWrite(es[..|es| - 1], path)
  }

  /** After the writes, a path holds its last write, or what it held before when it was not written. */
  lemma {:induction false} ApplyAllAt(m: map<string, Value>, es: seq<Entry>, path: string)
    ensures path in ApplyAll(m, es) <==> LastWrite(es, path).Some? || path in m
    ensures LastWrite(es, path).Some? ==> ApplyAll(m, es)[path] == LastWrite(es, path).value
    ensures LastWrite(es, path).None? && path in m ==> ApplyAll(m, es)[path] == m[path]
  {
    if es != [] {
      ApplyAllAt(m, es[..|es| - 1], path);
    }
  }

  /** Writing `a` and then `b` is writing `a + b`. */
  lemma {:induction false} ApplyAllConcat(m: map<string, Value>, a: seq<Entry>, b: seq<Entry>)
    ensures ApplyAll(m, a + b) == ApplyAll(ApplyAll(m, a), b)
  {
    if b == [] {
      assert a + b == a;
    } else {
      assert (a + b)[..|a + b| - 1] == a + b[..|b| - 1];
      ApplyAllConcat(m, a, b[..|b| - 1]);
    }
  }

  /** Repeating the same writes changes nothing: a patch built twice from the same entries is the same patch. */
  lemma ApplyAllIdempotent(m: map<string, Value>, es: seq<Entry>)
    ensures ApplyAll(ApplyAll(m, es), es) == ApplyAll(m, es)
  {
    var once := ApplyAll(m, es);
    var twice := ApplyAll(once, es);
    forall path | true
      ensures path in twice <==> path in once
      ensures path in once ==> twice[path] == once[path]
    {
      ApplyAllAt(m, es, path);
      ApplyAllAt(once, es, path);
    }
    assert twice.Keys == once.Keys;
  }

  /** The paths a sequence of writes touches. */
  function Paths(es: seq<Entry>): set<string>
  {
    set i | 0 <= i < |es| :: es[i].path
  }

  /** Writes touch only their own paths: every other path keeps its old value or stays absent. */
  lemma {:induction false} ApplyAllFrame(m: map<string, Value>, es: seq<Entry>)
    ensures ApplyAll(m, es).Keys == m.Keys + Paths(es)
    ensures forall path :: path in m && path !in Paths(es) ==> ApplyAll(m, es)[path] == m[path]
  {
    if es != [] {
      var init := es[..|es| - 1];
      ApplyAllFrame(m, init);
      assert Paths(es) == Paths(init) + {es[|es| - 1].path} by {
        forall p | p in Paths(es) ensures p in Paths(init) + {es[|es| - 1].path} {
          var i :| 0 <= i < |es| && es[i].path == p;
          if i < |es| - 1 { assert init[i].path == p; }
        }
      }
    }
  }
}

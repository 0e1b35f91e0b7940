/** JSON Merge Patch (RFC 7396). */
module MergePatch {
  import opened KeyOrder
  import opened JsonValue

  /** The recursive definition in section 2 of RFC 7396, as one map comprehension. */
  function Merge(target: Json, patch: Json): Json
    decreases patch
  {
    match patch
    case Obj(p) =>
      var t := MembersOf(target);
      Obj(map k | k in t.Keys + p.Keys && (k in p ==> !p[k].Null?) ::
            if k in p then Merge(MemberOrNull(t, k), p[k]) else t[k])
    case _ => patch
  }

  // ----- The loop -----------------------------------------------------------------------------

  /** The target's members after the patch members in `done` have been applied. */
  ghost function MergedSoFar(t: map<string, Json>, p: map<string, Json>, done: seq<string>): map<string, Json>
  {
    map k | k in t.Keys + p.Keys && (k in p && k in done ==> !p[k].Null?) && (k in t || k in done) ::
      if k in p && k in done then Merge(MemberOrNull(t, k), p[k]) else MemberOrNull(t, k)
  }

  lemma MergedStep(t: map<string, Json>, p: map<string, Json>, done: seq<string>, k: string)
    requires k in p && k !in done && forall d :: d in done ==> d in p
    ensures MergedSoFar(t, p, done + [k])
         == if p[k].Null? then MergedSoFar(t, p, done) - {k}
            else MergedSoFar(t, p, done)[k := Merge(MemberOrNull(MergedSoFar(t, p, done), k), p[k])]
  {
    var before, after := MergedSoFar(t, p, done), MergedSoFar(t, p, done + [k]);
    assert MemberOrNull(before, k) == MemberOrNull(t, k);
    if p[k].Null? {
      assert after == before - {k};
    } else {
      assert after == before[k := Merge(MemberOrNull(t, k), p[k])];
    }
  }

  lemma MergedEnds(target: Json, p: map<string, Json>, keys: seq<string>)
    requires forall k :: k in keys <==> k in p
    ensures MergedSoFar(MembersOf(target), p, []) == MembersOf(target)
    ensures Obj(MergedSoFar(MembersOf(target), p, keys)) == Merge(target, Obj(p))
  {
    assert MergedSoFar(MembersOf(target), p, keys) == Merge(target, Obj(p)).members;
  }

  lemma FreshKey(keys: seq<string>, i: nat)
    requires Ascending(keys) && i < |keys|
    ensures keys[i] !in keys[..i] && keys[..i + 1] == keys[..i] + [keys[i]]
  {
    LessIrreflexive(keys[i]);
  }

  /** `basic_json::merge_patch`: erase the members that are null in the patch, merge into the others. */
  method MergeInto(target: Json, patch: Json) returns (r: Json)
    ensures r == Merge(target, patch)
    decreases patch
  {
    if !patch.Obj? {
      return patch;
    }
    var p := patch.members;
    var m := if target.Obj? then target.members else map[];
    var keys := Keys(p);
    ghost var t := m;
    MergedEnds(target, p, keys);
    KeysInOrder(p);
    for i := 0 to |keys|
      invariant m == MergedSoFar(t, p, keys[..i])
    {
      var k := keys[i];
      FreshKey(keys, i);
      MergedStep(t, p, keys[..i], k);
      if p[k].Null? {
        m := m - {k};
      } else {
        var merged := MergeInto(MemberOrNull(m, k), p[k]);
        m := m[k := merged];
      }
    }
    assert keys[..|keys|] == keys;
    r := Obj(m);
  }

  // ----- What a merge does at every path ------------------------------------------------------

  datatype Lookup = Absent | Present(value: Json)

  /** The value reached by following `path` through objects only. */
  function Get(j: Json, path: seq<string>): Lookup {
    if path == [] then
      Present(j)
    else if j.Obj? && path[0] in j.members then
      Get(j.members[path[0]], path[1..])
    else
      Absent
  }

  function ValueOrNull(l: Lookup): Json {
    if l.Present? then l.value else Null
  }

  /** A member the patch sets to null is absent afterwards, at any depth; any other named member holds
      the merge of its old value and the patch's. */
  lemma {:induction false} MergeNamed(target: Json, patch: Json, path: seq<string>)
    requires Get(patch, path).Present?
    ensures Get(Merge(target, patch), path)
         == if path != [] && Get(patch, path).value.Null? then Absent
            else Present(Merge(ValueOrNull(Get(target, path)), Get(patch, path).value))
    decreases |path|
  {
    if path != [] {
      var k, rest := path[0], path[1..];
      var v := patch.members[k];
      var old_k := MemberOrNull(MembersOf(target), k);
      if v.Null? {
        assert rest == [];
      } else {
        MergeNamed(old_k, v, rest);
        GetMember(target, k, rest);
      }
    }
  }

  lemma GetMember(target: Json, k: string, rest: seq<string>)
    ensures ValueOrNull(Get(target, [k] + rest)) == ValueOrNull(Get(MemberOrNull(MembersOf(target), k), rest))
  {
    assert ([k] + rest)[1..] == rest;
  }

  /** Where the patch's objects do not name the path, nothing changes. */
  lemma {:induction false} MergeUnnamed(target: Json, patch: Json, path: seq<string>, n: nat)
    requires n < |path| && Get(patch, path[..n]).Present?
    requires Get(patch, path[..n]).value.Obj? && path[n] !in Get(patch, path[..n]).value.members
    ensures Get(Merge(target, patch), path) == Get(target, path)
    decreases n
  {
    if n > 0 {
      var k := path[0];
      assert path[..n][0] == k && path[..n][1..] == path[1..][..n - 1];
      var v := patch.members[k];
      assert !v.Null?;
      MergeUnnamed(MemberOrNull(MembersOf(target), k), v, path[1..], n - 1);
    }
  }

  /** Applying the same patch again changes nothing. */
  lemma {:induction false} MergeIdempotent(target: Json, patch: Json)
    ensures Merge(Merge(target, patch), patch) == Merge(target, patch)
    decreases patch
  {
    if patch.Obj? {
      var t, p := MembersOf(target), patch.members;
      var once := Merge(target, patch);
      var twice := Merge(once, patch);
      forall k | k in p && !p[k].Null?
        ensures Merge(MemberOrNull(once.members, k), p[k]) == once.members[k]
      {
        MergeIdempotent(MemberOrNull(t, k), p[k]);
      }
      assert twice.members.Keys == once.members.Keys;
      assert twice.members == once.members;
    }
  }

  lemma {:induction false} GetBelow(j: Json, path: seq<string>, n: nat)
    requires n < |path| && Get(j, path[..n]).Present? && !Get(j, path[..n]).value.Obj?
    ensures Get(j, path) == Absent
    decreases n
  {
    if n > 0 {
      assert path[..n][0] == path[0] && path[..n][1..] == path[1..][..n - 1];
      GetBelow(j.members[path[0]], path[1..], n - 1);
    }
  }

  /** Whatever the target, a value of the patch that is neither an object nor null is there afterwards, as it is,
      with nothing left below it; where the patch has an object there is an object. */
  lemma MergeSets(target: Json, patch: Json, path: seq<string>, n: nat)
    requires n <= |path| && Get(patch, path[..n]).Present? && !Get(patch, path[..n]).value.Null?
    ensures var w, r := Get(patch, path[..n]).value, Merge(target, patch);
            if w.Obj? then Get(r, path[..n]).Present? && Get(r, path[..n]).value.Obj?
            else Get(r, path[..n]) == Present(w) && (n < |path| ==> Get(r, path) == Absent)
  {
    MergeNamed(target, patch, path[..n]);
    if !Get(patch, path[..n]).value.Obj? && n < |path| {
      GetBelow(Merge(target, patch), path, n);
    }
  }
}

/** Editing one dotted key of the configuration: the client lists the scalars under dotted keys, builds
    a nested patch from one of them, and the server merges that patch into its configuration. */
module ConfigEdit {
  import opened KeyOrder
  import opened JsonValue
  import opened Splitting
  import opened MergePatch

  /** The server's configuration, which a merge patch changes in place. */
  class Config {
    var configuration: Json

    constructor (configuration: Json)
      ensures this.configuration == configuration
    {
      this.configuration := configuration;
    }

    method MergePatch(patch: Json)
      modifies this
      ensures configuration == Merge(old(configuration), patch)
    {
      configuration := MergeInto(configuration, patch);
    }
  }

  // ----- Listing the scalars ------------------------------------------------------------------

  /** `_flatten_scalars`: dotted keys with their scalars, lists left out. */
  function FlattenScalars(data: Json, prefix: string): seq<(string, Json)>
    decreases data, 1, 0
  {
    if data.Obj? then FlattenMembers(data, prefix, Keys(data.members)) else []
  }

  function FlattenMembers(data: Json, prefix: string, keys: seq<string>): seq<(string, Json)>
    requires data.Obj? && forall k :: k in keys ==> k in data.members
    decreases data, 0, |keys|
  {
    if keys == [] then
      []
    else
      var n := |keys| - 1;
      FlattenMembers(data, prefix, keys[..n]) + FlattenMember(data, prefix, keys[n], |keys|)
  }

  function FlattenMember(data: Json, prefix: string, k: string, n: nat): seq<(string, Json)>
    requires data.Obj? && k in data.members && n > 0
    decreases data, 0, n - 1
  {
    match data.members[k]
    case Obj(_) => FlattenScalars(data.members[k], prefix + k + ".")
    case Arr(_) => []
    case v => [(prefix + k, v)]
  }

  method ListScalars(data: Json, prefix: string) returns (out: seq<(string, Json)>)
    ensures out == FlattenScalars(data, prefix)
    decreases data
  {
    out := [];
    if !data.Obj? {
      return;
    }
    var keys := Keys(data.members);
    for i := 0 to |keys|
      invariant out == FlattenMembers(data, prefix, keys[..i])
    {
      var k := keys[i];
      var v := data.members[k];
      assert keys[..i + 1][..i] == keys[..i];
      if v.Obj? {
        var inner := ListScalars(v, prefix + k + ".");
        out := out + inner;
      } else if !v.Arr? {
        out := out + [(prefix + k, v)];
      }
    }
    assert keys[..|keys|] == keys;
  }

  // ----- The scalars by path ------------------------------------------------------------------

  datatype Leaf = Leaf(path: seq<string>, value: Json)

  function Leaves(data: Json): seq<Leaf>
    decreases data, 1, 0
  {
    if data.Obj? then LeavesOf(data, Keys(data.members)) else []
  }

  function LeavesOf(data: Json, keys: seq<string>): seq<Leaf>
    requires data.Obj? && forall k :: k in keys ==> k in data.members
    decreases data, 0, |keys|
  {
    if keys == [] then
      []
    else
      var n := |keys| - 1;
      LeavesOf(data, keys[..n]) + MemberLeaves(data, keys[n], |keys|)
  }

  function MemberLeaves(data: Json, k: string, n: nat): seq<Leaf>
    requires data.Obj? && k in data.members && n > 0
    decreases data, 0, n - 1
  {
    match data.members[k]
    case Obj(_) => Under(k, Leaves(data.members[k]))
    case Arr(_) => []
    case v => [Leaf([k], v)]
  }

  function Under(k: string, leaves: seq<Leaf>): seq<Leaf> {
    seq(|leaves|, i requires 0 <= i < |leaves| => Leaf([k] + leaves[i].path, leaves[i].value))
  }

  function Dotted(path: seq<string>): string
    requires path != []
  {
    if |path| == 1 then path[0] else path[0] + "." + Dotted(path[1..])
  }

  ghost predicate NonEmptyPaths(leaves: seq<Leaf>) {
    forall i :: 0 <= i < |leaves| ==> leaves[i].path != []
  }

  function Named(prefix: string, leaves: seq<Leaf>): seq<(string, Json)>
    requires NonEmptyPaths(leaves)
  {
    seq(|leaves|, i requires 0 <= i < |leaves| => (prefix + Dotted(leaves[i].path), leaves[i].value))
  }

  lemma NamedConcat(prefix: string, a: seq<Leaf>, b: seq<Leaf>)
    requires NonEmptyPaths(a) && NonEmptyPaths(b)
    ensures NonEmptyPaths(a + b) && Named(prefix, a + b) == Named(prefix, a) + Named(prefix, b)
  {
  }

  lemma NamedUnder(prefix: string, k: string, leaves: seq<Leaf>)
    requires NonEmptyPaths(leaves)
    ensures NonEmptyPaths(Under(k, leaves))
    ensures Named(prefix, Under(k, leaves)) == Named(prefix + k + ".", leaves)
  {
    forall i | 0 <= i < |leaves|
      ensures prefix + Dotted([k] + leaves[i].path) == prefix + k + "." + Dotted(leaves[i].path)
    {
      assert ([k] + leaves[i].path)[1..] == leaves[i].path;
      assert prefix + (k + "." + Dotted(leaves[i].path)) == prefix + k + "." + Dotted(leaves[i].path);
    }
  }

  /** The dotted listing names each leaf by its path. */
  lemma {:induction false} FlattenNamesLeaves(data: Json, prefix: string)
    ensures NonEmptyPaths(Leaves(data)) && FlattenScalars(data, prefix) == Named(prefix, Leaves(data))
    decreases data, 1, 0
  {
    if data.Obj? {
      MembersNameLeaves(data, prefix, Keys(data.members));
    }
  }

  lemma {:induction false} MembersNameLeaves(data: Json, prefix: string, keys: seq<string>)
    requires data.Obj? && forall k :: k in keys ==> k in data.members
    ensures NonEmptyPaths(LeavesOf(data, keys))
    ensures FlattenMembers(data, prefix, keys) == Named(prefix, LeavesOf(data, keys))
    decreases data, 0, |keys|
  {
    if keys != [] {
      var n := |keys| - 1;
      var k := keys[n];
      MembersNameLeaves(data, prefix, keys[..n]);
      if data.members[k].Obj? {
        FlattenNamesLeaves(data.members[k], prefix + k + ".");
        NamedUnder(prefix, k, Leaves(data.members[k]));
      }
      NamedConcat(prefix, LeavesOf(data, keys[..n]), MemberLeaves(data, k, |keys|));
    }
  }

  // ----- Dotted keys and paths ----------------------------------------------------------------

  predicate DotFree(path: seq<string>) {
    forall i :: 0 <= i < |path| ==> '.' !in path[i]
  }

  /** Splitting the dotted key recovers the path exactly when no name on it contains a dot. */
  lemma {:induction false} SplitDotted(path: seq<string>)
    requires path != []
    ensures Pieces(Dotted(path), '.') == path <==> DotFree(path)
    ensures DotFree(Pieces(Dotted(path), '.'))
  {
    PiecesDotFree(Dotted(path));
    if DotFree(path) {
      SplitDotFree(path);
    }
  }

  lemma {:induction false} SplitDotFree(path: seq<string>)
    requires path != [] && DotFree(path)
    ensures Pieces(Dotted(path), '.') == path
  {
    if |path| == 1 {
      PiecesOfOne(path[0], '.');
    } else {
      SplitDotFree(path[1..]);
      PiecesSplit(path[0], '.', Dotted(path[1..]));
      assert path[0] + "." + Dotted(path[1..]) == path[0] + ['.'] + Dotted(path[1..]);
    }
  }

  lemma {:induction false} PiecesDotFree(s: string)
    ensures DotFree(Pieces(s, '.'))
  {
    if s != [] {
      PiecesDotFree(s[1..]);
    }
  }

  // ----- Building the patch -------------------------------------------------------------------

  /** One object per name, the value innermost. */
  function Nest(parts: seq<string>, v: Json): Json {
    if parts == [] then v else Obj(map[parts[0] := Nest(parts[1..], v)])
  }

  /** The document with the value at an existing object path replaced. */
  function Put(j: Json, path: seq<string>, v: Json): Json
    requires Get(j, path).Present?
  {
    if path == [] then v else Obj(j.members[path[0] := Put(j.members[path[0]], path[1..], v)])
  }

  /** The patch builder: `node` walks down from the root of the patch, creating an empty object for each
      name but the last. The reference `node` is held as the path that leads to it. */
  method BuildPatch(key: string, v: Json) returns (patch: Json)
    ensures patch == Nest(Pieces(key, '.'), v)
  {
    patch := Obj(map[]);
    var parts := Pieces(key, '.');
    var last := |parts| - 1;
    for i := 0 to last
      invariant patch == Nest(parts[..i], Obj(map[]))
    {
      NestGet(parts[..i], Obj(map[]));
      var node := parts[..i];
      patch := Put(patch, node, Obj(map[parts[i] := Obj(map[])]));
      NestPut(parts[..i], Obj(map[]), Obj(map[parts[i] := Obj(map[])]));
      NestSnoc(parts[..i], parts[i], Obj(map[]));
      assert parts[..i] + [parts[i]] == parts[..i + 1];
    }
    NestGet(parts[..last], Obj(map[]));
    patch := Put(patch, parts[..last], Obj(map[parts[last] := v]));
    NestPut(parts[..last], Obj(map[]), Obj(map[parts[last] := v]));
    NestSnoc(parts[..last], parts[last], v);
    assert parts[..last] + [parts[last]] == parts;
  }

  lemma {:induction false} NestGet(parts: seq<string>, v: Json)
    ensures Get(Nest(parts, v), parts) == Present(v)
  {
    if parts != [] {
      NestGet(parts[1..], v);
    }
  }

  lemma {:induction false} NestPut(parts: seq<string>, v: Json, w: Json)
    requires Get(Nest(parts, v), parts).Present?
    ensures Put(Nest(parts, v), parts, w) == Nest(parts, w)
  {
    if parts != [] {
      NestPut(parts[1..], v, w);
      assert map[parts[0] := Nest(parts[1..], v)][parts[0] := Nest(parts[1..], w)]
          == map[parts[0] := Nest(parts[1..], w)];
    }
  }

  lemma {:induction false} NestSnoc(parts: seq<string>, k: string, v: Json)
    ensures Nest(parts + [k], v) == Nest(parts, Obj(map[k := v]))
  {
    if parts == [] {
      assert ([k] + [])[1..] == [];
      assert parts + [k] == [k];
      assert Nest([k], v) == Obj(map[k := Nest([], v)]);
    } else {
      assert (parts + [k])[1..] == parts[1..] + [k];
      NestSnoc(parts[1..], k, v);
    }
  }

  // ----- Merging the patch --------------------------------------------------------------------

  /** Merging a nested patch along an existing path replaces exactly the value at its end. */
  lemma {:induction false} MergeNest(config: Json, path: seq<string>, v: Json)
    requires Get(config, path).Present? && IsPrimitive(v) && (path != [] ==> !v.Null?)
    ensures Merge(config, Nest(path, v)) == Put(config, path, v)
  {
    if path != [] {
      var k, m := path[0], config.members;
      MergeNest(m[k], path[1..], v);
      assert Merge(config, Nest(path, v)).members == m[k := Put(m[k], path[1..], v)];
    }
  }

  lemma {:induction false} GetPut(j: Json, path: seq<string>, v: Json)
    requires Get(j, path).Present?
    ensures Get(Put(j, path, v), path) == Present(v)
  {
    if path != [] {
      GetPut(j.members[path[0]], path[1..], v);
    }
  }

  // ----- The listing after the edit -----------------------------------------------------------

  function Replaced(leaves: seq<Leaf>, path: seq<string>, v: Json): seq<Leaf> {
    seq(|leaves|, i requires 0 <= i < |leaves| =>
      if leaves[i].path == path then Leaf(path, v) else leaves[i])
  }

  lemma ReplacedConcat(a: seq<Leaf>, b: seq<Leaf>, path: seq<string>, v: Json)
    ensures Replaced(a + b, path, v) == Replaced(a, path, v) + Replaced(b, path, v)
  {
  }

  lemma ReplacedUnder(k: string, leaves: seq<Leaf>, path: seq<string>, v: Json)
    requires path != []
    ensures Replaced(Under(k, leaves), path, v)
         == if k == path[0] then Under(k, Replaced(leaves, path[1..], v)) else Under(k, leaves)
  {
    assert path == [path[0]] + path[1..];
    forall i | 0 <= i < |leaves|
      ensures [k] + leaves[i].path == path <==> k == path[0] && leaves[i].path == path[1..]
    {
      assert ([k] + leaves[i].path)[0] == k && ([k] + leaves[i].path)[1..] == leaves[i].path;
    }
  }

  /** The edit replaces one leaf of the listing and keeps all others in their order. */
  lemma {:induction false} LeavesPut(data: Json, path: seq<string>, v: Json)
    requires path != [] && Get(data, path).Present? && IsPrimitive(Get(data, path).value) && IsPrimitive(v)
    ensures Leaves(Put(data, path, v)) == Replaced(Leaves(data), path, v)
    decreases data, 1, 0
  {
    LeavesOfPut(data, path, v, Keys(data.members));
    assert Put(data, path, v).members.Keys == data.members.Keys;
  }

  lemma {:induction false} LeavesOfPut(data: Json, path: seq<string>, v: Json, keys: seq<string>)
    requires path != [] && Get(data, path).Present? && IsPrimitive(Get(data, path).value) && IsPrimitive(v)
    requires forall k :: k in keys ==> k in data.members
    ensures LeavesOf(Put(data, path, v), keys) == Replaced(LeavesOf(data, keys), path, v)
    decreases data, 0, |keys|
  {
    if keys != [] {
      var n := |keys| - 1;
      var k := keys[n];
      LeavesOfPut(data, path, v, keys[..n]);
      var child := data.members[k];
      if k == path[0] && |path| > 1 {
        LeavesPut(child, path[1..], v);
      }
      if child.Obj? {
        ReplacedUnder(k, Leaves(child), path, v);
      }
      MemberPut(data, path, v, k, |keys|);
      ReplacedConcat(LeavesOf(data, keys[..n]), MemberLeaves(data, k, |keys|), path, v);
    }
  }

  lemma MemberPut(data: Json, path: seq<string>, v: Json, k: string, n: nat)
    requires path != [] && Get(data, path).Present? && IsPrimitive(Get(data, path).value) && IsPrimitive(v)
    requires k in data.members && n > 0
    requires k == path[0] && |path| > 1 ==>
      Leaves(Put(data.members[k], path[1..], v)) == Replaced(Leaves(data.members[k]), path[1..], v)
    requires data.members[k].Obj? ==>
      Replaced(Under(k, Leaves(data.members[k])), path, v)
      == if k == path[0] then Under(k, Replaced(Leaves(data.members[k]), path[1..], v))
         else Under(k, Leaves(data.members[k]))
    ensures MemberLeaves(Put(data, path, v), k, n) == Replaced(MemberLeaves(data, k, n), path, v)
  {
    if k == path[0] && |path| == 1 {
      assert path == [k];
    }
  }

  // ----- Main results -------------------------------------------------------------------------

  /** No name anywhere in the configuration contains a dot. */
  predicate NoDots(j: Json) {
    j.Obj? ==> forall k :: k in j.members ==> '.' !in k && NoDots(j.members[k])
  }

  lemma {:induction false} LeafPaths(data: Json, i: nat)
    requires i < |Leaves(data)|
    ensures Leaves(data)[i].path != [] && Get(data, Leaves(data)[i].path) == Present(Leaves(data)[i].value)
    ensures IsPrimitive(Leaves(data)[i].value)
    ensures NoDots(data) ==> DotFree(Leaves(data)[i].path)
    decreases data, 1, 0
  {
    LeafPathsOf(data, Keys(data.members), i);
  }

  lemma PathBelow(data: Json, k: string, inner: Leaf)
    requires data.Obj? && k in data.members
    ensures Get(data, [k] + inner.path) == Get(data.members[k], inner.path)
    ensures '.' !in k && DotFree(inner.path) ==> DotFree([k] + inner.path)
  {
    assert ([k] + inner.path)[1..] == inner.path;
  }

  lemma {:induction false} LeafPathsOf(data: Json, keys: seq<string>, i: nat)
    requires data.Obj? && (forall k :: k in keys ==> k in data.members) && i < |LeavesOf(data, keys)|
    ensures var l := LeavesOf(data, keys)[i];
            l.path != [] && Get(data, l.path) == Present(l.value) && IsPrimitive(l.value)
            && (NoDots(data) ==> DotFree(l.path))
    decreases data, 0, |keys|
  {
    var n := |keys| - 1;
    var k := keys[n];
    var before := LeavesOf(data, keys[..n]);
    if i < |before| {
      LeafPathsOf(data, keys[..n], i);
    } else if data.members[k].Obj? {
      LeafPaths(data.members[k], i - |before|);
      PathBelow(data, k, Leaves(data.members[k])[i - |before|]);
    } else {
      assert [k][1..] == [];
    }
  }

  /** For a configuration without dots in its names, merging the patch built from a listed key gives the
      configuration with that scalar replaced, and the new listing differs from the old one in the value
      of that key only, with the same keys in the same order. */
  lemma EditChangesOneKey(config: Json, i: nat, v: Json)
    requires NoDots(config) && i < |FlattenScalars(config, "")| && IsPrimitive(v) && !v.Null?
    ensures |Leaves(config)| == |FlattenScalars(config, "")|
    ensures var key := FlattenScalars(config, "")[i].0;
            var path := Leaves(config)[i].path;
            var edited := Merge(config, Nest(Pieces(key, '.'), v));
            var before, after := FlattenScalars(config, ""), FlattenScalars(edited, "");
            Get(config, path).Present? && edited == Put(config, path, v)
            && |after| == |before|
            && forall n :: 0 <= n < |before| ==>
                 after[n] == (before[n].0, if before[n].0 == key then v else before[n].1)
  {
    FlattenNamesLeaves(config, "");
    var leaves := Leaves(config);
    var path := leaves[i].path;
    LeafPaths(config, i);
    SplitDotted(path);
    assert [] + Dotted(path) == Dotted(path);
    MergeNest(config, path, v);
    LeavesPut(config, path, v);
    var edited := Put(config, path, v);
    FlattenNamesLeaves(edited, "");
    forall n | 0 <= n < |leaves|
      ensures Dotted(leaves[n].path) == Dotted(path) <==> leaves[n].path == path
    {
      LeafPaths(config, n);
      SplitDotted(leaves[n].path);
    }
  }

  /** For one existing scalar, the edit does what it should for every new value exactly when no name on
      the path contains a dot. */
  lemma EditWorksIffDotFree(config: Json, path: seq<string>)
    requires path != [] && Get(config, path).Present? && IsPrimitive(Get(config, path).value)
    ensures (forall v :: IsPrimitive(v) && !v.Null? ==>
               Merge(config, Nest(Pieces(Dotted(path), '.'), v)) == Put(config, path, v))
        <==> DotFree(path)
  {
    SplitDotted(path);
    var parts := Pieces(Dotted(path), '.');
    if DotFree(path) {
      forall v | IsPrimitive(v) && !v.Null?
        ensures Merge(config, Nest(parts, v)) == Put(config, path, v)
      {
        MergeNest(config, path, v);
      }
    } else {
      var v := if Get(config, path).value == Bool(true) then Bool(false) else Bool(true);
      EditMisses(config, path, v);
      GetPut(config, path, v);
    }
  }

  /** An edit through a path with a dotted name leaves the scalar at that path as it was. */
  lemma EditMisses(config: Json, path: seq<string>, v: Json)
    requires path != [] && Get(config, path).Present? && !DotFree(path)
    ensures Get(Merge(config, Nest(Pieces(Dotted(path), '.'), v)), path) == Get(config, path)
  {
    var parts := Pieces(Dotted(path), '.');
    PiecesOfDotted(path);
    SplitDotted(path);
    var n := FirstDifference(parts, path);
    NestGetPrefix(parts, n, v);
    MergeUnnamed(config, Nest(parts, v), path, n);
  }

  /** Configurations that show it: where a name is `x`, a dot and `y`, the edit leaves that member alone and
      adds an object `x` with a member `y`. */
  lemma DottedNameMisses(x: string, y: string, was: Json, v: Json)
    requires '.' !in x && '.' !in y && IsPrimitive(was) && IsPrimitive(v) && !v.Null?
    ensures var name := x + ['.'] + y;
            Merge(Obj(map[name := was]), Nest(Pieces(Dotted([name]), '.'), v))
            == Obj(map[name := was, x := Obj(map[y := v])])
  {
    var name := x + ['.'] + y;
    assert name[|x|] == '.';
    PiecesOfOne(y, '.');
    PiecesSplit(x, '.', y);
    NestTwo(x, y, v);
    MergeNew(y, v);
    var merged := Merge(Obj(map[name := was]), Obj(map[x := Obj(map[y := v])]));
    assert name != x;
    assert merged.members == map[name := was, x := Obj(map[y := v])];
  }

  lemma NestTwo(x: string, y: string, v: Json)
    ensures Nest([x] + [y], v) == Obj(map[x := Obj(map[y := v])])
  {
    assert ([x] + [y])[1..] == [y] && [y][1..] == [];
    assert Nest([y], v) == Obj(map[y := v]);
  }

  lemma MergeNew(y: string, v: Json)
    requires IsPrimitive(v) && !v.Null?
    ensures Merge(Null, Obj(map[y := v])) == Obj(map[y := v])
  {
    assert Merge(Null, v) == v;
    assert Merge(Null, Obj(map[y := v])).members == map[y := v];
  }

  lemma {:induction false} PiecesLength(x: string, sep: char, y: string)
    ensures |Pieces(x + [sep] + y, sep)| == |Pieces(x, sep)| + |Pieces(y, sep)|
  {
    var s := x + [sep] + y;
    if x == [] {
      assert s[1..] == y;
    } else {
      assert s[1..] == x[1..] + [sep] + y;
      PiecesLength(x[1..], sep, y);
    }
  }

  lemma {:induction false} PiecesOfDotted(path: seq<string>)
    requires path != []
    ensures |Pieces(Dotted(path), '.')| >= |path|
  {
    if |path| > 1 {
      PiecesOfDotted(path[1..]);
      PiecesLength(path[0], '.', Dotted(path[1..]));
      assert path[0] + "." + Dotted(path[1..]) == path[0] + ['.'] + Dotted(path[1..]);
    }
  }

  /** When a name contains a dot, the parts, which contain none, diverge from the path there at the latest. */
  lemma FirstDifference(parts: seq<string>, path: seq<string>) returns (n: nat)
    requires DotFree(parts) && !DotFree(path) && |parts| >= |path|
    ensures n < |path| && parts[..n] == path[..n] && parts[n] != path[n]
  {
    var dotted :| 0 <= dotted < |path| && '.' in path[dotted];
    assert parts[dotted] != path[dotted];
    n := 0;
    while parts[n] == path[n]
      invariant n <= dotted && parts[..n] == path[..n]
      decreases dotted - n
    {
      n := n + 1;
    }
  }

  lemma {:induction false} NestGetPrefix(parts: seq<string>, n: nat, v: Json)
    requires n < |parts|
    ensures Get(Nest(parts, v), parts[..n]) == Present(Obj(map[parts[n] := Nest(parts[n + 1..], v)]))
    decreases n
  {
    if n > 0 {
      assert parts[..n][1..] == parts[1..][..n - 1];
      assert parts[1..][n..] == parts[n + 1..];
      NestGetPrefix(parts[1..], n - 1, v);
    }
  }

  // ----- Completeness of the listing ----------------------------------------------------------

  /** Every scalar below objects only is listed under its path. */
  lemma {:induction false} ScalarListed(data: Json, path: seq<string>)
    requires path != [] && Get(data, path).Present? && IsPrimitive(Get(data, path).value)
    ensures Leaf(path, Get(data, path).value) in Leaves(data)
    decreases |path|
  {
    var k, rest := path[0], path[1..];
    var keys := Keys(data.members);
    var v := Get(data, path).value;
    var i :| 0 <= i < |keys| && keys[i] == k;
    assert path == [k] + rest;
    if rest != [] {
      ScalarListed(data.members[k], rest);
      var inner := Leaves(data.members[k]);
      var n :| 0 <= n < |inner| && inner[n] == Leaf(rest, v);
      assert MemberLeaves(data, k, i + 1)[n] == Leaf(path, v);
    } else {
      assert MemberLeaves(data, k, i + 1)[0] == Leaf(path, v);
    }
    InMembers(data, keys, i, Leaf(path, v));
  }

  lemma {:induction false} InMembers(data: Json, keys: seq<string>, i: nat, leaf: Leaf)
    requires data.Obj? && (forall k :: k in keys ==> k in data.members) && i < |keys|
    requires leaf in MemberLeaves(data, keys[i], i + 1)
    ensures leaf in LeavesOf(data, keys)
    decreases |keys|
  {
    var n := |keys| - 1;
    if i < n {
      InMembers(data, keys[..n], i, leaf);
    }
  }

  ghost predicate DistinctPaths(leaves: seq<Leaf>) {
    forall i, j :: 0 <= i < j < |leaves| ==> leaves[i].path != leaves[j].path
  }

  ghost predicate HeadsIn(leaves: seq<Leaf>, keys: seq<string>) {
    forall i :: 0 <= i < |leaves| ==> leaves[i].path != [] && leaves[i].path[0] in keys
  }

  lemma UnderDistinct(k: string, leaves: seq<Leaf>)
    requires DistinctPaths(leaves)
    ensures DistinctPaths(Under(k, leaves)) && HeadsIn(Under(k, leaves), [k])
  {
    forall i, j | 0 <= i < j < |leaves|
      ensures [k] + leaves[i].path != [k] + leaves[j].path
    {
      assert ([k] + leaves[i].path)[1..] == leaves[i].path && ([k] + leaves[j].path)[1..] == leaves[j].path;
    }
  }

  lemma JoinDistinct(a: seq<Leaf>, keys: seq<string>, b: seq<Leaf>, k: string)
    requires DistinctPaths(a) && HeadsIn(a, keys) && DistinctPaths(b) && HeadsIn(b, [k]) && k !in keys
    ensures DistinctPaths(a + b) && HeadsIn(a + b, keys + [k])
  {
    forall i, j | 0 <= i < |a| && 0 <= j < |b|
      ensures a[i].path != b[j].path
    {
      assert a[i].path[0] in keys && b[j].path[0] == k;
    }
  }

  /** No scalar is listed twice. */
  lemma {:induction false} LeavesDistinct(data: Json)
    ensures DistinctPaths(Leaves(data))
    decreases data, 1, 0
  {
    if data.Obj? {
      KeysInOrder(data.members);
      LeavesOfDistinct(data, Keys(data.members));
    }
  }

  lemma {:induction false} LeavesOfDistinct(data: Json, keys: seq<string>)
    requires data.Obj? && Ascending(keys) && forall k :: k in keys ==> k in data.members
    ensures DistinctPaths(LeavesOf(data, keys)) && HeadsIn(LeavesOf(data, keys), keys)
    decreases data, 0, |keys|
  {
    if keys != [] {
      var n := |keys| - 1;
      var k := keys[n];
      LeavesOfDistinct(data, keys[..n]);
      FreshKey(keys, n);
      assert keys[..n + 1] == keys;
      if data.members[k].Obj? {
        LeavesDistinct(data.members[k]);
        UnderDistinct(k, Leaves(data.members[k]));
      }
      JoinDistinct(LeavesOf(data, keys[..n]), keys[..n], MemberLeaves(data, k, |keys|), k);
    }
  }

  /** Without dots in the names, the listing has each dotted key once. */
  lemma ListedOnce(config: Json)
    requires NoDots(config)
    ensures var keys := FlattenScalars(config, "");
            forall i, j :: 0 <= i < j < |keys| ==> keys[i].0 != keys[j].0
  {
    var leaves := Leaves(config);
    FlattenNamesLeaves(config, "");
    LeavesDistinct(config);
    forall i, j | 0 <= i < j < |leaves|
      ensures Dotted(leaves[i].path) != Dotted(leaves[j].path)
    {
      LeafPaths(config, i);
      LeafPaths(config, j);
      SplitDotted(leaves[i].path);
      SplitDotted(leaves[j].path);
    }
    forall i | 0 <= i < |leaves|
      ensures FlattenScalars(config, "")[i].0 == Dotted(leaves[i].path)
    {
      assert "" + Dotted(leaves[i].path) == Dotted(leaves[i].path);
    }
  }
}

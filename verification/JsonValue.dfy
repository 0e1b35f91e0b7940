/** JSON documents, as `basic_json` holds them with `std::map` objects and one exact number kind. */
module JsonValue {
  import opened KeyOrder

  datatype Json =
    | Null
    | Bool(b: bool)
    | Num(n: real)
    | Str(s: string)
    | Arr(elems: seq<Json>)
    | Obj(members: map<string, Json>)

  /** The largest value of `std::size_t`, which is also the largest `unsigned long long`. */
  const SIZE_MAX: nat := 0xFFFF_FFFF_FFFF_FFFF

  /** No array is longer than `std::size_t` can count; true of every document in memory. */
  predicate Representable(j: Json) {
    match j
    case Arr(a) => |a| <= SIZE_MAX && forall i :: 0 <= i < |a| ==> Representable(a[i])
    case Obj(m) => forall k :: k in m ==> Representable(m[k])
    case _ => true
  }

  predicate IsPrimitive(j: Json) {
    !j.Arr? && !j.Obj?
  }

  /** `basic_json::type()`. */
  predicate SameType(a: Json, b: Json) {
    match a
    case Null => b.Null?
    case Bool(_) => b.Bool?
    case Num(_) => b.Num?
    case Str(_) => b.Str?
    case Arr(_) => b.Arr?
    case Obj(_) => b.Obj?
  }

  /** The visiting order of an object's members. */
  function Keys(m: map<string, Json>): (keys: seq<string>)
    ensures forall k :: k in keys <==> k in m
  {
    SortedKeys(m.Keys)
  }

  lemma KeysInOrder(m: map<string, Json>)
    ensures Ascending(Keys(m))
  {
    KeysAscend(m.Keys);
  }

  /** The members of an object; none for any other value. */
  function MembersOf(j: Json): map<string, Json> {
    if j.Obj? then j.members else map[]
  }

  /** `operator[]` on a member that may be missing. */
  function MemberOrNull(m: map<string, Json>, k: string): Json {
    if k in m then m[k] else Null
  }
}

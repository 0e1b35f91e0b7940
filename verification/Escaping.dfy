/** String escaping of reference tokens (section 4 of RFC 6901), as in-place substitution loops and
    as a simultaneous character-by-character code. */
module Escaping {

  // ----- Substitution -------------------------------------------------------------------------

  predicate OccursAt(s: string, f: string, i: nat) {
    i + |f| <= |s| && s[i..i + |f|] == f
  }

  /** All leftmost, non-overlapping occurrences of `f` replaced by `t`, in one pass. */
  function ReplaceAll(s: string, f: string, t: string): string
    requires f != []
  {
    if |s| < |f| then
      s
    else if OccursAt(s, f, 0) then
      t + ReplaceAll(s[|f|..], f, t)
    else
      [s[0]] + ReplaceAll(s[1..], f, t)
  }

  /** `std::string::find`: the first occurrence at or after `from`, or -1 for `npos`. */
  method Find(s: string, f: string, from: nat) returns (pos: int)
    ensures -1 <= pos
    ensures pos == -1 ==> forall i: nat :: from <= i ==> !OccursAt(s, f, i)
    ensures pos >= 0 ==> from <= pos && OccursAt(s, f, pos)
    ensures pos >= 0 ==> forall i: nat :: from <= i < pos ==> !OccursAt(s, f, i)
  {
    pos := from;
    while pos + |f| <= |s|
      invariant from <= pos
      invariant forall i: nat :: from <= i < pos ==> !OccursAt(s, f, i)
    {
      if s[pos..pos + |f|] == f {
        return;
      }
      pos := pos + 1;
    }
    pos := -1;
  }

  lemma OccursInSuffix(s: string, f: string, d: nat, i: nat)
    requires d <= |s|
    ensures OccursAt(s[d..], f, i) <==> OccursAt(s, f, d + i)
  {
    if d + i + |f| <= |s| {
      assert s[d..][i..i + |f|] == s[d + i..d + i + |f|];
    }
  }

  lemma ReplaceKeepsHead(s: string, f: string, t: string)
    requires f != [] && s != [] && !OccursAt(s, f, 0)
    ensures ReplaceAll(s, f, t) == [s[0]] + ReplaceAll(s[1..], f, t)
  {
    if |s| < |f| {
      assert ReplaceAll(s[1..], f, t) == s[1..];
    }
  }

  lemma Regroup(s: string, k: nat, a: string, b: string)
    requires 0 < k <= |s| && a == [s[k - 1]] + b
    ensures s[..k - 1] + a == s[..k] + b
  {
  }

  lemma {:induction false} ReplaceSkips(s: string, f: string, t: string, k: nat)
    requires f != [] && k <= |s|
    requires forall i: nat :: i < k ==> !OccursAt(s, f, i)
    ensures ReplaceAll(s, f, t) == s[..k] + ReplaceAll(s[k..], f, t)
    decreases k
  {
    if k == 0 {
      assert s[0..] == s;
    } else {
      ReplaceSkips(s, f, t, k - 1);
      var rest := s[k - 1..];
      OccursInSuffix(s, f, k - 1, 0);
      assert rest[1..] == s[k..];
      assert !OccursAt(s, f, k - 1);
      ReplaceKeepsHead(rest, f, t);
      Regroup(s, k, ReplaceAll(rest, f, t), ReplaceAll(s[k..], f, t));
    }
  }

  /** The library's loop: replace at `pos`, resume the search just after the inserted text. It ends
      although `t` may contain `f`, because the text after the resume point gets shorter. */
  method ReplaceSubstring(s0: string, f: string, t: string) returns (s: string)
    requires f != []
    ensures s == ReplaceAll(s0, f, t)
  {
    s := s0;
    var pos := Find(s, f, 0);
    ghost var resume: nat := 0;
    assert s[0..] == s;
    while pos != -1
      invariant -1 <= pos
      invariant resume <= |s|
      invariant ReplaceAll(s0, f, t) == s[..resume] + ReplaceAll(s[resume..], f, t)
      invariant pos >= 0 ==> resume <= pos && OccursAt(s, f, pos)
      invariant forall i: nat :: resume <= i && (pos == -1 || i < pos) ==> !OccursAt(s, f, i)
      decreases |s| - resume, pos
    {
      ghost var was, at := s, resume;
      s := s[..pos] + t + s[pos + |f|..];
      resume := pos + |t|;
      ReplaceStep(was, f, t, at, pos, s);
      pos := Find(s, f, pos + |t|);
    }
    SkipTo(s, f, t, resume, |s|);
    assert s[|s|..] == [] && s[..|s|] == s;
  }

  lemma ReplaceStep(was: string, f: string, t: string, resume: nat, pos: nat, s: string)
    requires f != [] && resume <= pos && OccursAt(was, f, pos)
    requires forall i: nat :: resume <= i < pos ==> !OccursAt(was, f, i)
    requires s == was[..pos] + t + was[pos + |f|..]
    ensures pos + |t| <= |s| && |s| - (pos + |t|) < |was| - resume
    ensures was[..resume] + ReplaceAll(was[resume..], f, t)
         == s[..pos + |t|] + ReplaceAll(s[pos + |t|..], f, t)
  {
    SkipTo(was, f, t, resume, pos);
    OccursInSuffix(was, f, pos, 0);
    var tail := was[pos + |f|..];
    assert was[pos..][|f|..] == tail && s[pos + |t|..] == tail;
    assert s[..pos + |t|] == was[..pos] + t;
    Associate(was[..pos], t, ReplaceAll(tail, f, t));
  }

  lemma Associate(a: string, b: string, c: string)
    ensures a + (b + c) == a + b + c
  {
  }

  lemma SkipTo(s: string, f: string, t: string, resume: nat, pos: nat)
    requires f != [] && resume <= pos <= |s|
    requires forall i: nat :: resume <= i < pos ==> !OccursAt(s, f, i)
    ensures s[..resume] + ReplaceAll(s[resume..], f, t) == s[..pos] + ReplaceAll(s[pos..], f, t)
  {
    var rest, k := s[resume..], pos - resume;
    forall i: nat | i < k
      ensures !OccursAt(rest, f, i)
    {
      OccursInSuffix(s, f, resume, i);
    }
    ReplaceSkips(rest, f, t, k);
    assert rest[k..] == s[pos..];
    assert s[..resume] + rest[..k] == s[..pos];
  }

  // ----- Escape and unescape ------------------------------------------------------------------

  /** "~" becomes "~0", then "/" becomes "~1". */
  function Escape(s: string): string {
    ReplaceAll(ReplaceAll(s, "~", "~0"), "/", "~1")
  }

  /** "~1" becomes "/", then "~0" becomes "~". */
  function Unescape(s: string): string {
    ReplaceAll(ReplaceAll(s, "~1", "/"), "~0", "~")
  }

  method EscapeToken(s: string) returns (r: string)
    ensures r == Escape(s)
  {
    r := ReplaceSubstring(s, "~", "~0");
    r := ReplaceSubstring(r, "/", "~1");
  }

  method UnescapeToken(s: string) returns (r: string)
    ensures r == Unescape(s)
  {
    r := ReplaceSubstring(s, "~1", "/");
    r := ReplaceSubstring(r, "~0", "~");
  }

  // ----- The simultaneous code ----------------------------------------------------------------

  function EncodeChar(c: char): string {
    if c == '~' then "~0" else if c == '/' then "~1" else [c]
  }

  function Encode(s: string): string {
    if s == [] then [] else EncodeChar(s[0]) + Encode(s[1..])
  }

  function Decode(s: string): string {
    if s == [] then
      []
    else if |s| >= 2 && s[0] == '~' && s[1] == '1' then
      "/" + Decode(s[2..])
    else if |s| >= 2 && s[0] == '~' && s[1] == '0' then
      "~" + Decode(s[2..])
    else
      [s[0]] + Decode(s[1..])
  }

  /** Every '~' is followed by '0' or '1'. */
  predicate WellEscaped(s: string) {
    forall i :: 0 <= i < |s| && s[i] == '~' ==> i + 1 < |s| && (s[i + 1] == '0' || s[i + 1] == '1')
  }

  lemma ReplaceCharHead(c: char, s: string, f: string, t: string)
    requires |f| == 1
    ensures ReplaceAll([c] + s, f, t) == (if [c] == f then t else [c]) + ReplaceAll(s, f, t)
  {
    var all := [c] + s;
    assert all[0..1] == [c] && all[1..] == s;
  }

  lemma {:induction false} ReplaceCharSplits(a: string, b: string, f: string, t: string)
    requires |f| == 1
    ensures ReplaceAll(a + b, f, t) == ReplaceAll(a, f, t) + ReplaceAll(b, f, t)
  {
    if a == [] {
      assert a + b == b;
      assert ReplaceAll([], f, t) == [];
    } else {
      var c, rest := a[0], a[1..];
      ReplaceCharSplits(rest, b, f, t);
      HeadAndRest(a, b);
      ReplaceCharHead(c, rest, f, t);
      ReplaceCharHead(c, rest + b, f, t);
      Associate(if [c] == f then t else [c], ReplaceAll(rest, f, t), ReplaceAll(b, f, t));
    }
  }

  lemma HeadAndRest(a: string, b: string)
    requires a != []
    ensures a == [a[0]] + a[1..] && a + b == [a[0]] + (a[1..] + b)
  {
  }

  /** The two sequential substitutions encode every character once. */
  lemma {:induction false} EscapeIsEncode(s: string)
    ensures Escape(s) == Encode(s)
  {
    if s != [] {
      var c, rest := s[0], s[1..];
      EscapeIsEncode(rest);
      assert s == [c] + rest;
      ReplaceCharHead(c, rest, "~", "~0");
      var head := if [c] == "~" then "~0" else [c];
      ReplaceCharSplits(head, ReplaceAll(rest, "~", "~0"), "/", "~1");
      EscapeHead(c);
    }
  }

  lemma EscapeHead(c: char)
    ensures ReplaceAll(if [c] == "~" then "~0" else [c], "/", "~1") == EncodeChar(c)
  {
    if c == '~' {
      assert [c] == "~" && "~0" == ['~'] + ['0'] && ['0'] == ['0'] + [];
      ReplaceCharHead('~', ['0'], "/", "~1");
      ReplaceCharHead('0', [], "/", "~1");
    } else {
      assert [c] == [c] + [] && ([c] == "~" ==> c == '~') && ([c] == "/" <==> c == '/');
      ReplaceCharHead(c, [], "/", "~1");
    }
  }

  /** For every string, escaped properly or not, the two sequential substitutions agree with one
      left-to-right decoding: the first one never creates a new "~0". */
  lemma {:induction false} UnescapeIsDecode(s: string)
    ensures Unescape(s) == Decode(s)
    decreases |s|
  {
    if |s| < 2 {
      assert ReplaceAll(s, "~1", "/") == s;
      if |s| == 1 {
        assert s[1..] == [];
      }
    } else {
      var one := ReplaceAll(s, "~1", "/");
      assert OccursAt(s, "~1", 0) <==> s[0] == '~' && s[1] == '1' by {
        assert s[0..2] == [s[0], s[1]];
      }
      if s[0] == '~' && s[1] == '1' {
        UnescapeIsDecode(s[2..]);
        var tail := ReplaceAll(s[2..], "~1", "/");
        assert one == "/" + tail;
        DecodeHead('/', tail);
      } else if s[0] == '~' && s[1] == '0' {
        UnescapeIsDecode(s[2..]);
        var tail := ReplaceAll(s[2..], "~1", "/");
        assert !OccursAt(s[1..], "~1", 0) by {
          assert s[1..][0] == '0';
        }
        assert s[1..][1..] == s[2..];
        FirstPassKeeps(s[1..]);
        assert one == "~" + ("0" + tail);
        assert one[0..2] == "~0";
        assert one[2..] == tail;
      } else {
        UnescapeIsDecode(s[1..]);
        var tail := ReplaceAll(s[1..], "~1", "/");
        assert one == [s[0]] + tail;
        if s[0] == '~' {
          FirstPassHead(s[1..]);
        }
        DecodeHead(s[0], tail);
      }
    }
  }

  /** A character that does not start "~0" passes the second substitution unchanged. */
  lemma DecodeHead(c: char, tail: string)
    requires c == '~' ==> tail == [] || tail[0] != '0'
    ensures ReplaceAll([c] + tail, "~0", "~") == [c] + ReplaceAll(tail, "~0", "~")
  {
    var s := [c] + tail;
    if |s| >= 2 {
      assert s[0..2] == [c, tail[0]];
      assert !OccursAt(s, "~0", 0);
    }
    assert s[1..] == tail;
  }

  lemma FirstPassKeeps(s: string)
    requires s != [] && s[0] != '~'
    ensures ReplaceAll(s, "~1", "/") == [s[0]] + ReplaceAll(s[1..], "~1", "/")
  {
    if |s| == 1 {
      assert s[1..] == [];
    } else {
      assert s[0..2][0] == s[0];
    }
  }

  lemma FirstPassHead(s: string)
    requires s != [] && s[0] != '0'
    ensures var r := ReplaceAll(s, "~1", "/"); r == [] || r[0] != '0'
  {
  }

  lemma DecodeHeadOf(c: char, rest: string)
    ensures Decode(EncodeChar(c) + rest) == [c] + Decode(rest)
  {
    var e := EncodeChar(c);
    assert (e + rest)[|e|..] == rest;
    assert (e + rest)[0] == e[0];
  }

  lemma {:induction false} DecodeEncode(s: string)
    ensures Decode(Encode(s)) == s
  {
    if s != [] {
      DecodeEncode(s[1..]);
      DecodeHeadOf(s[0], Encode(s[1..]));
      assert s == [s[0]] + s[1..];
    }
  }

  lemma {:induction false} EncodeDecode(s: string)
    requires WellEscaped(s) && '/' !in s
    ensures Encode(Decode(s)) == s
    decreases |s|
  {
    if s != [] {
      var n := if s[0] == '~' then 2 else 1;
      assert s == s[..n] + s[n..];
      forall i | 0 <= i < |s[n..]| && s[n..][i] == '~'
        ensures i + 1 < |s[n..]| && (s[n..][i + 1] == '0' || s[n..][i + 1] == '1')
      {
        assert s[n + i] == '~';
        assert s[n..][i + 1] == s[n + i + 1];
      }
      EncodeDecode(s[n..]);
      assert Decode(s)[1..] == Decode(s[n..]);
    }
  }

  lemma {:induction false} EncodeIsWellEscaped(s: string)
    ensures WellEscaped(Encode(s)) && '/' !in Encode(s)
  {
    if s != [] {
      EncodeIsWellEscaped(s[1..]);
    }
  }

  /** The two reserved characters, and the string for which the order of the substitutions matters (section 4 of
      RFC 6901). */
  lemma ReservedCharacters()
    ensures Escape("~") == "~0" && Escape("/") == "~1" && Escape("~1") == "~01"
    ensures Unescape("~0") == "~" && Unescape("~1") == "/" && Unescape("~01") == "~1"
  {
    EscapeIsEncode("~");
    EscapeIsEncode("/");
    EscapeIsEncode("~1");
    UnescapeIsDecode("~0");
    UnescapeIsDecode("~1");
    UnescapeIsDecode("~01");
    assert "~1"[1..] == "1" && "1"[1..] == "" && "~01"[2..] == "1" && "~0"[2..] == "" && "~1"[2..] == "";
    assert "~"[1..] == "" && "/"[1..] == "";
    assert Encode("1") == "1" && Decode("1") == "1";
  }
}

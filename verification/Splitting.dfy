/** Cutting a string at every occurrence of a separator character. */
module Splitting {

  /** The pieces of `s` between separators; always at least one. */
  function Pieces(s: string, sep: char): (pieces: seq<string>)
    ensures |pieces| > 0
  {
    if s == [] then
      [[]]
    else if s[0] == sep then
      [[]] + Pieces(s[1..], sep)
    else
      var rest := Pieces(s[1..], sep);
      [[s[0]] + rest[0]] + rest[1..]
  }

  lemma {:induction false} PiecesOfOne(x: string, sep: char)
    requires sep !in x
    ensures Pieces(x, sep) == [x]
  {
    if x != [] {
      PiecesOfOne(x[1..], sep);
      assert [x[0]] + x[1..] == x;
    }
  }

  lemma {:induction false} PiecesSplit(x: string, sep: char, y: string)
    requires sep !in x
    ensures Pieces(x + [sep] + y, sep) == [x] + Pieces(y, sep)
  {
    var s := x + [sep] + y;
    if x == [] {
      assert s[1..] == y;
    } else {
      assert s[1..] == x[1..] + [sep] + y;
      PiecesSplit(x[1..], sep, y);
      assert [x[0]] + x[1..] == x;
    }
  }

  /** `s` is its first piece `x`, followed (unless that is all of it) by a separator and `rest`. */
  lemma {:induction false} SplitFirst(s: string, sep: char) returns (x: string, rest: string)
    ensures sep !in x && Pieces(s, sep)[0] == x
    ensures |x| <= |s|
    ensures |x| < |s| ==> |rest| < |s| && s == x + [sep] + rest && Pieces(s, sep)[1..] == Pieces(rest, sep)
    ensures |x| == |s| ==> s == x && Pieces(s, sep) == [x]
  {
    if s == [] {
      x, rest := [], [];
    } else if s[0] == sep {
      x, rest := [], s[1..];
    } else {
      x, rest := SplitFirst(s[1..], sep);
      x := [s[0]] + x;
      assert s == [s[0]] + s[1..];
    }
  }
}

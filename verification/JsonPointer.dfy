/** JSON Pointer (RFC 6901): reference tokens, their string form, and array indices. */
module JsonPointer {
  import opened Outcomes
  import opened JsonValue
  import opened Escaping
  import opened Splitting

  // ----- Printing -----------------------------------------------------------------------------

  /** The string form: every token encoded and preceded by a slash. */
  function ToString(tokens: seq<string>): string {
    if tokens == [] then
      []
    else
      ToString(tokens[..|tokens| - 1]) + "/" + Encode(tokens[|tokens| - 1])
  }

  lemma {:induction false} ToStringFront(t: string, tokens: seq<string>)
    ensures ToString([t] + tokens) == "/" + Encode(t) + ToString(tokens)
    decreases |tokens|
  {
    if tokens == [] {
      assert [t] + tokens == [] + [t];
      ToStringSnoc([], t);
    } else {
      var init, last := tokens[..|tokens| - 1], tokens[|tokens| - 1];
      assert tokens == init + [last];
      assert [t] + tokens == ([t] + init) + [last];
      ToStringFront(t, init);
      ToStringSnoc([t] + init, last);
      ToStringSnoc(init, last);
      Regroup("/" + Encode(t), ToString(init), Encode(last));
    }
  }

  lemma Regroup(a: string, b: string, c: string)
    ensures a + b + "/" + c == a + (b + "/" + c)
  {
  }

  lemma ToStringSnoc(tokens: seq<string>, t: string)
    ensures ToString(tokens + [t]) == ToString(tokens) + "/" + Encode(t)
  {
    assert (tokens + [t])[..|tokens|] == tokens;
  }

  /** `json_pointer::to_string`: a fold that escapes each token with the substitution loops. */
  method Print(tokens: seq<string>) returns (s: string)
    ensures s == ToString(tokens)
  {
    s := [];
    for i := 0 to |tokens|
      invariant s == ToString(tokens[..i])
    {
      var e := EscapeToken(tokens[i]);
      EscapeIsEncode(tokens[i]);
      s := s + "/" + e;
      assert tokens[..i + 1] == tokens[..i] + [tokens[i]];
      ToStringSnoc(tokens[..i], tokens[i]);
    }
    assert tokens[..|tokens|] == tokens;
  }

  // ----- Parsing ------------------------------------------------------------------------------

  function DecodeAll(pieces: seq<string>): seq<string> {
    seq(|pieces|, i requires 0 <= i < |pieces| => Decode(pieces[i]))
  }

  predicate AllWellEscaped(pieces: seq<string>) {
    forall i :: 0 <= i < |pieces| ==> WellEscaped(pieces[i])
  }

  /** `json_pointer(const string_t&)`. */
  function Parse(s: string): Result<seq<string>> {
    if s == [] then
      Ok([])
    else if s[0] != '/' then
      Err(ParseError(107))
    else
      var pieces := Pieces(s[1..], '/');
      if AllWellEscaped(pieces) then Ok(DecodeAll(pieces)) else Err(ParseError(108))
  }

  function EncodeAll(tokens: seq<string>): seq<string> {
    seq(|tokens|, i requires 0 <= i < |tokens| => Encode(tokens[i]))
  }

  lemma FirstOfPrinted(e: string, rest: string)
    requires '/' !in e && (rest == [] || rest[0] == '/')
    ensures Pieces(e + rest, '/') == [e] + if rest == [] then [] else Pieces(rest[1..], '/')
  {
    if rest == [] {
      assert e + rest == e;
      PiecesOfOne(e, '/');
    } else {
      assert e + rest == e + ['/'] + rest[1..];
      PiecesSplit(e, '/', rest[1..]);
    }
  }

  lemma PrintedTail(t: string, ts: seq<string>)
    ensures ToString([t] + ts) != [] && ToString([t] + ts)[0] == '/'
    ensures ToString([t] + ts)[1..] == Encode(t) + ToString(ts)
  {
    ToStringFront(t, ts);
  }

  lemma {:induction false} PiecesOfPrinted(tokens: seq<string>)
    requires tokens != []
    ensures ToString(tokens) != [] && ToString(tokens)[0] == '/'
    ensures Pieces(ToString(tokens)[1..], '/') == EncodeAll(tokens)
    decreases |tokens|
  {
    var t, ts := tokens[0], tokens[1..];
    assert tokens == [t] + ts;
    PrintedTail(t, ts);
    EncodeIsWellEscaped(t);
    if ts != [] {
      PiecesOfPrinted(ts);
    }
    FirstOfPrinted(Encode(t), ToString(ts));
    EncodeAllFront(t, ts);
  }

  lemma EncodeAllFront(t: string, ts: seq<string>)
    ensures EncodeAll([t] + ts) == [Encode(t)] + EncodeAll(ts)
  {
  }

  /** Printing then parsing gives back any token sequence whatsoever. */
  lemma ParsePrint(tokens: seq<string>)
    ensures Parse(ToString(tokens)) == Ok(tokens)
  {
    if tokens != [] {
      PiecesOfPrinted(tokens);
      DecodeEncodeAll(tokens);
    }
  }

  lemma DecodeEncodeAll(tokens: seq<string>)
    ensures AllWellEscaped(EncodeAll(tokens)) && DecodeAll(EncodeAll(tokens)) == tokens
  {
    forall i | 0 <= i < |tokens|
      ensures WellEscaped(EncodeAll(tokens)[i]) && Decode(EncodeAll(tokens)[i]) == tokens[i]
    {
      EncodeIsWellEscaped(tokens[i]);
      DecodeEncode(tokens[i]);
    }
  }

  /** Parsing then printing gives back every string the parser accepts. */
  lemma PrintParse(s: string)
    requires Parse(s).Ok?
    ensures ToString(Parse(s).value) == s
  {
    if s != [] {
      assert s == "/" + s[1..];
      PrintPieces(s[1..]);
    }
  }

  lemma DecodeAllFront(x: string, pieces: seq<string>)
    ensures DecodeAll([x] + pieces) == [Decode(x)] + DecodeAll(pieces)
  {
    var all := [x] + pieces;
    assert all[0] == x && forall i :: 0 <= i < |pieces| ==> pieces[i] == all[i + 1];
  }

  lemma EscapedFront(x: string, pieces: seq<string>)
    requires AllWellEscaped([x] + pieces)
    ensures WellEscaped(x) && AllWellEscaped(pieces)
  {
    var all := [x] + pieces;
    assert all[0] == x;
    forall i | 0 <= i < |pieces|
      ensures WellEscaped(pieces[i])
    {
      assert pieces[i] == all[i + 1];
    }
  }

  lemma PrintFirst(x: string, ts: seq<string>)
    requires WellEscaped(x) && '/' !in x
    ensures ToString([Decode(x)] + ts) == "/" + x + ToString(ts)
  {
    EncodeDecode(x);
    ToStringFront(Decode(x), ts);
  }

  lemma SlashJoin(x: string, rest: string, s: string)
    requires s == x + ['/'] + rest
    ensures "/" + x + ("/" + rest) == "/" + s
  {
  }

  lemma {:induction false} PrintPieces(s: string)
    requires AllWellEscaped(Pieces(s, '/'))
    ensures ToString(DecodeAll(Pieces(s, '/'))) == "/" + s
    decreases |s|
  {
    var x, rest := SplitFirst(s, '/');
    if |x| < |s| {
      var more := Pieces(rest, '/');
      assert Pieces(s, '/') == [x] + more;
      DecodeAllFront(x, more);
      EscapedFront(x, more);
      PrintPieces(rest);
      PrintFirst(x, DecodeAll(more));
      SlashJoin(x, rest, s);
    } else {
      DecodeAllFront(x, []);
      assert [x] + [] == [x] && DecodeAll([]) == [];
      EscapedFront(x, []);
      PrintFirst(x, []);
    }
  }

  /** Distinct token sequences print differently. */
  lemma PrintInjective(a: seq<string>, b: seq<string>)
    requires ToString(a) == ToString(b)
    ensures a == b
  {
    ParsePrint(a);
    ParsePrint(b);
  }

  // ----- The parsing loops --------------------------------------------------------------------

  /** `find_first_of('/', from)`: the first slash at or after `from`, or -1. */
  method FindSlash(s: string, from: nat) returns (pos: int)
    ensures -1 <= pos < |s|
    ensures pos == -1 ==> from > |s| || '/' !in s[from..]
    ensures pos >= 0 ==> from <= pos && s[pos] == '/' && '/' !in s[from..pos]
  {
    pos := from;
    while pos < |s|
      invariant from <= pos
      invariant from <= |s| ==> pos <= |s| && '/' !in s[from..pos]
    {
      if s[pos] == '/' {
        return;
      }
      pos := pos + 1;
    }
    pos := -1;
  }

  /** The scan for '~' not followed by '0' or '1'. */
  method CheckEscapes(token: string) returns (ok: bool)
    ensures ok <==> WellEscaped(token)
  {
    var pos := 0;
    while pos < |token|
      invariant 0 <= pos <= |token|
      invariant forall i :: 0 <= i < pos && token[i] == '~' ==>
        i + 1 < |token| && (token[i + 1] == '0' || token[i + 1] == '1')
    {
      if token[pos] == '~' && (pos == |token| - 1 || (token[pos + 1] != '0' && token[pos + 1] != '1')) {
        return false;
      }
      pos := pos + 1;
    }
    return true;
  }

  /** Tokens already produced, followed by those of the remaining pieces. */
  function Continue(tokens: seq<string>, pieces: seq<string>): Result<seq<string>> {
    if AllWellEscaped(pieces) then Ok(tokens + DecodeAll(pieces)) else Err(ParseError(108))
  }

  lemma ContinueStep(tokens: seq<string>, piece: string, pieces: seq<string>)
    ensures Continue(tokens, [piece] + pieces)
         == if WellEscaped(piece) then Continue(tokens + [Decode(piece)], pieces) else Err(ParseError(108))
  {
    var all := [piece] + pieces;
    assert AllWellEscaped(all) <==> WellEscaped(piece) && AllWellEscaped(pieces) by {
      assert all[0] == piece;
      assert forall i :: 0 <= i < |pieces| ==> pieces[i] == all[i + 1];
    }
    assert DecodeAll(all) == [Decode(piece)] + DecodeAll(pieces);
    assert tokens + ([Decode(piece)] + DecodeAll(pieces)) == tokens + [Decode(piece)] + DecodeAll(pieces);
  }

  /** `json_pointer::split`, with its `start` and `slash` positions; -1 stands for `npos`. */
  method Split(s: string) returns (r: Result<seq<string>>)
    ensures r == Parse(s)
  {
    if s == [] {
      return Ok([]);
    }
    if s[0] != '/' {
      return Err(ParseError(107));
    }
    var tokens: seq<string> := [];
    var slash := FindSlash(s, 1);
    var start := 1;
    ghost var todo := Pieces(s[1..], '/');
    assert [] + DecodeAll(todo) == DecodeAll(todo);
    while start != 0
      invariant 0 <= start <= |s| && -1 <= slash < |s|
      invariant Parse(s) == Continue(tokens, todo)
      invariant if start == 0 then todo == [] else Pieces(s[start..], '/') == todo
      invariant start != 0 && slash == -1 ==> '/' !in s[start..]
      invariant start != 0 && slash >= 0 ==> start <= slash && s[slash] == '/' && '/' !in s[start..slash]
      decreases if start == 0 then 0 else |s| + 1 - start
    {
      var piece := if slash == -1 then s[start..] else s[start..slash];
      FirstPiece(s, start, slash);
      ghost var rest := if slash == -1 then [] else Pieces(s[slash + 1..], '/');
      assert todo == [piece] + rest;
      ContinueStep(tokens, piece, rest);
      var ok := CheckEscapes(piece);
      if !ok {
        return Err(ParseError(108));
      }
      var token := UnescapeToken(piece);
      UnescapeIsDecode(piece);
      tokens := tokens + [token];
      todo := rest;
      start := if slash == -1 then 0 else slash + 1;
      slash := FindSlash(s, start);
    }
    assert tokens + DecodeAll([]) == tokens;
    return Ok(tokens);
  }

  lemma FirstPiece(s: string, start: nat, slash: int)
    requires start <= |s| && -1 <= slash < |s|
    requires slash == -1 ==> '/' !in s[start..]
    requires slash >= 0 ==> start <= slash && s[slash] == '/' && '/' !in s[start..slash]
    ensures slash == -1 ==> Pieces(s[start..], '/') == [s[start..]]
    ensures slash >= 0 ==> Pieces(s[start..], '/') == [s[start..slash]] + Pieces(s[slash + 1..], '/')
  {
    if slash == -1 {
      PiecesOfOne(s[start..], '/');
    } else {
      assert s[start..] == s[start..slash] + "/" + s[slash + 1..];
      PiecesSplit(s[start..slash], '/', s[slash + 1..]);
    }
  }

  // ----- Array indices ------------------------------------------------------------------------

  predicate IsDigit(c: char) {
    '0' <= c <= '9'
  }

  predicate AllDigits(s: string) {
    forall i :: 0 <= i < |s| ==> IsDigit(s[i])
  }

  /** `std::to_string` of an unsigned number. */
  function Digits(n: nat): string {
    var d := [(n % 10 + '0' as int) as char];
    if n < 10 then d else Digits(n / 10) + d
  }

  function NatValue(s: string): nat
    requires AllDigits(s)
  {
    if s == [] then
      0
    else
      10 * NatValue(s[..|s| - 1]) + (s[|s| - 1] as int - '0' as int)
  }

  /** `json_pointer::array_index`. */
  function ArrayIndex(s: string): Result<nat> {
    if |s| > 1 && s[0] == '0' then
      Err(ParseError(106))
    else if |s| > 1 && !('1' <= s[0] <= '9') then
      Err(ParseError(109))
    else if s == [] || !AllDigits(s) || NatValue(s) > SIZE_MAX then
      Err(OutOfRange(404))
    else if NatValue(s) == SIZE_MAX then
      Err(OutOfRange(410))
    else
      Ok(NatValue(s))
  }

  lemma {:induction false} DigitsCanonical(n: nat)
    ensures AllDigits(Digits(n)) && NatValue(Digits(n)) == n
    ensures |Digits(n)| > 0 && (|Digits(n)| > 1 ==> Digits(n)[0] != '0')
    ensures n > 0 ==> Digits(n)[0] != '0'
  {
    var d := (n % 10 + '0' as int) as char;
    if n < 10 {
      assert Digits(n) == [d];
      assert [d][..0] == [];
    } else {
      DigitsCanonical(n / 10);
      assert Digits(n)[..|Digits(n)| - 1] == Digits(n / 10);
    }
  }

  /** The index of a printed number is that number. */
  lemma IndexOfDigits(n: nat)
    requires n < SIZE_MAX
    ensures ArrayIndex(Digits(n)) == Ok(n)
  {
    DigitsCanonical(n);
    var s := Digits(n);
    assert IsDigit(s[0]);
    assert |s| > 1 ==> '1' <= s[0] <= '9';
  }

  /** Only the printed form of a number is accepted as that index. */
  lemma {:induction false} DigitsOfIndex(s: string)
    requires ArrayIndex(s).Ok?
    ensures s == Digits(ArrayIndex(s).value)
  {
    DigitsOfValue(s);
  }

  lemma {:induction false} DigitsOfValue(s: string)
    requires s != [] && AllDigits(s) && (|s| > 1 ==> s[0] != '0')
    ensures Digits(NatValue(s)) == s
    ensures s[0] != '0' ==> NatValue(s) > 0
  {
    var last := s[|s| - 1];
    var d := last as int - '0' as int;
    assert IsDigit(last);
    if |s| == 1 {
      assert s[..0] == [];
    } else {
      DigitsOfValue(s[..|s| - 1]);
      assert s == s[..|s| - 1] + [last];
    }
  }

  /** A printed number needs no escaping, and neither does the append token. */
  lemma {:induction false} EncodePlain(s: string)
    requires '~' !in s && '/' !in s
    ensures Encode(s) == s
  {
    if s != [] {
      EncodePlain(s[1..]);
      assert s == [s[0]] + s[1..];
    }
  }

  lemma EncodeDigits(n: nat)
    ensures Encode(Digits(n)) == Digits(n)
    ensures Digits(n) != "-"
  {
    DigitsCanonical(n);
    EncodePlain(Digits(n));
  }

  lemma EncodeDash()
    ensures Encode("-") == "-"
  {
    EncodePlain("-");
  }

  // ----- Exceptions ---------------------------------------------------------------------------

  /** At `i` there is a '~' that is not followed by '0' or '1'. */
  predicate BadEscape(s: string, i: int) {
    0 <= i < |s| && s[i] == '~' && (i + 1 == |s| || (s[i + 1] != '0' && s[i + 1] != '1'))
  }

  /** What the constructor throws: 107 exactly without a leading slash, 108 exactly for a '~' that is not followed by
      '0' or '1'. */
  lemma ParseErrors(s: string)
    ensures s != "" && s[0] != '/' <==> Parse(s) == Err(ParseError(107))
    ensures (s == "" || s[0] == '/') && (exists i :: BadEscape(s, i)) <==> Parse(s) == Err(ParseError(108))
    ensures Parse(s).Err? ==> Parse(s).error == ParseError(107) || Parse(s).error == ParseError(108)
  {
    EscapedIff(s);
    if s != [] && s[0] == '/' {
      PiecesWellEscaped(s[1..]);
      assert s == [] + ['/'] + s[1..];
      JoinedWellEscaped([], s[1..]);
    }
  }

  lemma EscapedIff(s: string)
    ensures WellEscaped(s) <==> forall i :: !BadEscape(s, i)
  {
    if !WellEscaped(s) {
      var i :| 0 <= i < |s| && s[i] == '~' && !(i + 1 < |s| && (s[i + 1] == '0' || s[i + 1] == '1'));
      assert BadEscape(s, i);
    } else {
      forall i
        ensures !BadEscape(s, i)
      {
      }
    }
  }

  /** A string is well escaped exactly when its pieces between slashes are. */
  lemma {:induction false} PiecesWellEscaped(s: string)
    ensures AllWellEscaped(Pieces(s, '/')) <==> WellEscaped(s)
    decreases |s|
  {
    var x, rest := SplitFirst(s, '/');
    var pieces := Pieces(s, '/');
    if |x| < |s| {
      PiecesWellEscaped(rest);
      assert pieces == [x] + pieces[1..];
      assert AllWellEscaped(pieces) <==> WellEscaped(x) && AllWellEscaped(pieces[1..]);
      JoinedWellEscaped(x, rest);
    } else {
      assert pieces == [x];
    }
  }

  lemma JoinedWellEscaped(x: string, rest: string)
    requires '/' !in x
    ensures WellEscaped(x + ['/'] + rest) <==> WellEscaped(x) && WellEscaped(rest)
  {
    var s := x + ['/'] + rest;
    if WellEscaped(s) {
      forall i | 0 <= i < |x| && x[i] == '~'
        ensures i + 1 < |x| && (x[i + 1] == '0' || x[i + 1] == '1')
      {
        assert s[i] == '~' && s[i + 1] == if i + 1 < |x| then x[i + 1] else '/';
      }
      forall i | 0 <= i < |rest| && rest[i] == '~'
        ensures i + 1 < |rest| && (rest[i + 1] == '0' || rest[i + 1] == '1')
      {
        assert s[|x| + 1 + i] == '~';
        assert i + 1 < |rest| ==> s[|x| + 1 + i + 1] == rest[i + 1];
      }
    }
    if WellEscaped(x) && WellEscaped(rest) {
      forall i | 0 <= i < |s| && s[i] == '~'
        ensures i + 1 < |s| && (s[i + 1] == '0' || s[i + 1] == '1')
      {
        if i < |x| {
          assert x[i] == '~' && s[i + 1] == x[i + 1];
        } else {
          assert rest[i - |x| - 1] == '~';
        }
      }
    }
  }

  /** What `array_index` throws on a token that is no index. */
  lemma IndexErrors(s: string)
    ensures |s| > 1 && s[0] == '0' ==> ArrayIndex(s) == Err(ParseError(106))
    ensures |s| > 1 && !('0' <= s[0] <= '9') ==> ArrayIndex(s) == Err(ParseError(109))
    ensures s == "" || (|s| == 1 && !('0' <= s[0] <= '9')) ==> ArrayIndex(s) == Err(OutOfRange(404))
    ensures |s| > 1 && '1' <= s[0] <= '9' && (exists i :: 0 <= i < |s| && !('0' <= s[i] <= '9')) ==>
              ArrayIndex(s) == Err(OutOfRange(404))
  {
  }

  /** The largest `std::size_t` is refused with 410, and every larger number with 404. */
  lemma LargeIndexErrors(n: nat)
    requires n >= 18446744073709551615
    ensures ArrayIndex(Digits(n)) == Err(OutOfRange(if n == 18446744073709551615 then 410 else 404))
  {
    DigitsCanonical(n);
    assert IsDigit(Digits(n)[0]);
  }

  /** Numerals are decimal. */
  lemma TenAndMore(n: nat, d: nat)
    requires n > 0 && d < 10
    ensures Digits(10 * n + d) == Digits(n) + ["0123456789"[d]]
    ensures Digits(d) == ["0123456789"[d]]
  {
    assert (10 * n + d) / 10 == n && (10 * n + d) % 10 == d;
    assert "0123456789"[d] == (d + '0' as int) as char;
  }
}

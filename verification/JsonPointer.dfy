/** JSON Pointer (RFC 6901): splitting, the escape codec, and array index tokens. */
module JsonPointer {
  import opened Options
  import opened Sequences

  /** Python's `str.split` on one character: always at least one piece. */
  function Split(s: string, sep: char): (pieces: seq<string>)
    ensures |pieces| > 0
    decreases |s|
  {
    if s == "" then [""]
    else
      var rest := Split(s[1..], sep);
      if s[0] == sep then [""] + rest else [[s[0]] + rest[0]] + rest[1..]
  }

  /** Python's `str.replace` of the two characters `a`, `b` by `with`, left to right. */
  function Replace(s: string, a: char, b: char, with: char): string
    decreases |s|
  {
    if |s| >= 2 && s[0] == a && s[1] == b then [with] + Replace(s[2..], a, b, with)
    else if s == "" then ""
    else [s[0]] + Replace(s[1..], a, b, with)
  }

  /** The two sequential replacements of the parser. */
  function Unescape(token: string): string {
    Replace(Replace(token, '~', '1', '/'), '~', '0', '~')
  }

  function UnescapeAll(tokens: seq<string>): seq<string> {
    seq(|tokens|, i requires 0 <= i < |tokens| => Unescape(tokens[i]))
  }

  /** A pointer's reference tokens; `None` where the parser raises. */
  function PtrParts(path: string): Option<seq<string>> {
    if path == "" then Some([])
    else if path[0] != '/' then None
    else Some(UnescapeAll(Split(path, '/')[1..]))
  }

  // ---- printing, by sections 3 and 4 of RFC 6901 ----

  function Escape(token: string): string
    decreases |token|
  {
    if token == "" then ""
    else (if token[0] == '~' then "~0" else if token[0] == '/' then "~1" else [token[0]]) + Escape(token[1..])
  }

  function Print(tokens: seq<string>): string
    decreases |tokens|
  {
    if tokens == [] then "" else Slash(Escape(tokens[0]), Print(tokens[1..]))
  }

  /** Every `~` starts one of the two defined escapes. */
  predicate WellEscaped(s: string) {
    forall i :: 0 <= i < |s| && s[i] == '~' ==> i + 1 < |s| && (s[i + 1] == '0' || s[i + 1] == '1')
  }

  /** A decoder that reads the token once, leaving an undefined escape as it is. */
  function Decode(token: string): string
    decreases |token|
  {
    if token == "" then ""
    else if |token| >= 2 && token[0] == '~' && token[1] == '0' then "~" + Decode(token[2..])
    else if |token| >= 2 && token[0] == '~' && token[1] == '1' then "/" + Decode(token[2..])
    else [token[0]] + Decode(token[1..])
  }

  // ---- the two replacements are one pass ----

  lemma {:induction false} ReplaceUnfolds(c: char, s: string, a: char, b: char, with: char)
    requires c != a || s == "" || s[0] != b
    ensures Replace([c] + s, a, b, with) == [c] + Replace(s, a, b, with)
  {
    assert ([c] + s)[1..] == s;
  }

  lemma {:induction false} ReplacePair(s: string, a: char, b: char, with: char)
    ensures Replace([a, b] + s, a, b, with) == [with] + Replace(s, a, b, with)
  {
    assert ([a, b] + s)[2..] == s;
  }

  /** Replacing `~1` first never creates a new `~0`: both replacements act as one left-to-right pass. */
  lemma {:induction false} UnescapeIsOnePass(token: string)
    ensures Unescape(token) == Decode(token)
    decreases |token|
  {
    if token == "" {
    } else if |token| >= 2 && token[0] == '~' && token[1] == '1' {
      var rest := token[2..];
      UnescapeIsOnePass(rest);
      assert token == ['~', '1'] + rest;
      ReplacePair(rest, '~', '1', '/');
      ReplaceUnfolds('/', Replace(rest, '~', '1', '/'), '~', '0', '~');
    } else if |token| >= 2 && token[0] == '~' && token[1] == '0' {
      var rest := token[2..];
      UnescapeIsOnePass(rest);
      assert token == ['~'] + (['0'] + rest);
      ReplaceUnfolds('~', ['0'] + rest, '~', '1', '/');
      ReplaceUnfolds('0', rest, '~', '1', '/');
      var inner := Replace(rest, '~', '1', '/');
      assert ['~'] + (['0'] + inner) == ['~', '0'] + inner;
      ReplacePair(inner, '~', '0', '~');
    } else {
      var rest := token[1..];
      UnescapeIsOnePass(rest);
      assert token == [token[0]] + rest;
      ReplaceUnfolds(token[0], rest, '~', '1', '/');
      ReplaceUnfolds(token[0], Replace(rest, '~', '1', '/'), '~', '0', '~');
    }
  }

  lemma {:induction false} EscapeThenDecode(token: string)
    ensures Decode(Escape(token)) == token
    decreases |token|
  {
    if token != "" {
      var rest := Escape(token[1..]);
      EscapeThenDecode(token[1..]);
      if token[0] == '~' {
        assert ("~0" + rest)[2..] == rest;
      } else if token[0] == '/' {
        assert ("~1" + rest)[2..] == rest;
      } else {
        assert ([token[0]] + rest)[1..] == rest;
      }
    }
  }

  lemma {:induction false} EscapeIsWellFormed(token: string)
    ensures WellEscaped(Escape(token)) && '/' !in Escape(token)
    decreases |token|
  {
    if token != "" {
      EscapeIsWellFormed(token[1..]);
    }
  }

  lemma {:induction false} DecodeThenEscape(token: string)
    requires WellEscaped(token) && '/' !in token
    ensures Escape(Decode(token)) == token
    decreases |token|
  {
    if token != "" {
      var n := if token[0] == '~' then 2 else 1;
      var rest := token[n..];
      assert WellEscaped(rest) by {
        forall i | 0 <= i < |rest| && rest[i] == '~'
          ensures i + 1 < |rest| && (rest[i + 1] == '0' || rest[i + 1] == '1')
        {
          assert token[i + n] == '~';
        }
      }
      DecodeThenEscape(rest);
      var c := if n == 1 then token[0] else if token[1] == '0' then '~' else '/';
      assert Decode(token) == [c] + Decode(rest);
      assert ([c] + Decode(rest))[1..] == Decode(rest);
      assert token == token[..n] + rest;
    }
  }

  // ---- splitting undoes joining ----

  function Join(pieces: seq<string>): string
    decreases |pieces|
  {
    if pieces == [] then "" else Slash(pieces[0], Join(pieces[1..]))
  }

  /** One "/"-led piece in front of the rest of a pointer. */
  function Slash(piece: string, rest: string): string {
    ['/'] + (piece + rest)
  }

  lemma {:induction false} SplitAfterPiece(piece: string, rest: string)
    requires '/' !in piece
    requires rest == "" || rest[0] == '/'
    ensures Split(piece + rest, '/') == [piece] + Split(rest, '/')[1..]
    decreases |piece|
  {
    if piece == "" {
      assert piece + rest == rest;
    } else {
      assert (piece + rest)[1..] == piece[1..] + rest;
      SplitAfterPiece(piece[1..], rest);
      assert piece == [piece[0]] + piece[1..];
    }
  }

  lemma SplitSlash(piece: string, rest: string)
    requires '/' !in piece
    requires rest == "" || rest[0] == '/'
    ensures Split(Slash(piece, rest), '/') == [""] + ([piece] + Split(rest, '/')[1..])
  {
    SplitAfterPiece(piece, rest);
    assert Slash(piece, rest)[1..] == piece + rest;
  }

  lemma {:induction false} SplitJoin(pieces: seq<string>)
    requires forall p <- pieces :: '/' !in p
    ensures Split(Join(pieces), '/') == [""] + pieces
    decreases |pieces|
  {
    if pieces != [] {
      var rest := Join(pieces[1..]);
      SplitJoin(pieces[1..]);
      SplitSlash(pieces[0], rest);
      assert ([""] + pieces[1..])[1..] == pieces[1..];
      assert [pieces[0]] + pieces[1..] == pieces;
    }
  }

  lemma JoinOfFirst(first: string, others: seq<string>)
    ensures Join([first] + others) == Slash(first, Join(others))
  {
    assert ([first] + others)[1..] == others;
  }

  lemma JoinLonger(c: char, pieces: seq<string>, s: string)
    requires pieces != [] && Join(pieces) == ['/'] + s
    ensures Join([[c] + pieces[0]] + pieces[1..]) == ['/'] + ([c] + s)
  {
    var tail := Join(pieces[1..]);
    SameTail('/', pieces[0] + tail, s);
    JoinOfFirst([c] + pieces[0], pieces[1..]);
    Associates([c], pieces[0], tail);
  }

  lemma {:induction false} JoinSplit(s: string)
    ensures Join(Split(s, '/')) == ['/'] + s
    ensures forall p <- Split(s, '/') :: '/' !in p
    decreases |s|
  {
    if s == "" {
      assert [""][1..] == [];
      assert Join([""]) == Slash("", Join([]));
    } else {
      var rest := Split(s[1..], '/');
      JoinSplit(s[1..]);
      assert s == [s[0]] + s[1..];
      if s[0] == '/' {
        JoinOfFirst("", rest);
      } else {
        JoinLonger(s[0], rest, s[1..]);
      }
    }
  }

  function EscapeAll(tokens: seq<string>): seq<string> {
    seq(|tokens|, i requires 0 <= i < |tokens| => Escape(tokens[i]))
  }

  lemma {:induction false} PrintIsJoin(tokens: seq<string>)
    ensures Print(tokens) == Join(EscapeAll(tokens))
    decreases |tokens|
  {
    if tokens != [] {
      PrintIsJoin(tokens[1..]);
      assert EscapeAll(tokens)[1..] == EscapeAll(tokens[1..]);
    }
  }

  /** Printing any list of reference tokens, empty tokens included, and parsing it gives it back. */
  lemma ParseAfterPrint(tokens: seq<string>)
    ensures PtrParts(Print(tokens)) == Some(tokens)
  {
    PrintIsJoin(tokens);
    var escaped := EscapeAll(tokens);
    forall i | 0 <= i < |tokens|
      ensures '/' !in escaped[i] && Unescape(escaped[i]) == tokens[i]
    {
      EscapeIsWellFormed(tokens[i]);
      UnescapeIsOnePass(escaped[i]);
      EscapeThenDecode(tokens[i]);
    }
    SplitJoin(escaped);
    assert ([""] + escaped)[1..] == escaped;
    assert UnescapeAll(escaped) == tokens;
  }

  lemma WellEscapedSlash(p: string, rest: string)
    requires rest == "" || rest[0] == '/'
    ensures WellEscaped(Slash(p, rest)) <==> WellEscaped(p) && WellEscaped(rest)
  {
    var whole := Slash(p, rest);
    assert forall i :: 0 <= i < |p| ==> whole[i + 1] == p[i];
    assert forall i :: 0 <= i < |rest| ==> whole[i + 1 + |p|] == rest[i];
    if WellEscaped(whole) {
      forall i | 0 <= i < |p| && p[i] == '~'
        ensures i + 1 < |p| && (p[i + 1] == '0' || p[i + 1] == '1')
      {
        assert whole[i + 1] == '~';
      }
      forall i | 0 <= i < |rest| && rest[i] == '~'
        ensures i + 1 < |rest| && (rest[i + 1] == '0' || rest[i + 1] == '1')
      {
        assert whole[i + 1 + |p|] == '~';
        assert whole[(i + 1) + 1 + |p|] == whole[i + 1 + |p| + 1];
      }
    }
    if WellEscaped(p) && WellEscaped(rest) {
      forall i | 0 <= i < |whole| && whole[i] == '~'
        ensures i + 1 < |whole| && (whole[i + 1] == '0' || whole[i + 1] == '1')
      {
        if i <= |p| {
          assert p[i - 1] == '~';
        } else {
          assert rest[i - 1 - |p|] == '~';
        }
      }
    }
  }

  lemma {:induction false} JoinIsWellEscaped(pieces: seq<string>)
    ensures WellEscaped(Join(pieces)) <==> forall p <- pieces :: WellEscaped(p)
    decreases |pieces|
  {
    if pieces != [] {
      JoinIsWellEscaped(pieces[1..]);
      WellEscapedSlash(pieces[0], Join(pieces[1..]));
      assert pieces == [pieces[0]] + pieces[1..];
    }
  }

  /** Parsing then printing is the identity exactly on pointers without undefined escapes. */
  lemma PrintAfterParse(path: string)
    requires PtrParts(path).Some?
    ensures Print(PtrParts(path).value) == path <==> WellEscaped(path)
  {
    if path != "" {
      var pieces := Split(path, '/')[1..];
      var tokens := PtrParts(path).value;
      JoinSplit(path[1..]);
      assert Split(path, '/') == [""] + Split(path[1..], '/');
      assert pieces == Split(path[1..], '/');
      assert Join(pieces) == path by {
        assert path == "/" + path[1..];
      }
      JoinIsWellEscaped(pieces);
      PrintIsJoin(tokens);
      var escaped := EscapeAll(tokens);
      forall i | 0 <= i < |tokens|
        ensures WellEscaped(escaped[i])
        ensures WellEscaped(pieces[i]) ==> escaped[i] == pieces[i]
      {
        EscapeIsWellFormed(tokens[i]);
        UnescapeIsOnePass(pieces[i]);
        if WellEscaped(pieces[i]) {
          assert pieces[i] in pieces;
          DecodeThenEscape(pieces[i]);
        }
      }
      JoinIsWellEscaped(escaped);
      if WellEscaped(path) {
        forall i | 0 <= i < |tokens|
          ensures escaped[i] == pieces[i]
        {
          assert pieces[i] in pieces;
        }
        assert escaped == pieces;
      }
    }
  }

  /** What parses is what the grammar of RFC 6901 admits: any number of pieces, each led by a "/". */
  lemma ParsesIffPointer(path: string)
    ensures PtrParts(path).Some? <==> exists pieces: seq<string> :: path == Join(pieces)
  {
    if path == "" {
      assert path == Join([]);
    } else if path[0] == '/' {
      JoinSplit(path[1..]);
      assert path == ['/'] + path[1..];
      assert path == Join(Split(path[1..], '/'));
    }
  }

  // ---- array index tokens ----

  predicate IsDigit(c: char) {
    '0' <= c <= '9'
  }

  function DigitValue(c: char): (d: nat)
    requires IsDigit(c)
    ensures d < 10 && Digit(d) == c
  {
    c as int - '0' as int
  }

  function Digit(d: nat): (c: char)
    requires d < 10
    ensures IsDigit(c)
  {
    (d + '0' as int) as char
  }

  predicate AllDigits(s: string) {
    forall i :: 0 <= i < |s| ==> IsDigit(s[i])
  }

  /** Python's `int` on a string of digits. */
  function ToNat(s: string): nat
    requires AllDigits(s)
    decreases |s|
  {
    if s == "" then 0 else 10 * ToNat(s[..|s| - 1]) + DigitValue(s[|s| - 1])
  }

  /** "0", or digits that do not start with zero; anything else is no index. */
  function ArrayIndex(part: string): Option<nat> {
    if part == "0" || (part != "" && part[0] != '0' && AllDigits(part)) then Some(ToNat(part)) else None
  }

  function Decimal(n: nat): string {
    if n < 10 then [Digit(n)] else Decimal(n / 10) + [Digit(n % 10)]
  }

  lemma {:induction false} DecimalIsIndex(n: nat)
    ensures ArrayIndex(Decimal(n)) == Some(n)
    ensures n > 0 ==> Decimal(n)[0] != '0'
    decreases n
  {
    if n < 10 {
      assert [Digit(n)][..0] == "";
      assert ToNat([Digit(n)]) == n;
    } else {
      DecimalIsIndex(n / 10);
      var s := Decimal(n);
      assert s[..|s| - 1] == Decimal(n / 10);
      assert ToNat(s) == 10 * ToNat(Decimal(n / 10)) + n % 10;
    }
  }

  lemma {:induction false} ToNatIsPositive(s: string)
    requires s != "" && s[0] != '0' && AllDigits(s)
    ensures ToNat(s) > 0
    decreases |s|
  {
    if |s| > 1 {
      assert s[..|s| - 1][0] == s[0];
      ToNatIsPositive(s[..|s| - 1]);
    } else {
      assert DigitValue(s[0]) != 0;
    }
  }

  /** Each element has one spelling: an index token is the decimal form of its value. */
  lemma {:induction false} IndexIsDecimal(part: string)
    requires ArrayIndex(part).Some?
    ensures part == Decimal(ArrayIndex(part).value)
    decreases |part|
  {
    if |part| == 1 {
      assert part[..0] == "";
      assert part == [part[0]];
    } else {
      var init := part[..|part| - 1];
      assert init[0] == part[0];
      ToNatIsPositive(init);
      IndexIsDecimal(init);
      assert part == init + [part[|part| - 1]];
    }
  }
}

// What literals and comments denote: the tokenizer reads every numeral as its
// number, every escape as its character and every comment as nothing.
module Literals {
  import opened Words
  import opened Lexer

  // ---- numerals ----

  // The figure for a digit.
  function Figure(d: nat, upper: bool): (c: Byte)
    requires d < 16
    ensures c != 0
  {
    (if upper then "0123456789ABCDEF" else "0123456789abcdef")[d] as int
  }

  // A number written in a base.
  function Numeral(n: nat, base: nat, upper: bool): (r: seq<Byte>)
    requires base == 8 || base == 10 || base == 16
    ensures r != [] && 0 !in r
    decreases n
  {
    if n < base then [Figure(n, upper)] else Numeral(n / base, base, upper) + [Figure(n % base, upper)]
  }

  lemma FigureRead(d: nat, base: nat, upper: bool)
    requires d < base && base in {8, 10, 16}
    ensures InBase(Figure(d, upper), base) && HexValue(Figure(d, upper)) == d
  {
    var lower, capital := "0123456789abcdef", "0123456789ABCDEF";
    assert lower[d] as int == if d < 10 then 48 + d else 87 + d;
    assert capital[d] as int == if d < 10 then 48 + d else 55 + d;
  }

  lemma FigureStep(s: Text, j: nat, n: nat, base: nat, upper: bool)
    requires base in {8, 10, 16} && j < |s| && s[j] == Figure(n % base, upper) && n <= LITERAL_MAX
    ensures Digits(s, j, base, n / base) == Digits(s, j + 1, base, n)
  {
    hide Figure;
    FigureRead(n % base, base, upper);
    assert n == n / base * base + n % base;
    assert Accumulate(n / base, base, n % base) == Some(n) by { Room(n, base); }
  }

  lemma Room(n: nat, base: nat)
    requires base in {8, 10, 16} && n <= LITERAL_MAX
    ensures n / base <= (LITERAL_MAX - n % base) / base && n / base * base + n % base == n
  {
  }

  lemma NumeralParts(n: nat, base: nat, upper: bool)
    requires base == 8 || base == 10 || base == 16
    ensures n / base <= n && (n >= base ==> n / base < n) && n % base < base
    ensures Numeral(n, base, upper) == (if n < base then [] else Numeral(n / base, base, upper)) + [Figure(n % base, upper)]
  {
    hide Figure;
  }

  lemma {:induction false} NumeralRead(s: Text, i: nat, n: nat, base: nat, upper: bool)
    requires base in {8, 10, 16} && Stands(s, i, Numeral(n, base, upper)) && n <= LITERAL_MAX
    ensures Digits(s, i, base, 0) == Digits(s, i + |Numeral(n, base, upper)|, base, n)
    decreases n
  {
    hide Digits, Stands, Figure, Numeral;
    NumeralParts(n, base, upper);
    if n < base {
      StandsAt(s, i, Numeral(n, base, upper), 0);
      FigureStep(s, i, n, base, upper);
    } else {
      StandsParts(s, i, Numeral(n / base, base, upper), [Figure(n % base, upper)]);
      NumeralRead(s, i, n / base, base, upper);
      var j := i + |Numeral(n / base, base, upper)|;
      StandsAt(s, j, [Figure(n % base, upper)], 0);
      FigureStep(s, j, n, base, upper);
    }
  }

  lemma {:induction false} FirstFigure(n: nat, base: nat, upper: bool)
    requires base in {8, 10, 16}
    ensures InBase(Numeral(n, base, upper)[0], base)
    decreases n
  {
    hide Figure, InBase;
    FigureRead(n % base, base, upper);
    if n >= base { FirstFigure(n / base, base, upper); }
  }

  // A text that is one token.
  lemma OneToken(s: Text, t: Tok)
    requires s != [] && !IsSpace(s[0]) && s[0] != 47 && Token(s, 0) == Ok(t, |s|)
    ensures Lex(s, 0) == Some([t])
  {
    hide Token;
    assert [t] + [] == [t];
  }

  function Unsigned(u: bool): seq<Byte> {
    if u then [117] else []
  }

  lemma SuffixEnds(s: Text, j: nat, u: bool)
    requires Stands(s, j, Unsigned(u)) && j + |Unsigned(u)| == |s|
    ensures Suffix(s, j, false, false) == (u, |s|) && At(s, |s|) == 0
  {
    if u {
      StandsAt(s, j, [117], 0);
      assert Suffix(s, j + 1, true, false) == (true, j + 1);
    }
  }

  lemma DigitsEnd(s: Text, j: nat, base: nat, n: nat, u: bool)
    requires base in {8, 10, 16} && Stands(s, j, Unsigned(u)) && j + |Unsigned(u)| == |s|
    ensures Digits(s, j, base, n) == Ok(n, j) && !IsDigit(At(s, j))
  {
    if u { StandsAt(s, j, [117], 0); }
  }

  // 0x or 0X and a number in hexadecimal figures of either case is the number.
  lemma HexadecimalLiteral(n: nat, upper: bool, capital: bool, u: bool)
    requires n <= LITERAL_MAX
    ensures Lex([48, if capital then 88 else 120] + Numeral(n, 16, upper) + Unsigned(u), 0) == Some([Num(n, u)])
  {
    hide Numeral, Digits, Stands, Suffix, Unsigned;
    var x := if capital then 88 else 120;
    var d, e := Numeral(n, 16, upper), Unsigned(u);
    NoNull(u);
    var s: Text := [48, x] + d + e;
    Placed([48, x], d, e);
    FirstFigure(n, 16, upper);
    assert s[2] == d[0];
    NumeralRead(s, 2, n, 16, upper);
    DigitsEnd(s, 2 + |d|, 16, n, u);
    SuffixEnds(s, 2 + |d|, u);
    assert Magnitude(s, 0) == Ok(n, 2 + |d|);
    OneToken(s, Num(n, u));
  }

  // 0 and a number in octal figures is the number.
  lemma OctalLiteral(n: nat, u: bool)
    requires n <= LITERAL_MAX
    ensures Lex([48] + Numeral(n, 8, false) + Unsigned(u), 0) == Some([Num(n, u)])
  {
    hide Numeral, Digits, Stands, Suffix, Unsigned;
    var d, e := Numeral(n, 8, false), Unsigned(u);
    NoNull(u);
    var s: Text := [48] + d + e;
    Placed([48], d, e);
    FirstFigure(n, 8, false);
    assert s[1] == d[0];
    NumeralRead(s, 1, n, 8, false);
    DigitsEnd(s, 1 + |d|, 8, n, u);
    SuffixEnds(s, 1 + |d|, u);
    assert Magnitude(s, 0) == Ok(n, 1 + |d|);
    OneToken(s, Num(n, u));
  }

  lemma NoNull(u: bool)
    ensures 0 !in Unsigned(u)
  {
  }

  lemma Placed(a: Text, d: Text, e: Text)
    ensures var s := a + d + e; 0 !in s && Stands(s, |a|, d) && Stands(s, |a| + |d|, e)
  {
    var s := a + d + e;
    assert s[|a|..|a| + |d|] == d;
    assert s[|a| + |d|..|a| + |d| + |e|] == e;
  }

  predicate MarksUnsigned(u: seq<Byte>) {
    u == [] || u == [117] || u == [85]
  }

  predicate MarksLong(l: seq<Byte>) {
    l == [] || l == [108] || l == [76] || l == [108, 108] || l == [76, 76]
  }

  lemma LongRead(s: Text, j: nat, l: seq<Byte>, u: bool)
    requires MarksLong(l) && Stands(s, j, l) && At(s, j + |l|) !in {108, 76} && (At(s, j + |l|) in {117, 85} ==> !u)
    ensures Suffix(s, j, u, false) == if l == [] then Suffix(s, j, u, false) else Suffix(s, j + |l|, u, true)
  {
    hide Stands;
    if |l| > 0 { StandsAt(s, j, l, 0); }
    if |l| > 1 { StandsAt(s, j, l, 1); }
  }

  // u or U, and l or L once or doubled, in either order.
  lemma Suffixes(s: Text, j: nat, u: seq<Byte>, l: seq<Byte>, before: bool)
    requires MarksUnsigned(u) && MarksLong(l) && Stands(s, j, if before then u + l else l + u) && j + |u| + |l| == |s|
    ensures Suffix(s, j, false, false) == (u != [], |s|)
  {
    hide Stands;
    if before {
      StandsParts(s, j, u, l);
      if u != [] { StandsAt(s, j, u, 0); }
      if l != [] { StandsAt(s, j + |u|, l, 0); }
      LongRead(s, j + |u|, l, u != []);
    } else {
      StandsParts(s, j, l, u);
      if l != [] { StandsAt(s, j, l, 0); }
      if u != [] { StandsAt(s, j + |l|, u, 0); }
      LongRead(s, j, l, false);
    }
  }

  // ---- escapes ----

  // The control characters of ISO C, and the characters that stand for themselves.
  function Named(): map<char, nat> {
    map['a' := 7, 'b' := 8, 't' := 9, 'n' := 10, 'v' := 11, 'f' := 12, 'r' := 13,
        '\\' := 92, '"' := 34, '\'' := 39, '?' := 63]
  }

  // Backslash and a name denotes the named character, in strings and alone.
  lemma NamedEscape(c: char)
    requires c in Named()
    ensures 0 < c as int < 256 && Named()[c] < 256
    ensures Lex([39, 92, c as int, 39], 0) == Some([Num(Named()[c], false)])
    ensures Lex([34, 92, c as int, 34], 0) == Some([Str([Named()[c]])])
  {
    hide Lex, Token;
    var k, v: Byte := c as int, Named()[c];
    NamedThere([39, 92, k, 39], c);
    OneToken([39, 92, k, 39], Num(v, false)) by { AloneRead([39, 92, k, 39], v); }
    NamedThere([34, 92, k, 34], c);
    OneToken([34, 92, k, 34], Str([v])) by { OneEscape([34, 92, k, 34], v, 3); }
  }

  lemma NamedThere(s: Text, c: char)
    requires |s| == 4 && c in Named() && s[2] == c as int
    ensures Escape(s, 2) == Ok(Named()[c], 3)
  {
  }

  lemma AloneRead(s: Text, v: Byte)
    requires |s| == 4 && s[0] == 39 && s[1] == 92 && s[3] == 39 && Escape(s, 2) == Ok(v, 3)
    ensures Token(s, 0) == Ok(Num(v, false), 4)
  {
    hide Escape;
  }

  // A string of one escape.
  lemma OneEscape(s: Text, v: Byte, j: nat)
    requires |s| == j + 1 && j >= 3 && s[0] == 34 && s[1] == 92 && s[j] == 34 && Escape(s, 2) == Ok(v, j)
    ensures Token(s, 0) == Ok(Str([v]), j + 1)
  {
    hide Escape;
    assert StringBody(s, j) == Ok([], j + 1);
    assert [v] + [] == [v];
    assert StringBody(s, 1) == Ok([v], j + 1);
  }

  lemma HexEscapeStep(s: Text, j: nat, n: nat, upper: bool)
    requires j < |s| && s[j] == Figure(n % 16, upper) && n < 0x8000_0000
    ensures HexEscape(s, j, n / 16) == HexEscape(s, j + 1, n)
  {
    hide Figure, Wrap, Signed, HexValue;
    FigureRead(n % 16, 16, upper);
    Sixteen(n);
    SmallSigned(n);
  }

  lemma Sixteen(n: nat)
    ensures n / 16 * 16 + n % 16 == n && n / 16 <= n
  {
  }

  lemma SmallSigned(n: nat)
    requires n < 0x8000_0000
    ensures Signed(Wrap(n)) == n
  {
  }

  lemma {:induction false} HexEscapeRead(s: Text, i: nat, n: nat, upper: bool)
    requires Stands(s, i, Numeral(n, 16, upper)) && n < 0x8000_0000
    ensures HexEscape(s, i, 0) == HexEscape(s, i + |Numeral(n, 16, upper)|, n)
    decreases n
  {
    hide HexEscape, Stands, Figure;
    if n < 16 {
      StandsAt(s, i, Numeral(n, 16, upper), 0);
      HexEscapeStep(s, i, n, upper);
    } else {
      StandsParts(s, i, Numeral(n / 16, 16, upper), [Figure(n % 16, upper)]);
      HexEscapeRead(s, i, n / 16, upper);
      var j := i + |Numeral(n / 16, 16, upper)|;
      StandsAt(s, j, [Figure(n % 16, upper)], 0);
      HexEscapeStep(s, j, n, upper);
    }
  }

  // Backslash, x and hexadecimal figures denote the low byte of the number.
  lemma HexadecimalEscape(n: nat, upper: bool)
    requires n < 0x8000_0000
    ensures Lex([34, 92, 120] + Numeral(n, 16, upper) + [34], 0) == Some([Str([n % 256])])
  {
    hide Lex, Numeral, Stands, HexEscape, Token;
    var d := Numeral(n, 16, upper);
    var s: Text := [34, 92, 120] + d + [34];
    Placed([34, 92, 120], d, [34]);
    FirstFigure(n, 16, upper);
    assert s[3] == d[0];
    HexEscapeRead(s, 3, n, upper);
    var j := 3 + |d|;
    assert s[j] == 34;
    EscapeEnds(s, j, n);
    assert Escape(s, 2) == Ok(n % 256, j);
    OneEscape(s, n % 256, j);
    OneToken(s, Str([n % 256]));
  }

  lemma EscapeEnds(s: Text, j: nat, n: nat)
    requires j < |s| && s[j] == 34 && n < 0x8000_0000
    ensures HexEscape(s, j, n) == Ok(n % 256, j)
  {
  }

  // ---- comments ----

  lemma {:induction false} LineEndRead(s: Text, i: nat, c: seq<Byte>, k: nat)
    requires Stands(s, i, c) && 10 !in c && k <= |c| && At(s, i + |c|) in {0, 10}
    ensures LineEnd(s, i + k) == i + |c|
    decreases |c| - k
  {
    hide Stands;
    if k < |c| {
      StandsAt(s, i, c, k);
      LineEndRead(s, i, c, k + 1);
    } else {
      NullAtEnd(s, i + |c|);
    }
  }

  lemma NullAtEnd(s: Text, j: nat)
    ensures At(s, j) == 0 ==> j >= |s|
  {
    if j < |s| { assert s[j] in s; }
  }

  // From two slashes on, the rest of the line is skipped.
  lemma LineComment(s: Text, i: nat, c: Text)
    requires Stands(s, i, [47, 47] + c) && 10 !in c && At(s, i + 2 + |c|) in {0, 10}
    ensures Lex(s, i) == Lex(s, i + 2 + |c|)
  {
    hide Stands, Token, LineEnd;
    StandsAt(s, i, [47, 47] + c, 0);
    StandsAt(s, i, [47, 47] + c, 1);
    StandsParts(s, i, [47, 47], c);
    LineEndFrom(s, i + 1);
    LineEndRead(s, i + 2, c, 0);
  }

  lemma LineEndFrom(s: Text, i: nat)
    requires i < |s| && s[i] == 47
    ensures LineEnd(s, i) == LineEnd(s, i + 1)
  {
  }

  predicate Closes(c: seq<Byte>, k: nat) {
    k + 1 < |c| && c[k] == 42 && c[k + 1] == 47
  }

  lemma {:induction false} CommentEndRead(s: Text, i: nat, c: seq<Byte>, k: nat)
    requires Stands(s, i, c + [42, 47]) && (forall j: nat :: !Closes(c, j)) && k <= |c|
    ensures CommentEnd(s, i + k) == Some(i + |c| + 2)
    decreases |c| - k
  {
    hide Stands, CommentEnd;
    var d := c + [42, 47];
    StandsAt(s, i, d, k);
    StandsAt(s, i, d, k + 1);
    if k < |c| {
      assert !Closes(c, k);
      assert !(d[k] == 42 && d[k + 1] == 47);
      CommentStep(s, i + k);
      CommentEndRead(s, i, c, k + 1);
    } else {
      CommentStep(s, i + k);
    }
  }

  lemma CommentStep(s: Text, i: nat)
    requires i + 1 < |s|
    ensures CommentEnd(s, i) == if s[i] == 42 && s[i + 1] == 47 then Some(i + 2) else CommentEnd(s, i + 1)
  {
  }

  // A block comment is skipped up to its first end.
  lemma BlockComment(s: Text, i: nat, c: Text)
    requires Stands(s, i, [47, 42] + c + [42, 47]) && forall j: nat :: !Closes(c, j)
    ensures Lex(s, i) == Lex(s, i + |c| + 4)
  {
    hide Stands, Token, CommentEnd;
    assert [47, 42] + c + [42, 47] == [47, 42] + (c + [42, 47]);
    StandsAt(s, i, [47, 42] + (c + [42, 47]), 0);
    StandsAt(s, i, [47, 42] + (c + [42, 47]), 1);
    StandsParts(s, i, [47, 42], c + [42, 47]);
    CommentEndRead(s, i + 2, c, 0);
  }

  lemma {:induction false} NeverEnds(s: Text, i: nat, k: nat)
    requires (forall j: nat :: i <= j ==> !Closes(s, j)) && i <= k
    ensures CommentEnd(s, k).None?
    decreases |s| - k
  {
    if k < |s| {
      assert !Closes(s, k);
      NeverEnds(s, i, k + 1);
    }
  }

  // One without an end is an error.
  lemma OpenComment(s: Text, i: nat)
    requires Stands(s, i, [47, 42]) && forall j: nat :: i + 2 <= j ==> !Closes(s, j)
    ensures Lex(s, i) == None
  {
    hide Stands, Token, CommentEnd;
    StandsAt(s, i, [47, 42], 0);
    StandsAt(s, i, [47, 42], 1);
    NeverEnds(s, i + 2, i + 2);
  }
}

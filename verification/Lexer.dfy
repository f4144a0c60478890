// The tokenizer (symcc/src/tokenize.c) and the printer of token streams
// (unparse in symcc/src/preprocess.c), on the 64-bit host.  Text is bytes, with
// a null byte after its end.
module Lexer {
  import opened Words

  type Text = s: seq<Byte> | 0 !in s

  const LITERAL_MAX := 0x7fff_ffff_ffff_ffff

  datatype Tok = Num(val: nat, unsigned: bool) | Str(bytes: seq<Byte>) | Word(text: seq<Byte>, keyword: bool) | Punct(text: seq<Byte>)

  function At(s: Text, i: nat): Byte {
    if i < |s| then s[i] else 0
  }

  predicate IsSpace(c: Byte) { 9 <= c <= 13 || c == 32 }
  predicate IsDigit(c: Byte) { 48 <= c <= 57 }
  predicate IsOctal(c: Byte) { 48 <= c <= 55 }
  predicate IsHex(c: Byte) { IsDigit(c) || 97 <= c <= 102 || 65 <= c <= 70 }
  predicate IsStart(c: Byte) { 97 <= c <= 122 || 65 <= c <= 90 || c == 95 }
  predicate IsWordPart(c: Byte) { IsStart(c) || IsDigit(c) }

  function HexValue(c: Byte): nat
    requires IsHex(c)
  {
    if IsDigit(c) then c - 48 else if c >= 97 then c - 87 else c - 55
  }

  // ---- operators ----

  predicate Punct1(c: Byte) {
    c in {43, 45, 42, 47, 37, 40, 41, 123, 125, 61, 59, 44, 91, 93, 60, 62, 33, 38, 35, 63, 58, 94, 126, 124, 46}
  }

  // == != <= >= && || ## << >> += -= *= /= %= &= |= ^= ++ -- ->
  predicate Punct2(a: Byte, b: Byte) {
    || (b == 61 && a in {61, 33, 60, 62, 43, 45, 42, 47, 37, 38, 124, 94})
    || (a == b && a in {38, 124, 35, 60, 62, 43, 45}) || (a == 45 && b == 62)
  }

  // <<= >>= ...
  predicate Punct3(a: Byte, b: Byte, c: Byte) {
    (a == b && c == 61 && (a == 60 || a == 62)) || (a == b == c == 46)
  }

  // return int char long short signed unsigned void if else while for typedef
  // enum struct union static extern const volatile register inline sizeof break
  // continue do switch case default goto
  function Keywords(): set<seq<char>> {
    {"return", "int", "char", "long", "short", "signed", "unsigned", "void", "if", "else", "while", "for",
     "typedef", "enum", "struct", "union", "static", "extern", "const", "volatile", "register", "inline", "sizeof",
     "break", "continue", "do", "switch", "case", "default", "goto"}
  }

  function Chars(s: seq<Byte>): (r: seq<char>)
    ensures |r| == |s|
  {
    seq(|s|, i requires 0 <= i < |s| => s[i] as char)
  }

  predicate IsKeyword(s: seq<Byte>) {
    Chars(s) in Keywords()
  }

  // ---- scanning ----

  // cc_accumulate; None is a literal out of range.
  function Accumulate(v: nat, base: nat, digit: nat): Option<nat>
    requires base > 0 && digit < base <= 16
  {
    if v > (LITERAL_MAX - digit) / base then None else Some(v * base + digit)
  }

  datatype Scan<T> = Fail | Ok(value: T, next: nat)

  function LineEnd(s: Text, i: nat): (j: nat)
    ensures i <= j
    decreases |s| - i
  {
    if i >= |s| || s[i] == 10 then i else LineEnd(s, i + 1)
  }

  // The end of a block comment whose inside starts at i.
  function CommentEnd(s: Text, i: nat): (j: Option<nat>)
    ensures j.Some? ==> i < j.value <= |s|
    decreases |s| - i
  {
    if i >= |s| then None
    else if s[i] == 42 && At(s, i + 1) == 47 then Some(i + 2)
    else CommentEnd(s, i + 1)
  }

  predicate InBase(c: Byte, base: nat) {
    if base == 8 then IsOctal(c) else if base == 10 then IsDigit(c) else IsHex(c)
  }

  function Digits(s: Text, i: nat, base: nat, v: nat): (r: Scan<nat>)
    requires base == 8 || base == 10 || base == 16
    ensures r.Ok? ==> i <= r.next && (i < |s| && InBase(s[i], base) ==> i < r.next)
    ensures r.Ok? && v <= LITERAL_MAX ==> r.value <= LITERAL_MAX
    decreases |s| - i
  {
    if i >= |s| || !InBase(s[i], base) then Ok(v, i)
    else match Accumulate(v, base, HexValue(s[i]))
      case None => Fail
      case Some(w) => Digits(s, i + 1, base, w)
  }

  // u, U, l and L in any order, ll for l; whether u or U was there.
  function Suffix(s: Text, i: nat, u: bool, l: bool): (r: (bool, nat))
    ensures i <= r.1
    decreases |s| - i
  {
    var c := At(s, i);
    if !u && (c == 117 || c == 85) then Suffix(s, i + 1, true, l)
    else if !l && (c == 108 || c == 76) then Suffix(s, if At(s, i + 1) == c then i + 2 else i + 1, u, true)
    else (u, i)
  }

  function Magnitude(s: Text, i: nat): (r: Scan<nat>)
    requires i < |s| && IsDigit(s[i])
    ensures r.Ok? ==> i < r.next
  {
    if s[i] == 48 && (At(s, i + 1) == 120 || At(s, i + 1) == 88) then
      (if !IsHex(At(s, i + 2)) then Fail else Digits(s, i + 2, 16, 0))
    else if s[i] == 48 && IsOctal(At(s, i + 1)) then
      (match Digits(s, i + 1, 8, 0)
       case Fail => Fail
       case Ok(v, j) => if IsDigit(At(s, j)) then Digits(s, j, 10, 0) else Ok(v, j))
    else Digits(s, i, 10, 0)
  }

  function Number(s: Text, i: nat): (r: Scan<Tok>)
    requires i < |s| && IsDigit(s[i])
    ensures r.Ok? ==> i < r.next
  {
    match Magnitude(s, i)
    case Fail => Fail
    case Ok(v, j) =>
      var (u, k) := Suffix(s, j, false, false);
      if IsWordPart(At(s, k)) then Fail else Ok(Num(v, u), k)
  }

  function WordEnd(s: Text, i: nat): (j: nat)
    ensures i <= j && (i <= |s| ==> j <= |s|)
    ensures forall k :: i <= k < j && k < |s| ==> IsWordPart(s[k])
    decreases |s| - i
  {
    if i < |s| && IsWordPart(s[i]) then WordEnd(s, i + 1) else i
  }

  // get_escape, after the backslash: the byte and the place after it.
  function Escape(s: Text, i: nat): (r: Scan<Byte>)
    ensures r.Ok? ==> i < r.next
  {
    var c := At(s, i);
    if c == 110 then Ok(10, i + 1) else if c == 116 then Ok(9, i + 1) else if c == 114 then Ok(13, i + 1)
    else if c == 118 then Ok(11, i + 1) else if c == 102 then Ok(12, i + 1) else if c == 97 then Ok(7, i + 1)
    else if c == 98 then Ok(8, i + 1) else if c in {92, 34, 39, 63} then Ok(c, i + 1)
    else if IsOctal(c) then Octal(s, i, 0, 0)
    else if c == 120 then (if IsHex(At(s, i + 1)) then HexEscape(s, i + 1, 0) else Ok(120, i + 1))
    else Ok(92, i + 1)
  }

  // At most three octal digits.
  function Octal(s: Text, i: nat, v: nat, n: nat): (r: Scan<Byte>)
    requires n <= 3
    ensures r.Ok? ==> i <= r.next && (n < 3 && IsOctal(At(s, i)) ==> i < r.next)
    decreases 3 - n
  {
    if n < 3 && IsOctal(At(s, i)) then Octal(s, i + 1, v * 8 + (At(s, i) - 48), n + 1) else Ok(v % 256, i)
  }

  // The value passes through a signed 32-bit int at each digit.
  function HexEscape(s: Text, i: nat, v: int): (r: Scan<Byte>)
    requires -0x8000_0000 <= v < 0x8000_0000
    ensures r.Ok? ==> i <= r.next && (i < |s| && IsHex(s[i]) ==> i < r.next)
    decreases |s| - i
  {
    if i < |s| && IsHex(s[i]) then
      if v < 0 then Fail else HexEscape(s, i + 1, Signed(Wrap(v * 16 + HexValue(s[i]))))
    else Ok(v % 256, i)
  }

  // The inside of a string literal, up to and over its closing quote.
  function StringBody(s: Text, i: nat): (r: Scan<seq<Byte>>)
    ensures r.Ok? ==> i < r.next
    decreases |s| - i
  {
    if i >= |s| then Fail
    else if s[i] == 34 then Ok([], i + 1)
    else if s[i] == 92 then
      (match Escape(s, i + 1)
       case Fail => Fail
       case Ok(b, j) =>
         match StringBody(s, j)
         case Fail => Fail
         case Ok(rest, k) => Ok([b] + rest, k))
    else
      match StringBody(s, i + 1)
      case Fail => Fail
      case Ok(rest, k) => Ok([s[i]] + rest, k)
  }

  function CharLiteral(s: Text, i: nat): (r: Scan<Tok>)
    requires i < |s| && s[i] == 39
    ensures r.Ok? ==> i < r.next
  {
    var v := if At(s, i + 1) == 92 then Escape(s, i + 2) else Ok(At(s, i + 1), i + 2);
    match v
    case Fail => Fail
    case Ok(b, j) => if At(s, j) == 39 then Ok(Num(b, false), j + 1) else Fail
  }

  // One token at i, where no space or comment starts.
  function Token(s: Text, i: nat): (r: Scan<Tok>)
    requires i < |s|
    ensures r.Ok? ==> i < r.next
  {
    var c := s[i];
    if IsDigit(c) then Number(s, i)
    else if IsStart(c) then
      var j := WordEnd(s, i + 1);
      Ok(Word(s[i..j], IsKeyword(s[i..j])), j)
    else if i + 3 <= |s| && Punct3(c, At(s, i + 1), At(s, i + 2)) then Ok(Punct(s[i..i + 3]), i + 3)
    else if i + 2 <= |s| && Punct2(c, At(s, i + 1)) then Ok(Punct(s[i..i + 2]), i + 2)
    else if Punct1(c) then Ok(Punct([c]), i + 1)
    else if c == 34 then
      (match StringBody(s, i + 1)
       case Fail => Fail
       case Ok(b, j) => Ok(Str(b), j))
    else if c == 39 then CharLiteral(s, i)
    else Fail
  }

  // All tokens from i on; None is a lexical error.
  function Lex(s: Text, i: nat): Option<seq<Tok>>
    decreases |s| - i
  {
    if i >= |s| then Some([])
    else if IsSpace(s[i]) then Lex(s, i + 1)
    else if s[i] == 47 && At(s, i + 1) == 47 then Lex(s, LineEnd(s, i + 1))
    else if s[i] == 47 && At(s, i + 1) == 42 then
      (match CommentEnd(s, i + 2)
       case None => None
       case Some(j) => Lex(s, j))
    else
      match Token(s, i)
      case Fail => None
      case Ok(t, j) => After([t], Lex(s, j))
  }

  function After(out: seq<Tok>, rest: Option<seq<Tok>>): Option<seq<Tok>> {
    if rest.None? then None else Some(out + rest.value)
  }

  lemma AfterEnds(out: seq<Tok>, rest: Option<seq<Tok>>)
    ensures After([], rest) == rest && After(out, Some([])) == Some(out)
  {
    if rest.Some? { assert [] + rest.value == rest.value; }
    assert out + [] == out;
  }

  lemma AfterAfter(a: seq<Tok>, b: seq<Tok>, rest: Option<seq<Tok>>)
    ensures After(a, After(b, rest)) == After(a + b, rest)
  {
    if rest.Some? { assert a + (b + rest.value) == a + b + rest.value; }
  }

  // ---- printing ----

  function Decimal(n: nat): (r: seq<Byte>)
    ensures r != []
    ensures forall c :: c in r ==> IsDigit(c)
  {
    if n < 10 then [n + 48] else Decimal(n / 10) + [n % 10 + 48]
  }

  function Escaped(c: Byte): (r: seq<Byte>)
    ensures r != [] && 0 !in r
  {
    if c == 34 || c == 92 then [92, c]
    else if c < 32 || c >= 127 then [92, 48 + c / 64, 48 + c / 8 % 8, 48 + c % 8]
    else [c]
  }

  function Quoted(b: seq<Byte>): (r: seq<Byte>)
    ensures 0 !in r
  {
    if b == [] then [34] else Escaped(b[0]) + Quoted(b[1..])
  }

  function Spelling(t: Tok): seq<Byte> {
    match t
    case Num(v, u) => Decimal(v) + if u then [117] else []
    case Str(b) => [34] + Quoted(b)
    case Word(text, _) => text
    case Punct(text) => text
  }

  // needs_space: none after "(" and none before ")".
  predicate Spaced(a: Tok, b: Tok) {
    a != Punct([40]) && b != Punct([41])
  }

  function Unparse(toks: seq<Tok>): seq<Byte> {
    if toks == [] then []
    else Spelling(toks[0]) + (if |toks| > 1 && Spaced(toks[0], toks[1]) then [32] else []) + Unparse(toks[1..])
  }

  // Tokens the tokenizer can produce.
  predicate Valid(t: Tok) {
    match t
    case Num(v, _) => v <= LITERAL_MAX
    case Str(_) => true
    case Word(text, keyword) =>
      && text != [] && IsStart(text[0]) && (forall c :: c in text ==> IsWordPart(c)) && keyword == IsKeyword(text)
    case Punct(text) =>
      || (|text| == 1 && Punct1(text[0])) || (|text| == 2 && Punct2(text[0], text[1]))
      || (|text| == 3 && Punct3(text[0], text[1], text[2]))
  }

  predicate AllValid(toks: seq<Tok>) {
    forall t :: t in toks ==> Valid(t)
  }

  // ---- reading back what was printed ----

  // text stands at i.
  predicate Stands(s: Text, i: nat, text: seq<Byte>) {
    i + |text| <= |s| && s[i..i + |text|] == text
  }

  lemma StandsAt(s: Text, i: nat, text: seq<Byte>, k: nat)
    requires Stands(s, i, text) && k < |text|
    ensures i + k < |s| && s[i + k] == text[k]
  {
    assert s[i..i + |text|][k] == s[i + k];
  }

  lemma StandsParts(s: Text, i: nat, a: seq<Byte>, b: seq<Byte>)
    requires Stands(s, i, a + b)
    ensures Stands(s, i, a) && Stands(s, i + |a|, b)
  {
    assert s[i..i + |a|] == s[i..i + |a + b|][..|a|];
    assert s[i + |a|..i + |a| + |b|] == s[i..i + |a + b|][|a|..];
  }

  // What may follow a printed token other than "(".
  predicate Stop(c: Byte) {
    c == 0 || c == 32 || c == 41
  }

  lemma DigitRead(s: Text, j: nat, n: nat)
    requires j < |s| && s[j] == n % 10 + 48 && n <= LITERAL_MAX
    ensures Digits(s, j, 10, n / 10) == Digits(s, j + 1, 10, n)
  {
    assert n == n / 10 * 10 + n % 10;
    assert Accumulate(n / 10, 10, n % 10) == Some(n);
  }

  lemma {:induction false} DecimalRead(s: Text, i: nat, n: nat)
    requires Stands(s, i, Decimal(n)) && n <= LITERAL_MAX
    ensures Digits(s, i, 10, 0) == Digits(s, i + |Decimal(n)|, 10, n)
    decreases n
  {
    hide Digits, Stands;
    if n < 10 {
      StandsAt(s, i, Decimal(n), 0);
      DigitRead(s, i, n);
    } else {
      StandsParts(s, i, Decimal(n / 10), [n % 10 + 48]);
      DecimalRead(s, i, n / 10);
      var j := i + |Decimal(n / 10)|;
      StandsAt(s, j, [n % 10 + 48], 0);
      DigitRead(s, j, n);
    }
  }

  lemma {:induction false} LeadingZero(n: nat)
    ensures Decimal(n)[0] == 48 ==> n == 0
    decreases n
  {
    if n >= 10 {
      LeadingZero(n / 10);
    }
  }

  lemma SuffixRead(s: Text, j: nat, u: bool)
    requires if u then At(s, j) == 117 && Stop(At(s, j + 1)) else Stop(At(s, j))
    ensures Suffix(s, j, false, false) == (u, if u then j + 1 else j)
  {
    if u {
      assert Suffix(s, j + 1, true, false) == (true, j + 1);
    }
  }

  lemma MagnitudeRead(s: Text, i: nat, v: nat)
    requires Stands(s, i, Decimal(v)) && v <= LITERAL_MAX
    requires var e := At(s, i + |Decimal(v)|); Stop(e) || e == 117
    ensures i < |s| && IsDigit(s[i]) && Magnitude(s, i) == Ok(v, i + |Decimal(v)|)
  {
    hide Decimal, Stands;
    var d := Decimal(v);
    StandsAt(s, i, d, 0);
    assert d[0] in d;
    DecimalRead(s, i, v);
    LeadingZero(v);
    if v == 0 { DecimalZero(); }
    assert Digits(s, i + |d|, 10, v) == Ok(v, i + |d|);
  }

  lemma NumberRead(s: Text, i: nat, v: nat, u: bool)
    requires Stands(s, i, Spelling(Num(v, u))) && v <= LITERAL_MAX
    requires Stop(At(s, i + |Spelling(Num(v, u))|))
    ensures i < |s| && IsDigit(s[i]) && Number(s, i) == Ok(Num(v, u), i + |Spelling(Num(v, u))|)
  {
    hide Decimal, Magnitude, Suffix, Stands;
    var d := Decimal(v);
    StandsParts(s, i, d, if u then [117] else []);
    if u { StandsAt(s, i + |d|, [117], 0); }
    MagnitudeRead(s, i, v);
    SuffixRead(s, i + |d|, u);
  }

  lemma DecimalZero()
    ensures Decimal(0) == [48]
  {
  }

  lemma {:induction false} WordRead(s: Text, i: nat, k: nat, text: seq<Byte>)
    requires Stands(s, i, text) && Stop(At(s, i + |text|)) && k <= |text| && forall c :: c in text ==> IsWordPart(c)
    ensures WordEnd(s, i + k) == i + |text|
    decreases |text| - k
  {
    if k < |text| {
      StandsAt(s, i, text, k);
      WordRead(s, i, k + 1, text);
    }
  }

  lemma EscapedRead(s: Text, i: nat, c: Byte)
    requires Stands(s, i, Escaped(c))
    ensures s[i] != 34 && (s[i] == 92 ==> Escape(s, i + 1) == Ok(c, i + |Escaped(c)|)) && (s[i] != 92 ==> s[i] == c && |Escaped(c)| == 1)
  {
    var e := Escaped(c);
    StandsAt(s, i, e, 0);
    if |e| > 1 { StandsAt(s, i, e, 1); }
    if |e| == 4 {
      StandsAt(s, i, e, 2);
      StandsAt(s, i, e, 3);
      OctalRead(s, i + 1, c);
    }
  }

  lemma OctalStep(s: Text, i: nat, v: nat, n: nat, d: nat)
    requires n < 3 && i < |s| && s[i] == 48 + d && d < 8
    ensures Octal(s, i, v, n) == Octal(s, i + 1, v * 8 + d, n + 1)
  {
  }

  lemma OctalRead(s: Text, i: nat, c: Byte)
    requires i + 3 <= |s| && s[i] == 48 + c / 64 && s[i + 1] == 48 + c / 8 % 8 && s[i + 2] == 48 + c % 8
    ensures IsOctal(s[i]) && Octal(s, i, 0, 0) == Ok(c, i + 3)
  {
    var a, b := c / 64, c / 8 % 8;
    assert (a * 8 + b) * 8 + c % 8 == c;
    OctalStep(s, i, 0, 0, a);
    OctalStep(s, i + 1, a, 1, b);
    OctalStep(s, i + 2, a * 8 + b, 2, c % 8);
  }

  lemma {:induction false} QuotedRead(s: Text, i: nat, b: seq<Byte>)
    requires Stands(s, i, Quoted(b))
    ensures StringBody(s, i) == Ok(b, i + |Quoted(b)|)
    decreases b
  {
    hide Escaped, Escape;
    if b == [] {
      StandsAt(s, i, Quoted(b), 0);
    } else {
      StandsParts(s, i, Escaped(b[0]), Quoted(b[1..]));
      EscapedRead(s, i, b[0]);
      QuotedRead(s, i + |Escaped(b[0])|, b[1..]);
      assert [b[0]] + b[1..] == b;
    }
  }

  lemma PunctRead(s: Text, i: nat, t: Tok)
    requires t.Punct? && Valid(t) && Stands(s, i, t.text) && (t == Punct([40]) || Stop(At(s, i + |t.text|)))
    ensures Token(s, i) == Ok(t, i + |t.text|) && !IsSpace(s[i]) && !(s[i] == 47 && At(s, i + 1) in {47, 42})
  {
    var n := |t.text|;
    StandsAt(s, i, t.text, 0);
    if n > 1 { StandsAt(s, i, t.text, 1); }
    if n > 2 { StandsAt(s, i, t.text, 2); }
    assert s[i..i + n] == t.text;
    if n == 1 {
      assert t.text == [s[i]];
      assert !Punct2(s[i], At(s, i + 1)) && !Punct3(s[i], At(s, i + 1), At(s, i + 2));
    } else if n == 2 {
      assert !Punct3(s[i], s[i + 1], At(s, i + 2));
    }
  }

  lemma StringRead(s: Text, i: nat, b: seq<Byte>)
    requires Stands(s, i, [34] + Quoted(b))
    ensures i < |s| && s[i] == 34 && Token(s, i) == Ok(Str(b), i + 1 + |Quoted(b)|)
  {
    hide Punct1, Punct2, Punct3, Stands;
    StandsParts(s, i, [34], Quoted(b));
    StandsAt(s, i, [34], 0);
    QuotedRead(s, i + 1, b);
    QuoteIsNothingElse(s, i);
  }

  lemma WordTokenRead(s: Text, i: nat, t: Tok)
    requires t.Word? && Valid(t) && Stands(s, i, t.text) && Stop(At(s, i + |t.text|))
    ensures i < |s| && IsStart(s[i]) && Token(s, i) == Ok(t, i + |t.text|)
  {
    hide IsKeyword;
    StandsAt(s, i, t.text, 0);
    WordRead(s, i, 1, t.text);
    assert s[i..i + |t.text|] == t.text;
  }

  // A printed token is read back as itself.
  lemma TokenRead(s: Text, i: nat, t: Tok)
    requires Valid(t) && Stands(s, i, Spelling(t)) && (t == Punct([40]) || Stop(At(s, i + |Spelling(t)|)))
    ensures i < |s| && Token(s, i) == Ok(t, i + |Spelling(t)|)
    ensures !IsSpace(s[i]) && !(s[i] == 47 && At(s, i + 1) in {47, 42})
  {
    hide Number, Stands, Decimal, Quoted;
    match t
    case Num(v, u) => NumberRead(s, i, v, u);
    case Str(b) => StringRead(s, i, b);
    case Word(_, _) => WordTokenRead(s, i, t);
    case Punct(_) => PunctTokenRead(s, i, t);
  }

  lemma PunctTokenRead(s: Text, i: nat, t: Tok)
    requires t.Punct? && Valid(t) && Stands(s, i, t.text) && (t == Punct([40]) || Stop(At(s, i + |t.text|)))
    ensures i < |s| && Token(s, i) == Ok(t, i + |t.text|) && !IsSpace(s[i]) && !(s[i] == 47 && At(s, i + 1) in {47, 42})
  {
    hide Token, Punct1, Punct2, Punct3;
    StandsAt(s, i, t.text, 0);
    PunctRead(s, i, t);
  }

  lemma QuoteIsNothingElse(s: Text, i: nat)
    ensures !Punct1(34) && !Punct2(34, At(s, i + 1)) && !Punct3(34, At(s, i + 1), At(s, i + 2))
  {
  }

  lemma SpellingSome(t: Tok)
    requires Valid(t)
    ensures Spelling(t) != [] && 0 !in Spelling(t)
  {
    hide Decimal, IsKeyword;
  }

  lemma {:induction false} UnparseText(toks: seq<Tok>)
    requires AllValid(toks)
    ensures 0 !in Unparse(toks)
  {
    hide Spelling, Valid;
    if toks != [] {
      assert toks[0] in toks;
      SpellingSome(toks[0]);
      assert AllValid(toks[1..]) by { forall t | t in toks[1..] ensures Valid(t) { assert t in toks; } }
      UnparseText(toks[1..]);
    }
  }

  function Gap(toks: seq<Tok>): seq<Byte> {
    if |toks| > 1 && Spaced(toks[0], toks[1]) then [32] else []
  }

  lemma Pieces(s: Text, i: nat, toks: seq<Tok>)
    requires AllValid(toks) && toks != [] && i <= |s| && s[i..] == Unparse(toks)
    ensures var j := i + |Spelling(toks[0])|;
      && i < j && Stands(s, i, Spelling(toks[0])) && Stands(s, j, Gap(toks))
      && j + |Gap(toks)| <= |s| && s[j + |Gap(toks)|..] == Unparse(toks[1..])
  {
    hide Spelling, Valid, Stands, Unparse;
    var t, rest, gap := toks[0], toks[1..], Gap(toks);
    assert t in toks;
    SpellingSome(t);
    UnparseStep(toks);
    WholeStands(s, i, Spelling(t) + (gap + Unparse(rest)));
    StandsParts(s, i, Spelling(t), gap + Unparse(rest));
    StandsParts(s, i + |Spelling(t)|, gap, Unparse(rest));
    SuffixAt(s, i, Spelling(t), gap, Unparse(rest));
  }

  lemma RestValid(toks: seq<Tok>)
    requires AllValid(toks) && toks != []
    ensures Valid(toks[0]) && AllValid(toks[1..])
  {
    hide Valid;
    forall u | u in toks[1..] ensures Valid(u) {
      assert u in toks;
    }
  }

  lemma StopAfter(s: Text, i: nat, toks: seq<Tok>)
    requires AllValid(toks) && toks != [] && i <= |s| && s[i..] == Unparse(toks)
    ensures toks[0] == Punct([40]) || Stop(At(s, i + |Spelling(toks[0])|))
  {
    hide Spelling, Valid, Unparse;
    Pieces(s, i, toks);
    RestValid(toks);
    var j := i + |Spelling(toks[0])|;
    if Gap(toks) != [] {
      StandsAt(s, j, Gap(toks), 0);
    } else {
      NextByte(s, j, toks[1..]);
    }
  }

  // The first token, and the space after it if there is one.
  lemma OneRead(s: Text, i: nat, toks: seq<Tok>)
    requires AllValid(toks) && toks != [] && i <= |s| && s[i..] == Unparse(toks)
    ensures var j := i + |Spelling(toks[0])|;
      Lex(s, i) == After([toks[0]], Lex(s, j))
    ensures var j := i + |Spelling(toks[0])|; Gap(toks) != [] ==> Lex(s, j) == Lex(s, j + 1)
  {
    hide Spelling, Token, Valid, Unparse, IsSpace, LineEnd, CommentEnd, Stands;
    Pieces(s, i, toks);
    RestValid(toks);
    StopAfter(s, i, toks);
    TokenRead(s, i, toks[0]);
    var j := i + |Spelling(toks[0])|;
    if Gap(toks) != [] {
      StandsAt(s, j, Gap(toks), 0);
      SpaceSkipped(s, j);
    }
  }

  lemma SuffixAt(s: Text, i: nat, a: seq<Byte>, b: seq<Byte>, c: seq<Byte>)
    requires i <= |s| && s[i..] == a + (b + c)
    ensures i + |a| + |b| <= |s| && s[i + |a| + |b|..] == c
  {
    assert s[i + |a| + |b|..] == s[i..][|a| + |b|..];
  }

  lemma WholeStands(s: Text, i: nat, text: seq<Byte>)
    requires i <= |s| && s[i..] == text
    ensures Stands(s, i, text)
  {
    assert s[i..|s|] == s[i..];
  }

  lemma UnparseStep(toks: seq<Tok>)
    requires toks != []
    ensures Unparse(toks) == Spelling(toks[0]) + (Gap(toks) + Unparse(toks[1..]))
  {
    hide Spelling;
  }

  lemma SpaceSkipped(s: Text, i: nat)
    requires i < |s| && s[i] == 32
    ensures Lex(s, i) == Lex(s, i + 1)
  {
  }

  lemma {:induction false} ReadBack(s: Text, i: nat, toks: seq<Tok>)
    requires AllValid(toks) && i <= |s| && s[i..] == Unparse(toks)
    ensures Lex(s, i) == Some(toks)
    decreases |toks|
  {
    hide Spelling, Token, Valid, Unparse, Stands, IsSpace, LineEnd, CommentEnd;
    if toks == [] {
      assert Unparse([]) == [] by { UnparseNone(); }
    } else {
      OneRead(s, i, toks);
      Pieces(s, i, toks);
      RestValid(toks);
      ReadBack(s, i + |Spelling(toks[0])| + |Gap(toks)|, toks[1..]);
      assert [toks[0]] + toks[1..] == toks;
    }
  }

  lemma UnparseNone()
    ensures Unparse([]) == []
  {
  }

  // Printed text starts with its first token, or is at its end.
  lemma NextByte(s: Text, j: nat, toks: seq<Tok>)
    requires AllValid(toks) && j <= |s| && s[j..] == Unparse(toks)
    ensures toks == [] ==> At(s, j) == 0
    ensures toks != [] && toks[0] == Punct([41]) ==> At(s, j) == 41
  {
    if toks != [] && toks[0] == Punct([41]) {
      assert s[j..][0] == s[j];
      assert Unparse(toks)[0] == 41;
    }
  }

  // Printing and reading are inverse on every stream of valid tokens.
  lemma PrintedReadsBack(toks: seq<Tok>)
    requires AllValid(toks)
    ensures 0 !in Unparse(toks) && Lex(Unparse(toks), 0) == Some(toks)
  {
    UnparseText(toks);
    var s: Text := Unparse(toks);
    assert s[0..] == s;
    ReadBack(s, 0, toks);
  }

  // The tokenizer only produces valid tokens.
  lemma {:induction false} LexValid(s: Text, i: nat)
    ensures Lex(s, i).Some? ==> AllValid(Lex(s, i).value)
    decreases |s| - i
  {
    hide Token, Valid;
    if i >= |s| {
    } else if IsSpace(s[i]) {
      LexValid(s, i + 1);
    } else if s[i] == 47 && At(s, i + 1) == 47 {
      LexValid(s, LineEnd(s, i + 1));
    } else if s[i] == 47 && At(s, i + 1) == 42 {
      if CommentEnd(s, i + 2).Some? { LexValid(s, CommentEnd(s, i + 2).value); }
    } else if Token(s, i).Ok? {
      TokenValid(s, i);
      LexValid(s, Token(s, i).next);
    }
  }

  lemma TokenValid(s: Text, i: nat)
    requires i < |s| && Token(s, i).Ok?
    ensures Valid(Token(s, i).value)
  {
    hide IsKeyword, StringBody, Escape, Suffix;
    if IsStart(s[i]) {
      var j := WordEnd(s, i + 1);
      forall c | c in s[i..j] ensures IsWordPart(c) {
      }
    }
  }

  // So any text, tokenized, printed and tokenized again, gives the same tokens.
  lemma PrintingIsStable(s: Text)
    requires Lex(s, 0).Some?
    ensures var toks := Lex(s, 0).value; 0 !in Unparse(toks) && Lex(Unparse(toks), 0) == Some(toks)
  {
    LexValid(s, 0);
    PrintedReadsBack(Lex(s, 0).value);
  }

  // ---- the two loops ----

  method Tokenize(p: Text) returns (toks: Option<seq<Tok>>)
    ensures toks == Lex(p, 0)
  {
    hide Token, LineEnd, CommentEnd, IsSpace;
    var out, i := [], 0;
    AfterEnds(out, Lex(p, 0));
    while i < |p|
      invariant Lex(p, 0) == After(out, Lex(p, i))
      decreases |p| - i
    {
      if IsSpace(p[i]) {
        i := i + 1;
      } else if p[i] == 47 && At(p, i + 1) == 47 {
        i := LineEnd(p, i + 1);
      } else if p[i] == 47 && At(p, i + 1) == 42 {
        var j := CommentEnd(p, i + 2);
        if j.None? {
          return None;
        }
        i := j.value;
      } else {
        var t := Token(p, i);
        if t.Fail? {
          return None;
        }
        AfterAfter(out, [t.value], Lex(p, t.next));
        out := out + [t.value];
        i := t.next;
      }
    }
    AfterEnds(out, None);
    toks := Some(out);
  }

  // What is still to print before token k.
  function Rest(toks: seq<Tok>, k: nat): seq<Byte>
    requires k <= |toks|
  {
    (if 0 < k < |toks| then Gap(toks[k - 1..]) else []) + Unparse(toks[k..])
  }

  lemma RestStep(toks: seq<Tok>, k: nat)
    requires k < |toks|
    ensures Rest(toks, k) == (if k > 0 && Spaced(toks[k - 1], toks[k]) then [32] else []) + Spelling(toks[k]) + Rest(toks, k + 1)
  {
    hide Spelling, Unparse;
    UnparseStep(toks[k..]);
    assert toks[k..][1..] == toks[k + 1..];
    if k + 1 == |toks| { UnparseNone(); }
  }

  method Print(toks: seq<Tok>) returns (buf: seq<Byte>)
    ensures buf == Unparse(toks)
  {
    hide Spelling, Rest, Unparse;
    buf := [];
    var k := 0;
    assert Rest(toks, 0) == Unparse(toks) && Rest(toks, |toks|) == [] by { RestEnds(toks); }
    while k < |toks|
      invariant 0 <= k <= |toks| && Unparse(toks) == buf + Rest(toks, k)
    {
      RestStep(toks, k);
      if k > 0 && Spaced(toks[k - 1], toks[k]) {
        buf := buf + [32];
      }
      buf := buf + Spelling(toks[k]);
      k := k + 1;
    }
  }

  lemma RestEnds(toks: seq<Tok>)
    ensures Rest(toks, 0) == Unparse(toks) && Rest(toks, |toks|) == []
  {
    assert toks[0..] == toks && toks[|toks|..] == [];
  }
}
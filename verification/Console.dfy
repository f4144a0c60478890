// The console's escape-sequence machine (kernel/chr_drv/console.c) over the
// 96 by 40 character frame buffer.  pos is an offset from the frame's start.
module Console {
  import opened Words

  const COLS := 96
  const ROWS := 40
  const CELLS := COLS * ROWS
  const NPAR := 16
  const BLANK: Byte := 0x20

  datatype Term = Term(frame: seq<Byte>, pos: int, x: Word, y: Word, top: Word, bottom: Word,
                       state: nat, npar: nat, par: seq<Word>, ques: bool, attr: Byte, savedX: Word, savedY: Word)

  // The cursor stands for its offset, and every region is inside the screen.
  predicate Ok(t: Term) {
    && |t.frame| == CELLS && t.x <= COLS && t.y < ROWS && t.pos == COLS * t.y + t.x
    && t.top < t.bottom <= ROWS && t.state <= 3 && t.npar < NPAR && |t.par| == NPAR
  }

  // ---- the frame ----

  function Erased(f: seq<Byte>, start: int, count: int): (r: seq<Byte>)
    ensures |r| == |f|
    ensures forall i :: 0 <= i < |f| ==> r[i] == if start <= i < start + count then BLANK else f[i]
  {
    seq(|f|, i requires 0 <= i < |f| => if start <= i < start + count then BLANK else f[i])
  }

  function UppedAt(f: seq<Byte>, top: nat, bottom: nat, i: nat): Byte
    requires top < bottom <= ROWS && |f| == CELLS && i < CELLS
  {
    if COLS * top <= i < COLS * (bottom - 1) then f[i + COLS] else if COLS * (bottom - 1) <= i < COLS * bottom then BLANK else f[i]
  }

  function DownedAt(f: seq<Byte>, top: nat, bottom: nat, i: nat): Byte
    requires top < bottom <= ROWS && |f| == CELLS && i < CELLS
  {
    if i < COLS then BLANK else if COLS * (top + 1) <= i < COLS * bottom then f[i - COLS] else f[i]
  }

  // The rows of [top, bottom) move up one; the last of them is blank.
  function Upped(f: seq<Byte>, top: nat, bottom: nat): (r: seq<Byte>)
    requires top < bottom <= ROWS && |f| == CELLS
    ensures |r| == CELLS
    ensures forall i :: 0 <= i < CELLS ==> r[i] == UppedAt(f, top, bottom, i)
  {
    seq(CELLS, i requires 0 <= i < CELLS => UppedAt(f, top, bottom, i))
  }

  // The rows of [top, bottom) move down one; the row that is then blanked is the
  // screen's first.
  function Downed(f: seq<Byte>, top: nat, bottom: nat): (r: seq<Byte>)
    requires top < bottom <= ROWS && |f| == CELLS
    ensures |r| == CELLS
    ensures forall i :: 0 <= i < CELLS ==> r[i] == DownedAt(f, top, bottom, i)
  {
    seq(CELLS, i requires 0 <= i < CELLS => DownedAt(f, top, bottom, i))
  }

  function Opened(f: seq<Byte>, pos: nat, n: nat): (r: seq<Byte>)
    requires pos + n <= |f|
    ensures |r| == |f|
    ensures forall i :: 0 <= i < |f| ==> r[i] == if pos == i < pos + n then BLANK else if pos < i < pos + n then f[i - 1] else f[i]
  {
    seq(|f|, i requires 0 <= i < |f| => if pos == i < pos + n then BLANK else if pos < i < pos + n then f[i - 1] else f[i])
  }

  function Closed(f: seq<Byte>, pos: nat, n: nat): (r: seq<Byte>)
    requires 0 < n && pos + n <= |f|
    ensures |r| == |f|
    ensures forall i :: 0 <= i < |f| ==> r[i] == if pos <= i < pos + n - 1 then f[i + 1] else if i == pos + n - 1 then BLANK else f[i]
  {
    seq(|f|, i requires 0 <= i < |f| => if pos <= i < pos + n - 1 then f[i + 1] else if i == pos + n - 1 then BLANK else f[i])
  }

  // ---- cursor and screen operations ----

  function GoTo(t: Term, x: Word, y: Word): (r: Term)
    requires Ok(t)
    ensures Ok(r)
  {
    if x > COLS || y >= ROWS then t else t.(x := x, y := y, pos := COLS * y + x)
  }

  // lf, from a cursor that may have run past the row's end.
  function LineFeed(t: Term): (r: Term)
    requires Ok(t.(pos := COLS * t.y, x := 0)) && t.pos == COLS * t.y + t.x
    ensures Ok(r) && r.x == 0
  {
    var u := t.(pos := t.pos - t.x, x := 0);
    if u.y + 1 < u.bottom then u.(y := u.y + 1, pos := u.pos + COLS)
    else u.(frame := Upped(u.frame, u.top, u.bottom))
  }

  function ReverseFeed(t: Term): (r: Term)
    requires Ok(t)
    ensures Ok(r)
  {
    if t.y > t.top then t.(y := t.y - 1, pos := t.pos - COLS) else t.(frame := Downed(t.frame, t.top, t.bottom))
  }

  function Delete(t: Term): (r: Term)
    requires Ok(t)
    ensures Ok(r)
  {
    if t.x == 0 then t else t.(x := t.x - 1, pos := t.pos - 1, frame := t.frame[t.pos - 1 := BLANK])
  }

  function EraseDisplay(t: Term, p: Word): (r: Term)
    requires Ok(t)
    ensures Ok(r)
  {
    if p == 0 then t.(frame := Erased(t.frame, t.pos, CELLS - t.pos))
    else if p == 1 then t.(frame := Erased(t.frame, 0, t.pos))
    else if p == 2 then t.(frame := Erased(t.frame, 0, CELLS))
    else t
  }

  function EraseLine(t: Term, p: Word): (r: Term)
    requires Ok(t)
    ensures Ok(r)
  {
    if p == 0 then (if t.x >= COLS then t else t.(frame := Erased(t.frame, t.pos, COLS - t.x)))
    else if p == 1 then t.(frame := Erased(t.frame, t.pos - t.x, t.x))
    else if p == 2 then t.(frame := Erased(t.frame, t.pos - t.x, COLS))
    else t
  }

  function Attribute(p: Word, attr: Byte): Byte {
    if p == 0 || p == 27 then 0x07 else if p == 1 || p == 4 then 0x0f else if p == 7 then 0x70 else attr
  }

  function Attributes(par: seq<Word>, n: nat, attr: Byte): Byte
    requires n <= |par|
  {
    if n == 0 then attr else Attribute(par[n - 1], Attributes(par, n - 1, attr))
  }

  function InsertChars(t: Term, n: nat): (r: Term)
    requires Ok(t)
    ensures Ok(r) && r == t.(frame := r.frame)
  {
    if n == 0 then t
    else var u := InsertChars(t, n - 1); u.(frame := Opened(u.frame, u.pos, COLS - u.x))
  }

  function DeleteChars(t: Term, n: nat): (r: Term)
    requires Ok(t)
    ensures Ok(r) && r == t.(frame := r.frame)
  {
    if n == 0 then t
    else var u := DeleteChars(t, n - 1); if u.x >= COLS then u else u.(frame := Closed(u.frame, u.pos, COLS - u.x))
  }

  function InsertLines(t: Term, n: nat): (r: Term)
    requires Ok(t)
    ensures Ok(r) && r == t.(frame := r.frame)
  {
    if n == 0 then t else var u := InsertLines(t, n - 1); u.(frame := Downed(u.frame, u.y, ROWS))
  }

  function DeleteLines(t: Term, n: nat): (r: Term)
    requires Ok(t)
    ensures Ok(r) && r == t.(frame := r.frame)
  {
    if n == 0 then t else var u := DeleteLines(t, n - 1); u.(frame := Upped(u.frame, u.y, ROWS))
  }

  // How often a count argument repeats.
  function Times(nr: Word, most: nat): nat {
    if nr > most then most else if nr == 0 then 1 else nr
  }

  function Save(t: Term): Term {
    t.(savedX := t.x, savedY := t.y)
  }

  // ---- the machine ----

  function Print(t: Term, c: Byte): (r: Term)
    requires Ok(t)
    ensures Ok(r)
  {
    var u := if t.x >= COLS then LineFeed(t.(x := t.x - COLS, pos := t.pos - COLS)) else t;
    u.(frame := u.frame[u.pos := c], pos := u.pos + 1, x := u.x + 1)
  }

  function Tab(t: Term): (r: Term)
    requires Ok(t)
    ensures Ok(r)
  {
    var n := 8 - t.x % 8;
    var u := t.(x := t.x + n, pos := t.pos + n);
    if u.x > COLS then LineFeed(u.(x := u.x - COLS, pos := u.pos - COLS)) else u
  }

  // The byte is a signed char and the erase character an unsigned one, so one of
  // 128 or more is never taken for it.
  predicate Erases(c: Byte, erase: Byte) {
    c == erase && c < 128
  }

  function Ground(t: Term, c: Byte, erase: Byte): (r: Term)
    requires Ok(t)
    ensures Ok(r)
  {
    if 31 < c < 127 then Print(t, c)
    else if c == 27 then t.(state := 1)
    else if c == 10 || c == 11 || c == 12 then LineFeed(t)
    else if c == 13 then t.(pos := t.pos - t.x, x := 0)
    else if Erases(c, erase) then Delete(t)
    else if c == 8 then (if t.x == 0 then t else t.(x := t.x - 1, pos := t.pos - 1))
    else if c == 9 then Tab(t)
    else t
  }

  // After ESC.  The save and restore branches look at the cursor's column.
  function Escape(t: Term, c: Byte): (r: Term)
    requires Ok(t)
    ensures Ok(r)
  {
    var u := t.(state := 0);
    if c == 91 then u.(state := 2)
    else if c == 69 then GoTo(u, 0, Wrap(u.y + 1))
    else if c == 77 then ReverseFeed(u)
    else if c == 68 then LineFeed(u)
    else if c == 90 then u
    else if u.x == 55 then Save(u)
    else if u.x == 56 then GoTo(u, u.savedX, u.savedY)
    else u
  }

  // At least one.
  function One(p: Word): Word {
    if p == 0 then 1 else p
  }

  // Counted from zero.
  function Less(p: Word): Word {
    if p == 0 then 0 else p - 1
  }

  // The command that ends a control sequence.
  function Command(t: Term, c: Byte): (r: Term)
    requires Ok(t)
    ensures Ok(r)
  {
    var p, q := t.par[0], t.par[1];
    if c == 71 || c == 96 then GoTo(t.(par := t.par[0 := Less(p)]), Less(p), t.y)
    else if c == 65 then GoTo(t.(par := t.par[0 := One(p)]), t.x, Wrap(t.y - One(p)))
    else if c == 66 || c == 101 then GoTo(t.(par := t.par[0 := One(p)]), t.x, Wrap(t.y + One(p)))
    else if c == 67 || c == 97 then GoTo(t.(par := t.par[0 := One(p)]), Wrap(t.x + One(p)), t.y)
    else if c == 68 then GoTo(t.(par := t.par[0 := One(p)]), Wrap(t.x - One(p)), t.y)
    else if c == 69 then GoTo(t.(par := t.par[0 := One(p)]), 0, Wrap(t.y + One(p)))
    else if c == 70 then GoTo(t.(par := t.par[0 := One(p)]), 0, Wrap(t.y - One(p)))
    else if c == 100 then GoTo(t.(par := t.par[0 := Less(p)]), t.x, Less(p))
    else if c == 72 || c == 102 then GoTo(t.(par := t.par[0 := Less(p)][1 := Less(q)]), Less(q), Less(p))
    else if c == 74 then EraseDisplay(t, p)
    else if c == 75 then EraseLine(t, p)
    else if c == 76 then InsertLines(t, Times(p, ROWS))
    else if c == 77 then DeleteLines(t, Times(p, ROWS))
    else if c == 80 then DeleteChars(t, Times(p, COLS))
    else if c == 64 then InsertChars(t, Times(p, COLS))
    else if c == 109 then t.(attr := Attributes(t.par, t.npar + 1, t.attr))
    else if c == 114 then Region(t, Less(p), if q == 0 then ROWS else q)
    else if c == 115 then Save(t)
    else if c == 117 then GoTo(t, t.savedX, t.savedY)
    else t
  }

  function Region(t: Term, from: Word, limit: Word): (r: Term)
    requires Ok(t)
    ensures Ok(r)
  {
    var u := t.(par := t.par[0 := from][1 := limit]);
    if from < limit <= ROWS then u.(top := from, bottom := limit) else u
  }

  function Params(t: Term, c: Byte): (r: Term)
    requires Ok(t) && t.state == 3
    ensures Ok(r)
  {
    if c == 59 && t.npar < NPAR - 1 then t.(npar := t.npar + 1)
    else if 48 <= c <= 57 then t.(par := t.par[t.npar := Wrap(10 * t.par[t.npar] + c - 48)])
    else Command(t.(state := 0), c)
  }

  function Zeros(): (r: seq<Word>)
    ensures |r| == NPAR && forall i :: 0 <= i < NPAR ==> r[i] == 0
  {
    seq(NPAR, _ => 0)
  }

  function Step(t: Term, c: Byte, erase: Byte): (r: Term)
    requires Ok(t)
    ensures Ok(r)
  {
    if t.state == 0 then Ground(t, c, erase)
    else if t.state == 1 then Escape(t, c)
    else if t.state == 2 then
      var u := t.(par := Zeros(), npar := 0, state := 3, ques := c == 63);
      if u.ques then u else Params(u, c)
    else Params(t, c)
  }

  // Any byte stream keeps the cursor and the regions inside the screen.
  function Run(t: Term, s: seq<Byte>, erase: Byte): (r: Term)
    requires Ok(t)
    ensures Ok(r)
  {
    if s == [] then t else Step(Run(t, s[..|s| - 1], erase), s[|s| - 1], erase)
  }

  // ---- what sequences mean ----

  lemma {:induction false} RunThen(t: Term, a: seq<Byte>, b: seq<Byte>, erase: Byte)
    requires Ok(t)
    ensures Run(t, a + b, erase) == Run(Run(t, a, erase), b, erase)
    decreases |b|
  {
    hide Step;
    if b == [] {
      assert a + b == a;
    } else {
      RunThen(t, a, b[..|b| - 1], erase);
      assert (a + b)[..|a + b| - 1] == a + b[..|b| - 1];
    }
  }

  predicate Printable(s: seq<Byte>) {
    forall c :: c in s ==> 31 < c < 127
  }

  // The frame with text at an offset.
  function With(f: seq<Byte>, pos: nat, s: seq<Byte>): (r: seq<Byte>)
    requires pos + |s| <= |f|
    ensures |r| == |f|
  {
    f[..pos] + s + f[pos + |s|..]
  }

  // Plain text that fits the row appears where the cursor was, and nowhere else.
  lemma {:induction false} TextAppears(t: Term, s: seq<Byte>, erase: Byte)
    requires Ok(t) && t.state == 0 && Printable(s) && t.x + |s| <= COLS
    ensures Run(t, s, erase) == t.(frame := With(t.frame, t.pos, s), x := t.x + |s|, pos := t.pos + |s|)
  {
    if s == [] {
      assert With(t.frame, t.pos, s) == t.frame;
    } else {
      var n := |s| - 1;
      var a, c := s[..n], s[n];
      assert forall e :: e in a ==> e in s;
      TextAppears(t, a, erase);
      assert c in s;
      assert With(t.frame, t.pos, a)[t.pos + n := c] == With(t.frame, t.pos, s);
    }
  }

  // The decimal digits of a number.
  function Digits(n: nat): (r: seq<Byte>)
    ensures forall c :: c in r ==> 48 <= c <= 57
  {
    if n < 10 then [n + 48] else Digits(n / 10) + [n % 10 + 48]
  }

  predicate Reading(t: Term) {
    Ok(t) && t.state == 3 && t.npar < |t.par|
  }

  lemma DigitStep(t: Term, c: Byte, erase: Byte)
    requires Reading(t) && 48 <= c <= 57
    ensures Step(t, c, erase) == t.(par := t.par[t.npar := Wrap(10 * t.par[t.npar] + c - 48)])
    ensures Reading(Step(t, c, erase))
  {
    hide Command;
  }

  lemma {:induction false} DigitsRead(t: Term, n: nat, erase: Byte)
    requires Reading(t) && t.par[t.npar] == 0 && n < W
    ensures Run(t, Digits(n), erase) == t.(par := t.par[t.npar := n])
    decreases n
  {
    hide Step, Ok;
    var s := Digits(n);
    if n < 10 {
      assert s[..0] == [];
      assert Run(t, s[..0], erase) == t;
      DigitStep(t, n + 48, erase);
    } else {
      DigitsRead(t, n / 10, erase);
      assert s[..|s| - 1] == Digits(n / 10);
      var u := t.(par := t.par[t.npar := n / 10]);
      DigitStep(u, n % 10 + 48, erase);
      assert 10 * (n / 10) + n % 10 == n;
    }
  }

  // A control sequence with two numbers, written in decimal.
  function Control2(a: nat, b: nat, c: Byte): seq<Byte> {
    ([27, 91] + Digits(a)) + ([59] + Digits(b) + [c])
  }

  lemma OneByte(t: Term, c: Byte, erase: Byte)
    requires Ok(t)
    ensures Run(t, [c], erase) == Step(t, c, erase)
  {
    assert [c][..0] == [];
    assert Run(t, [c][..0], erase) == t;
  }

  lemma Controlled2(t: Term, a: nat, b: nat, c: Byte, erase: Byte)
    requires Ok(t) && t.state == 0 && a < W && b < W && c >= 64
    ensures Run(t, Control2(a, b, c), erase) == Command(t.(state := 0, par := Zeros()[0 := a][1 := b], npar := 1, ques := false), c)
  {
    hide Run, Step, Command, Zeros;
    var d := Digits(a);
    FirstDigit(a);
    var t1 := t.(state := 2);
    assert Run(t, [27, 91], erase) == t1 by { Introduced(t, erase); }
    var t2 := t1.(par := Zeros(), npar := 0, state := 3, ques := false);
    RunThen(t, [27, 91], d, erase);
    FirstParameter(t1, t2, a, erase);
    var t3 := t2.(par := t2.par[0 := a]);
    var t4 := t3.(npar := 1);
    var rest := [59] + Digits(b) + [c];
    RunThen(t, [27, 91] + d, rest, erase);
    RunThen(t3, [59] + Digits(b), [c], erase);
    RunThen(t3, [59], Digits(b), erase);
    OneByte(t3, 59, erase);
    assert Step(t3, 59, erase) == t4 by { StepIs(t3, 59, erase); }
    assert t4.par[1] == 0 by { SecondZero(a); }
    DigitsRead(t4, b, erase);
    var t5 := t4.(par := t4.par[1 := b]);
    OneByte(t5, c, erase);
    StepIs(t5, c, erase);
  }

  lemma SecondZero(a: Word)
    ensures Zeros()[0 := a][1] == 0
  {
  }

  // ESC [ row ; col H, for any two numbers: the cursor goes there when that is on
  // the screen, and stays otherwise.  No character changes.
  lemma CursorAddressing(t: Term, row: nat, col: nat, erase: Byte)
    requires Ok(t) && t.state == 0 && row < W && col < W
    ensures var r := Run(t, Control2(row, col, 72), erase);
      && r.frame == t.frame && r.state == 0 && r.top == t.top && r.bottom == t.bottom
      && (if Less(row) < ROWS && Less(col) <= COLS then r.x == Less(col) && r.y == Less(row) else r.x == t.x && r.y == t.y)
  {
    hide Run, Zeros;
    Controlled2(t, row, col, 72, erase);
  }

  // ESC [ first ; last r makes these rows, counted from one, the region, when
  // there are such rows; last 0 is the screen's.  Nothing else changes.
  lemma RegionSet(t: Term, first: nat, last: nat, erase: Byte)
    requires Ok(t) && t.state == 0 && first < W && last < W
    ensures var r, end := Run(t, Control2(first, last, 114), erase), if last == 0 then ROWS else last;
      && r.frame == t.frame && r.state == 0 && r.x == t.x && r.y == t.y
      && if Less(first) < end <= ROWS then r.top == Less(first) && r.bottom == end else r.top == t.top && r.bottom == t.bottom
  {
    hide Run, Zeros;
    Controlled2(t, first, last, 114, erase);
  }

  lemma FirstDigit(n: nat)
    ensures Digits(n) != [] && 48 <= Digits(n)[0] <= 57
  {
  }

  lemma StepIs(t: Term, c: Byte, erase: Byte)
    requires Reading(t)
    ensures Step(t, c, erase) == Params(t, c)
  {
  }

  lemma Introduced(t: Term, erase: Byte)
    requires Ok(t) && t.state == 0
    ensures Run(t, [27, 91], erase) == t.(state := 2)
  {
    hide Run;
    RunThen(t, [27], [91], erase);
    assert [27] + [91] == [27, 91];
    OneByte(t, 27, erase);
    OneByte(t.(state := 1), 91, erase);
  }

  // The first digit clears the parameters and counts as one.
  lemma FirstParameter(t1: Term, t2: Term, row: nat, erase: Byte)
    requires Ok(t1) && t1.state == 2 && t2 == t1.(par := Zeros(), npar := 0, state := 3, ques := false) && row < W
    ensures Run(t1, Digits(row), erase) == t2.(par := t2.par[0 := row])
  {
    hide Run, Step, Zeros;
    var d := Digits(row);
    FirstDigit(row);
    assert [d[0]] + d[1..] == d;
    RunThen(t1, [d[0]], d[1..], erase);
    RunThen(t2, [d[0]], d[1..], erase);
    OneByte(t1, d[0], erase);
    OneByte(t2, d[0], erase);
    assert Step(t1, d[0], erase) == Step(t2, d[0], erase) by { SameStep(t1, t2, d[0], erase); }
    assert t2.par[0] == 0;
    DigitsRead(t2, row, erase);
  }

  lemma SameStep(t1: Term, t2: Term, c: Byte, erase: Byte)
    requires Ok(t1) && t1.state == 2 && t2 == t1.(par := Zeros(), npar := 0, state := 3, ques := false) && c != 63
    ensures Step(t1, c, erase) == Step(t2, c, erase)
  {
  }

  predicate BlankRow(f: seq<Byte>, y: nat)
    requires |f| == CELLS && y < ROWS
  {
    forall i :: COLS * y <= i < COLS * (y + 1) ==> f[i] == BLANK
  }

  // An inserted line is blank only at the top of the screen: elsewhere the row
  // that is blanked is the first one.
  lemma InsertedLine(t: Term)
    requires Ok(t)
    ensures BlankRow(InsertLines(t, 1).frame, t.y) <==> t.y == 0 || BlankRow(t.frame, t.y)
  {
    var r := Downed(t.frame, t.y, ROWS);
    assert InsertLines(t, 1).frame == r by { assert InsertLines(t, 0) == t; }
    forall i | COLS * t.y <= i < COLS * (t.y + 1) ensures r[i] == if t.y == 0 then BLANK else t.frame[i] {
      assert r[i] == DownedAt(t.frame, t.y, ROWS, i);
    }
  }

  // The character in a column of a row.
  function CellAt(t: Term, col: nat, row: nat): Byte
    requires Ok(t) && col < COLS && row < ROWS
  {
    t.frame[COLS * row + col]
  }

  // A newline moves the cursor to the start of the next row.  On the last row of
  // the region the rows of the region move up one instead and the last becomes
  // blank; a cursor below the region scrolls it as well.
  lemma NewlineScrolls(t: Term, erase: Byte)
    requires Ok(t) && t.state == 0
    ensures var r := Run(t, [10], erase);
            && r.x == 0 && r.y == (if t.y + 1 < t.bottom then t.y + 1 else t.y) && r.state == 0
            && forall col, row | 0 <= col < COLS && 0 <= row < ROWS ::
                 CellAt(r, col, row) == if t.y + 1 < t.bottom || row < t.top || t.bottom <= row then CellAt(t, col, row)
                                        else if row + 1 < t.bottom then CellAt(t, col, row + 1)
                                        else BLANK
  {
    hide Run;
    OneByte(t, 10, erase);
    var r := Run(t, [10], erase);
    if t.y + 1 >= t.bottom {
      forall col, row | 0 <= col < COLS && 0 <= row < ROWS
        ensures CellAt(r, col, row) == if row < t.top || t.bottom <= row then CellAt(t, col, row)
                                       else if row + 1 < t.bottom then CellAt(t, col, row + 1) else BLANK
      {
        assert r.frame[COLS * row + col] == UppedAt(t.frame, t.top, t.bottom, COLS * row + col);
      }
    }
  }

  // A tab, unless it is the erase character, moves to the next column that is a
  // multiple of eight and changes no character; from past the row's end it acts
  // as a newline.
  lemma TabStops(t: Term, erase: Byte)
    requires Ok(t) && t.state == 0 && erase != 9
    ensures var r := Run(t, [9], erase);
            if t.x < COLS then
              r.x % 8 == 0 && t.x < r.x <= t.x + 8 && r.x <= COLS && r.y == t.y && r.frame == t.frame
            else
              r == Run(t, [10], erase)
  {
    hide Run;
    OneByte(t, 9, erase);
    OneByte(t, 10, erase);
  }

  // A character that finds the row full goes to the start of the next one, as
  // after a newline.
  lemma LongRowsWrap(t: Term, c: Byte, erase: Byte)
    requires Ok(t) && t.state == 0 && t.x == COLS && 31 < c < 127
    ensures Run(t, [c], erase) == Run(Run(t, [10], erase), [c], erase)
  {
    hide Run;
    OneByte(t, c, erase);
    OneByte(t, 10, erase);
    OneByte(Run(t, [10], erase), c, erase);
  }

  // Carriage return and backspace move the cursor in its row; the erase character
  // also blanks what it goes back over.
  lemma CursorControls(t: Term, erase: Byte)
    requires Ok(t) && t.state == 0
    ensures var r := Run(t, [13], erase); r == t.(x := 0, pos := r.pos)
    ensures erase != 8 ==> var r := Run(t, [8], erase); r == t.(x := if t.x == 0 then 0 else t.x - 1, pos := r.pos)
    ensures erase == 127 || erase == 8 ==>
              var r := Run(t, [erase], erase);
              && r.y == t.y && r.x == (if t.x == 0 then 0 else t.x - 1)
              && forall i | 0 <= i < CELLS :: r.frame[i] == if t.x > 0 && i == COLS * t.y + t.x - 1 then BLANK else t.frame[i]
  {
    hide Run;
    OneByte(t, 13, erase);
    OneByte(t, 8, erase);
    OneByte(t, erase, erase);
  }

  // ESC M: up a row; at the top of the region its rows move down instead, the top
  // one staying where it was too, and the screen's first row is blanked.
  lemma ReverseScrolls(t: Term, erase: Byte, col: nat, row: nat)
    requires Ok(t) && t.state == 0 && col < COLS && row < ROWS
    ensures var r := Run(t, [27, 77], erase);
            && r.x == t.x && r.y == (if t.y > t.top then t.y - 1 else t.y) && r.state == 0
            && CellAt(r, col, row) == if t.y > t.top then CellAt(t, col, row)
                                      else if row == 0 then BLANK
                                      else if t.top < row < t.bottom then CellAt(t, col, row - 1)
                                      else CellAt(t, col, row)
  {
    hide Run;
    assert [27] + [77] == [27, 77];
    RunThen(t, [27], [77], erase);
    OneByte(t, 27, erase);
    OneByte(t.(state := 1), 77, erase);
    if t.y <= t.top {
      var f := Downed(t.frame, t.top, t.bottom);
      assert f[COLS * row + col] == DownedAt(t.frame, t.top, t.bottom, COLS * row + col);
    }
  }

  // A control sequence with one number, written in decimal.
  function Control(n: nat, c: Byte): seq<Byte> {
    [27, 91] + Digits(n) + [c]
  }

  lemma Controlled(t: Term, n: nat, c: Byte, erase: Byte)
    requires Ok(t) && t.state == 0 && n < W && c >= 64
    ensures Run(t, Control(n, c), erase) == Command(t.(state := 0, par := Zeros()[0 := n], npar := 0, ques := false), c)
  {
    hide Run, Step, Command, Zeros;
    var t1 := t.(state := 2);
    var t2 := t1.(par := Zeros(), npar := 0, state := 3, ques := false);
    var t3 := t2.(par := t2.par[0 := n]);
    Introduced(t, erase);
    RunThen(t, [27, 91], Digits(n), erase);
    FirstParameter(t1, t2, n, erase);
    RunThen(t, [27, 91] + Digits(n), [c], erase);
    OneByte(t3, c, erase);
    StepIs(t3, c, erase);
  }

  // Whether a place comes before the cursor's in reading order.
  predicate BeforeCursor(t: Term, col: nat, row: nat) {
    row < t.y || (row == t.y && col < t.x)
  }

  // ESC [ n J blanks from the cursor on, what is before the cursor, or
  // everything, and leaves the rest and the cursor.
  lemma DisplayErased(t: Term, n: nat, erase: Byte)
    requires Ok(t) && t.state == 0 && n < W
    ensures var r := Run(t, Control(n, 74), erase);
            && r.x == t.x && r.y == t.y && r.state == 0
            && forall col, row | 0 <= col < COLS && 0 <= row < ROWS ::
                 CellAt(r, col, row) == if n == 2 || (n == 0 && !BeforeCursor(t, col, row)) || (n == 1 && BeforeCursor(t, col, row))
                                        then BLANK else CellAt(t, col, row)
  {
    hide Run, Zeros;
    Controlled(t, n, 74, erase);
  }

  // ESC [ n K does the same within the cursor's row.
  lemma LineErased(t: Term, n: nat, erase: Byte)
    requires Ok(t) && t.state == 0 && n < W
    ensures var r := Run(t, Control(n, 75), erase);
            && r.x == t.x && r.y == t.y && r.state == 0
            && forall col, row | 0 <= col < COLS && 0 <= row < ROWS ::
                 CellAt(r, col, row) ==
                   if row == t.y && (n == 2 || (n == 0 && col >= t.x) || (n == 1 && col < t.x)) then BLANK else CellAt(t, col, row)
  {
    hide Run, Zeros;
    Controlled(t, n, 75, erase);
  }

  // Where a control sequence sends the cursor: A to D and their synonyms by so
  // many rows or columns, E and F to the start of a row, G and d to a column or
  // row counted from one.
  function Target(t: Term, n: nat, c: Byte): (int, int)
    requires c in {65, 66, 67, 68, 69, 70, 71, 96, 97, 100, 101}
  {
    var x, y, many, place := t.x, t.y, if n == 0 then 1 else n, if n == 0 then 0 else n - 1;
    if c == 65 then (x, y - many)
    else if c == 66 || c == 101 then (x, y + many)
    else if c == 67 || c == 97 then (x + many, y)
    else if c == 68 then (x - many, y)
    else if c == 69 then (0, y + many)
    else if c == 70 then (0, y - many)
    else if c == 100 then (x, place)
    else (place, y)
  }

  // The cursor goes to the target, taken modulo 2^32, when that is on the screen
  // (column 96 counts as such) and stays otherwise; no character changes.
  lemma CursorMoves(t: Term, n: nat, c: Byte, erase: Byte)
    requires Ok(t) && t.state == 0 && n < W && c in {65, 66, 67, 68, 69, 70, 71, 96, 97, 100, 101}
    ensures var r, p := Run(t, Control(n, c), erase), Target(t, n, c);
            && r.frame == t.frame && r.state == 0 && r.top == t.top && r.bottom == t.bottom
            && if p.0 % W <= COLS && p.1 % W < ROWS then r.x == p.0 % W && r.y == p.1 % W else r.x == t.x && r.y == t.y
  {
    hide Run, Zeros, Command;
    Controlled(t, n, c, erase);
    var u := t.(state := 0, par := Zeros()[0 := n], npar := 0, ques := false);
    CommandMoves(u, c);
    SmallWrap(t.x);
    SmallWrap(t.y);
  }

  lemma SmallWrap(v: nat)
    ensures v < W ==> v % W == v == Wrap(v)
  {
  }

  lemma CommandMoves(u: Term, c: Byte)
    requires Ok(u) && c in {65, 66, 67, 68, 69, 70, 71, 96, 97, 100, 101}
    ensures var p, r := Target(u, u.par[0], c), Command(u, c);
            && r.frame == u.frame && r.state == u.state && r.top == u.top && r.bottom == u.bottom
            && if Wrap(p.0) <= COLS && Wrap(p.1) < ROWS then r.x == Wrap(p.0) && r.y == Wrap(p.1) else r.x == u.x && r.y == u.y
  {
    hide Wrap;
    SmallWrap(u.x);
    SmallWrap(u.y);
    SmallWrap(0);
    SmallWrap(Less(u.par[0]));
  }

  // ---- characters and lines taken out and put in ----

  // A count argument: zero counts as one, and no more than the screen has.
  function Count(n: nat, most: nat): nat {
    if n == 0 then 1 else if n > most then most else n
  }

  lemma ClosedCell(u: Term, col: nat, row: nat)
    requires Ok(u) && u.x < COLS && col < COLS && row < ROWS
    ensures CellAt(u.(frame := Closed(u.frame, u.pos, COLS - u.x)), col, row) ==
              if row != u.y || col < u.x then CellAt(u, col, row) else if col + 1 < COLS then CellAt(u, col + 1, row) else BLANK
  {
    var i, r := COLS * row + col, Closed(u.frame, u.pos, COLS - u.x);
    RowsApart(u, col, row);
    assert r[i] == if u.pos <= i < u.pos + (COLS - u.x) - 1 then u.frame[i + 1] else if i == u.pos + (COLS - u.x) - 1 then BLANK else u.frame[i];
  }

  // An offset is in the cursor's row from its column on exactly when the place is.
  lemma RowsApart(u: Term, col: nat, row: nat)
    requires Ok(u) && col < COLS && row < ROWS
    ensures u.pos <= COLS * row + col < u.pos + (COLS - u.x) <==> row == u.y && u.x <= col
    ensures row == u.y ==> COLS * row + col == u.pos + col - u.x
  {
    if row < u.y {
      assert COLS * row + COLS <= COLS * u.y;
    } else if row > u.y {
      assert COLS * u.y + COLS <= COLS * row;
    }
  }

  lemma OpenedCell(u: Term, col: nat, row: nat)
    requires Ok(u) && col < COLS && row < ROWS
    ensures CellAt(u.(frame := Opened(u.frame, u.pos, COLS - u.x)), col, row) ==
              if row != u.y || col < u.x then CellAt(u, col, row) else if col == u.x then BLANK else CellAt(u, col - 1, row)
  {
    var i, r := COLS * row + col, Opened(u.frame, u.pos, COLS - u.x);
    RowsApart(u, col, row);
    assert r[i] == if u.pos == i < u.pos + (COLS - u.x) then BLANK else if u.pos < i < u.pos + (COLS - u.x) then u.frame[i - 1] else u.frame[i];
  }

  lemma {:induction false} DeletedAt(t: Term, k: nat, col: nat, row: nat)
    requires Ok(t) && t.x < COLS && col < COLS && row < ROWS
    ensures CellAt(DeleteChars(t, k), col, row) ==
              if row != t.y || col < t.x then CellAt(t, col, row) else if col + k < COLS then CellAt(t, col + k, row) else BLANK
    decreases k
  {
    hide Closed;
    if k > 0 {
      DeletedAt(t, k - 1, col, row);
      if col + 1 < COLS { DeletedAt(t, k - 1, col + 1, row); }
      var u := DeleteChars(t, k - 1);
      ClosedCell(u, col, row);
      assert DeleteChars(t, k) == u.(frame := Closed(u.frame, u.pos, COLS - u.x));
    }
  }

  // ESC [ n P takes n characters out of the row: what stands right of them moves
  // left and blanks follow.
  lemma CharactersDeleted(t: Term, n: nat, erase: Byte, col: nat, row: nat)
    requires Ok(t) && t.state == 0 && n < W && t.x < COLS && col < COLS && row < ROWS
    ensures var r, k := Run(t, Control(n, 80), erase), Count(n, COLS);
            && r.x == t.x && r.y == t.y
            && CellAt(r, col, row) ==
                   if row != t.y || col < t.x then CellAt(t, col, row) else if col + k < COLS then CellAt(t, col + k, row) else BLANK
  {
    hide Run, Zeros, DeleteChars;
    Controlled(t, n, 80, erase);
    var u := t.(state := 0, par := Zeros()[0 := n], npar := 0, ques := false);
    var r, k := Run(t, Control(n, 80), erase), Count(n, COLS);
    assert r == DeleteChars(u, k);
    DeletedAt(u, k, col, row);
  }

  lemma {:induction false} OpenedAt(t: Term, k: nat, col: nat, row: nat)
    requires Ok(t) && col < COLS && row < ROWS
    ensures CellAt(InsertChars(t, k), col, row) ==
              if row != t.y || col < t.x then CellAt(t, col, row) else if col < t.x + k then BLANK else CellAt(t, col - k, row)
    decreases k
  {
    hide Opened;
    if k > 0 {
      OpenedAt(t, k - 1, col, row);
      if col > t.x { OpenedAt(t, k - 1, col - 1, row); }
      var u := InsertChars(t, k - 1);
      OpenedCell(u, col, row);
      assert InsertChars(t, k) == u.(frame := Opened(u.frame, u.pos, COLS - u.x));
    }
  }

  // ESC [ n @ puts n blanks into the row: what stood there moves right.
  lemma CharactersInserted(t: Term, n: nat, erase: Byte, col: nat, row: nat)
    requires Ok(t) && t.state == 0 && n < W && col < COLS && row < ROWS
    ensures var r, k := Run(t, Control(n, 64), erase), Count(n, COLS);
            && r.x == t.x && r.y == t.y
            && CellAt(r, col, row) ==
                   if row != t.y || col < t.x then CellAt(t, col, row) else if col < t.x + k then BLANK else CellAt(t, col - k, row)
  {
    hide Run, Zeros, InsertChars;
    Controlled(t, n, 64, erase);
    var u := t.(state := 0, par := Zeros()[0 := n], npar := 0, ques := false);
    var r, k := Run(t, Control(n, 64), erase), Count(n, COLS);
    assert r == InsertChars(u, k);
    OpenedAt(u, k, col, row);
  }

  lemma {:induction false} LinesUp(t: Term, k: nat, col: nat, row: nat)
    requires Ok(t) && col < COLS && row < ROWS
    ensures CellAt(DeleteLines(t, k), col, row) ==
              if row < t.y then CellAt(t, col, row) else if row + k < ROWS then CellAt(t, col, row + k) else BLANK
    decreases k
  {
    hide Upped;
    if k > 0 {
      LinesUp(t, k - 1, col, row);
      if row + 1 < ROWS { LinesUp(t, k - 1, col, row + 1); }
      var u := DeleteLines(t, k - 1);
      var f := Upped(u.frame, u.y, ROWS);
      assert DeleteLines(t, k).frame == f && f[COLS * row + col] == UppedAt(u.frame, u.y, ROWS, COLS * row + col);
    }
  }

  // ESC [ n M takes out n lines from the cursor's on: the lines below move up and
  // blank ones follow.
  lemma LinesDeleted(t: Term, n: nat, erase: Byte, col: nat, row: nat)
    requires Ok(t) && t.state == 0 && n < W && col < COLS && row < ROWS
    ensures var r, k := Run(t, Control(n, 77), erase), Count(n, ROWS);
            && r.x == t.x && r.y == t.y
            && CellAt(r, col, row) ==
                   if row < t.y then CellAt(t, col, row) else if row + k < ROWS then CellAt(t, col, row + k) else BLANK
  {
    hide Run, Zeros, DeleteLines;
    Controlled(t, n, 77, erase);
    var u := t.(state := 0, par := Zeros()[0 := n], npar := 0, ques := false);
    var r, k := Run(t, Control(n, 77), erase), Count(n, ROWS);
    assert r == DeleteLines(u, k);
    LinesUp(u, k, col, row);
  }

  lemma {:induction false} LinesDown(t: Term, k: nat, col: nat, row: nat)
    requires Ok(t) && col < COLS && row < ROWS
    ensures CellAt(InsertLines(t, k), col, row) ==
              if row == 0 && k > 0 then BLANK
              else if row < t.y then CellAt(t, col, row)
              else if t.y + k <= row then CellAt(t, col, row - k)
              else if t.y == 0 then BLANK
              else CellAt(t, col, t.y)
    decreases k
  {
    hide Downed;
    if k > 0 {
      LinesDown(t, k - 1, col, row);
      if row > 0 { LinesDown(t, k - 1, col, row - 1); }
      var u := InsertLines(t, k - 1);
      var f := Downed(u.frame, u.y, ROWS);
      assert InsertLines(t, k).frame == f && f[COLS * row + col] == DownedAt(u.frame, u.y, ROWS, COLS * row + col);
    }
  }

  // ESC [ n L moves the lines from the cursor's on down by n; the lines left
  // there are blank only at the top of the screen, and copies of the cursor's
  // line elsewhere, the screen's first line being blanked instead.
  lemma LinesInserted(t: Term, n: nat, erase: Byte, col: nat, row: nat)
    requires Ok(t) && t.state == 0 && n < W && col < COLS && row < ROWS
    ensures var r, k := Run(t, Control(n, 76), erase), Count(n, ROWS);
            && r.x == t.x && r.y == t.y
            && CellAt(r, col, row) ==
                   if row == 0 then BLANK
                   else if row < t.y then CellAt(t, col, row)
                   else if t.y + k <= row then CellAt(t, col, row - k)
                   else if t.y == 0 then BLANK
                   else CellAt(t, col, t.y)
  {
    hide Run, Zeros, InsertLines;
    Controlled(t, n, 76, erase);
    var u := t.(state := 0, par := Zeros()[0 := n], npar := 0, ques := false);
    var r, k := Run(t, Control(n, 76), erase), Count(n, ROWS);
    assert r == InsertLines(u, k);
    LinesDown(u, k, col, row);
  }

  // A cursor saved with ESC [ s is back after ESC [ u, whatever was written in
  // between by sequences that save none.
  lemma CursorComesBack(t: Term, u: Term, erase: Byte)
    requires Ok(t) && t.state == 0 && Ok(u) && u.state == 0
    requires var s := Run(t, [27, 91, 115], erase); u.savedX == s.savedX && u.savedY == s.savedY
    ensures Run(t, [27, 91, 115], erase).frame == t.frame
    ensures var r := Run(u, [27, 91, 117], erase); r.x == t.x && r.y == t.y && r.frame == u.frame
  {
    hide Run, Zeros;
    Bare(t, 115, erase);
    Bare(u, 117, erase);
  }

  // A control sequence without a number.
  lemma Bare(t: Term, c: Byte, erase: Byte)
    requires Ok(t) && t.state == 0 && c >= 64
    ensures Run(t, [27, 91, c], erase) == Command(t.(state := 0, par := Zeros(), npar := 0, ques := false), c)
  {
    hide Run, Command, Zeros;
    Introduced(t, erase);
    assert [27, 91] + [c] == [27, 91, c];
    RunThen(t, [27, 91], [c], erase);
    OneByte(t.(state := 2), c, erase);
  }

  // ---- the console itself ----

  class Screen {
    const frame: array<Byte>
    var pos: int
    var x: Word
    var y: Word
    var top: Word
    var bottom: Word
    var state: nat
    var npar: nat
    var par: seq<Word>
    var ques: bool
    var attr: Byte
    var savedX: Word
    var savedY: Word

    ghost function Now(): Term
      reads this, frame
    {
      Term(frame[..], pos, x, y, top, bottom, state, npar, par, ques, attr, savedX, savedY)
    }

    // con_init on a frame buffer of the right size.
    constructor (buffer: array<Byte>)
      requires buffer.Length == CELLS
      ensures frame == buffer && Ok(Now()) && Now().state == 0 && pos == 0
    {
      frame := buffer;
      pos, x, y, top, bottom := 0, 0, 0, 0, ROWS;
      state, npar, par, ques, attr := 0, 0, seq(NPAR, _ => 0), false, 0x07;
      savedX, savedY := 0, 0;
    }

    method GotoXY(newX: Word, newY: Word)
      requires Ok(Now())
      modifies this
      ensures Now() == GoTo(old(Now()), newX, newY)
    {
      if newX > COLS {
        return;
      }
      if newY >= ROWS {
        return;
      }
      x := newX;
      y := newY;
      pos := y * COLS + x;
    }

    // count bytes moved towards the front, from `from` to `into`.
    method CopyDown(into: nat, from: nat, count: nat)
      requires into <= from && from + count <= frame.Length
      modifies frame
      ensures forall i :: 0 <= i < frame.Length ==> frame[i] == if into <= i < into + count then old(frame[i + (from - into)]) else old(frame[i])
    {
      var i := 0;
      while i < count
        invariant 0 <= i <= count
        invariant forall k :: 0 <= k < frame.Length ==> frame[k] == if into <= k < into + i then old(frame[k + (from - into)]) else old(frame[k])
      {
        frame[into + i] := frame[from + i];
        i := i + 1;
      }
    }

    method CopyUp(into: nat, from: nat, count: nat)
      requires from <= into && into + count <= frame.Length
      modifies frame
      ensures forall i :: 0 <= i < frame.Length ==> frame[i] == if into <= i < into + count then old(frame[i - (into - from)]) else old(frame[i])
    {
      var i := count;
      while i > 0
        invariant 0 <= i <= count
        invariant forall k :: 0 <= k < frame.Length ==> frame[k] == if into + i <= k < into + count then old(frame[k - (into - from)]) else old(frame[k])
      {
        i := i - 1;
        frame[into + i] := frame[from + i];
      }
    }

    method Fill(start: nat, count: nat)
      requires start + count <= frame.Length
      modifies frame
      ensures frame[..] == Erased(old(frame[..]), start, count)
    {
      var i := 0;
      while i < count
        invariant 0 <= i <= count
        invariant forall k :: 0 <= k < frame.Length ==> frame[k] == if start <= k < start + i then BLANK else old(frame[k])
      {
        frame[start + i] := BLANK;
        i := i + 1;
      }
    }

    method ScrUp()
      requires frame.Length == CELLS && top < bottom <= ROWS
      modifies frame
      ensures frame[..] == Upped(old(frame[..]), top, bottom)
    {
      CopyDown(COLS * top, COLS * (top + 1), (bottom - top - 1) * COLS);
      Fill(COLS * (bottom - 1), COLS);
    }

    method ScrDown()
      requires frame.Length == CELLS && top < bottom <= ROWS
      modifies frame
      ensures frame[..] == Downed(old(frame[..]), top, bottom)
    {
      CopyUp(COLS * (top + 1), COLS * top, (bottom - top - 1) * COLS);
      Fill(0, COLS);
    }

    method Lf()
      requires Ok(Now().(pos := COLS * y, x := 0)) && pos == COLS * y + x
      modifies this, frame
      ensures Now() == LineFeed(old(Now()))
    {
      pos := pos - x;
      x := 0;
      if y + 1 < bottom {
        y := y + 1;
        pos := pos + COLS;
        return;
      }
      ScrUp();
    }

    method Ri()
      requires Ok(Now())
      modifies this, frame
      ensures Now() == ReverseFeed(old(Now()))
    {
      if y > top {
        y := y - 1;
        pos := pos - COLS;
        return;
      }
      ScrDown();
    }

    method Del()
      requires Ok(Now())
      modifies this, frame
      ensures Now() == Delete(old(Now()))
    {
      if x != 0 {
        pos := pos - 1;
        x := x - 1;
        frame[pos] := BLANK;
      }
    }

    method CsiJ(p: Word)
      requires Ok(Now())
      modifies frame
      ensures Now() == EraseDisplay(old(Now()), p)
    {
      var count, start;
      if p == 0 {
        count, start := CELLS - pos, pos;
      } else if p == 1 {
        count, start := pos, 0;
      } else if p == 2 {
        count, start := COLS * ROWS, 0;
      } else {
        return;
      }
      Fill(start, count);
    }

    method CsiK(p: Word)
      requires Ok(Now())
      modifies frame
      ensures Now() == EraseLine(old(Now()), p)
    {
      var count, start;
      if p == 0 {
        if x >= COLS {
          return;
        }
        count, start := COLS - x, pos;
      } else if p == 1 {
        start := pos - x;
        count := if x < COLS then x else COLS;
      } else if p == 2 {
        count, start := COLS, pos - x;
      } else {
        return;
      }
      Fill(start, count);
    }

    method CsiAttributes()
      requires Ok(Now())
      modifies this`attr
      ensures Now() == old(Now()).(attr := Attributes(par, npar + 1, old(attr)))
    {
      var i := 0;
      while i <= npar
        modifies this`attr
        invariant 0 <= i <= npar + 1 && attr == Attributes(par, i, old(attr))
      {
        if par[i] == 0 {
          attr := 0x07;
        } else if par[i] == 1 {
          attr := 0x0f;
        } else if par[i] == 4 {
          attr := 0x0f;
        } else if par[i] == 7 {
          attr := 0x70;
        } else if par[i] == 27 {
          attr := 0x07;
        }
        i := i + 1;
      }
    }

    method InsertChar()
      requires Ok(Now())
      modifies frame
      ensures frame[..] == Opened(old(frame[..]), pos, COLS - x)
    {
      var i, p, held := x, pos, BLANK;
      while i < COLS
        invariant x <= i <= COLS && p == pos + (i - x)
        invariant held == if i == x then BLANK else old(frame[p - 1])
        invariant forall k :: 0 <= k < frame.Length ==> frame[k] == if pos == k < p then BLANK else if pos < k < p then old(frame[k - 1]) else old(frame[k])
      {
        var tmp := frame[p];
        frame[p] := held;
        held := tmp;
        p := p + 1;
        i := i + 1;
      }
    }

    method DeleteChar()
      requires Ok(Now())
      modifies frame
      ensures frame[..] == if x >= COLS then old(frame[..]) else Closed(old(frame[..]), pos, COLS - x)
    {
      if x >= COLS {
        return;
      }
      var p, i := pos, x + 1;
      while i < COLS
        invariant x + 1 <= i <= COLS && p == pos + (i - x - 1)
        invariant forall k :: 0 <= k < frame.Length ==> frame[k] == if pos <= k < p then old(frame[k + 1]) else old(frame[k])
      {
        frame[p] := frame[p + 1];
        p := p + 1;
        i := i + 1;
      }
      frame[p] := BLANK;
    }

    method InsertLine()
      requires Ok(Now())
      modifies this, frame
      ensures Now() == old(Now()).(frame := Downed(old(frame[..]), old(y), ROWS))
    {
      var oldTop, oldBottom := top, bottom;
      top := y;
      bottom := ROWS;
      ScrDown();
      top := oldTop;
      bottom := oldBottom;
    }

    method DeleteLine()
      requires Ok(Now())
      modifies this, frame
      ensures Now() == old(Now()).(frame := Upped(old(frame[..]), old(y), ROWS))
    {
      var oldTop, oldBottom := top, bottom;
      top := y;
      bottom := ROWS;
      ScrUp();
      top := oldTop;
      bottom := oldBottom;
    }

    method Again(c: Byte)
      requires Ok(Now())
      modifies this, frame
      ensures Now() == OnceMore(old(Now()), c)
    {
      if c == 64 {
        InsertChar();
      } else if c == 76 {
        InsertLine();
      } else if c == 77 {
        DeleteLine();
      } else {
        DeleteChar();
      }
    }

    // csi_at, csi_L, csi_P and csi_M: one operation, repeated.
    method CsiRepeat(c: Byte, nr: Word)
      requires Ok(Now())
      modifies this, frame
      ensures Now() == Repeated(old(Now()), c, Times(nr, if c == 64 || c == 80 then COLS else ROWS))
    {
      hide Ok, OnceMore, Repeated, Now;
      var n, k := Times(nr, if c == 64 || c == 80 then COLS else ROWS), 0;
      RepeatedOnce(Now(), c, 0);
      while k < n
        invariant 0 <= k <= n && Ok(Now()) && Now() == Repeated(old(Now()), c, k)
      {
        RepeatedOnce(old(Now()), c, k);
        Again(c);
        k := k + 1;
      }
    }

    method SaveCur()
      modifies this
      ensures Now() == Save(old(Now()))
    {
      savedX := x;
      savedY := y;
    }

    method PrintChar(c: Byte)
      requires Ok(Now())
      modifies this, frame
      ensures Now() == Print(old(Now()), c)
    {
      hide LineFeed;
      if x >= COLS {
        x := x - COLS;
        pos := pos - COLS;
        Lf();
      }
      frame[pos] := c;
      pos := pos + 1;
      x := x + 1;
    }

    method TabStop()
      requires Ok(Now())
      modifies this, frame
      ensures Now() == Tab(old(Now()))
    {
      var n := 8 - x % 8;
      x := x + n;
      pos := pos + n;
      if x > COLS {
        x := x - COLS;
        pos := pos - COLS;
        Lf();
      }
    }

    method WriteGround(c: Byte, erase: Byte)
      requires Ok(Now())
      modifies this, frame
      ensures Now() == Ground(old(Now()), c, erase)
    {
      if 31 < c < 127 {
        PrintChar(c);
      } else if c == 27 {
        state := 1;
      } else if c == 10 || c == 11 || c == 12 {
        Lf();
      } else if c == 13 {
        pos := pos - x;
        x := 0;
      } else if Erases(c, erase) {
        Del();
      } else if c == 8 {
        if x != 0 {
          x := x - 1;
          pos := pos - 1;
        }
      } else if c == 9 {
        TabStop();
      }
    }

    method WriteEscape(c: Byte)
      requires Ok(Now())
      modifies this, frame
      ensures Now() == Escape(old(Now()), c)
    {
      state := 0;
      if c == 91 {
        state := 2;
      } else if c == 69 {
        GotoXY(0, Wrap(y + 1));
      } else if c == 77 {
        Ri();
      } else if c == 68 {
        Lf();
      } else if c == 90 {
      } else if x == 55 {
        SaveCur();
      } else if x == 56 {
        GotoXY(savedX, savedY);
      }
    }

    method AtLeastOne()
      requires |par| == NPAR
      modifies this`par
      ensures par == old(par)[0 := One(old(par)[0])]
    {
      if par[0] == 0 {
        par := par[0 := 1];
      }
    }

    method FromZero(k: nat)
      requires k < |par|
      modifies this`par
      ensures par == old(par)[k := Less(old(par)[k])]
    {
      if par[k] != 0 {
        par := par[k := par[k] - 1];
      }
    }

    method WriteMove(c: Byte)
      requires Ok(Now()) && c in MOVES
      modifies this
      ensures Now() == Command(old(Now()), c)
    {
      hide GoTo;
      if c == 71 || c == 96 {
        FromZero(0);
        GotoXY(par[0], y);
      } else if c == 100 {
        FromZero(0);
        GotoXY(x, par[0]);
      } else if c == 72 || c == 102 {
        FromZero(0);
        FromZero(1);
        GotoXY(par[1], par[0]);
      } else {
        AtLeastOne();
        if c == 65 {
          GotoXY(x, Wrap(y - par[0]));
        } else if c == 66 || c == 101 {
          GotoXY(x, Wrap(y + par[0]));
        } else if c == 67 || c == 97 {
          GotoXY(Wrap(x + par[0]), y);
        } else if c == 68 {
          GotoXY(Wrap(x - par[0]), y);
        } else if c == 69 {
          GotoXY(0, Wrap(y + par[0]));
        } else {
          GotoXY(0, Wrap(y - par[0]));
        }
      }
    }

    method WriteCommand(c: Byte)
      requires Ok(Now())
      modifies this, frame
      ensures Now() == Command(old(Now()), c)
    {
      hide GoTo, EraseDisplay, EraseLine, InsertChars, DeleteChars, InsertLines, DeleteLines;
      if c in MOVES {
        WriteMove(c);
      } else if c == 74 {
        CsiJ(par[0]);
      } else if c == 75 {
        CsiK(par[0]);
      } else if c == 76 || c == 77 || c == 80 || c == 64 {
        CsiRepeat(c, par[0]);
      } else if c == 109 {
        CsiAttributes();
      } else if c == 114 {
        FromZero(0);
        if par[1] == 0 {
          par := par[1 := ROWS];
        }
        if par[0] < par[1] && par[1] <= ROWS {
          top := par[0];
          bottom := par[1];
        }
      } else if c == 115 {
        SaveCur();
      } else if c == 117 {
        GotoXY(savedX, savedY);
      }
    }

    method WriteParams(c: Byte)
      requires Ok(Now()) && state == 3
      modifies this, frame
      ensures Now() == Params(old(Now()), c)
    {
      if c == 59 && npar < NPAR - 1 {
        npar := npar + 1;
      } else if 48 <= c <= 57 {
        par := par[npar := Wrap(10 * par[npar] + c - 48)];
      } else {
        state := 0;
        WriteCommand(c);
      }
    }

    method ClearParams()
      requires |par| == NPAR
      modifies this`npar, this`par
      ensures par == Zeros() && npar == 0
    {
      npar := 0;
      while npar < NPAR
        invariant 0 <= npar <= NPAR == |par| && forall i :: 0 <= i < npar ==> par[i] == 0
      {
        par := par[npar := 0];
        npar := npar + 1;
      }
      npar := 0;
    }

    method WriteByte(c: Byte, erase: Byte)
      requires Ok(Now())
      modifies this, frame
      ensures Now() == Step(old(Now()), c, erase)
    {
      hide Ground, Escape, Params;
      if state == 0 {
        WriteGround(c, erase);
      } else if state == 1 {
        WriteEscape(c);
      } else {
        if state == 2 {
          ClearParams();
          state := 3;
          ques := c == 63;
          if ques {
            return;
          }
        }
        WriteParams(c);
      }
    }

    // con_write: the queue's bytes, one after another.  Every access stays inside
    // the frame and the parameter array.
    method ConWrite(queue: seq<Byte>, erase: Byte)
      requires Ok(Now())
      modifies this, frame
      ensures Ok(Now()) && Now() == Run(old(Now()), queue, erase)
    {
      hide Step, Ok;
      var k := 0;
      assert queue[..0] == [];
      while k < |queue|
        invariant 0 <= k <= |queue| && Ok(Now()) && Now() == Run(old(Now()), queue[..k], erase)
      {
        WriteByte(queue[k], erase);
        assert queue[..k + 1][..k] == queue[..k];
        k := k + 1;
      }
      assert queue[..k] == queue;
    }
  }

  // The commands that only move the cursor.
  const MOVES: set<Byte> := {71, 96, 65, 66, 101, 67, 97, 68, 69, 70, 100, 72, 102}

  function OnceMore(t: Term, c: Byte): (r: Term)
    requires Ok(t)
    ensures Ok(r) && r == t.(frame := r.frame)
  {
    if c == 64 then t.(frame := Opened(t.frame, t.pos, COLS - t.x))
    else if c == 76 then t.(frame := Downed(t.frame, t.y, ROWS))
    else if c == 77 then t.(frame := Upped(t.frame, t.y, ROWS))
    else if t.x >= COLS then t else t.(frame := Closed(t.frame, t.pos, COLS - t.x))
  }

  function Repeated(t: Term, c: Byte, n: nat): (r: Term)
    requires Ok(t)
    ensures Ok(r) && r == t.(frame := r.frame)
  {
    if c == 64 then InsertChars(t, n) else if c == 76 then InsertLines(t, n)
    else if c == 77 then DeleteLines(t, n) else DeleteChars(t, n)
  }

  lemma RepeatedOnce(t: Term, c: Byte, n: nat)
    requires Ok(t)
    ensures Repeated(t, c, 0) == t && Repeated(t, c, n + 1) == OnceMore(Repeated(t, c, n), c)
  {
    hide Opened, Downed, Upped, Closed;
  }
}

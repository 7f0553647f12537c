/** The hex dump of src/zmq_util/hexdump.cc, and a reader that gets the bytes back. */
module HexDumps {
  import opened Counting
  import opened Options

  type Byte = x: int | 0 <= x < 256

  const INDEX_WIDTH := 8
  const ROW_WIDTH := 16
  const HALF_ROW_WIDTH := 8

  // ------------------------------------------------------------------- the pieces

  /** A hexadecimal digit as the stream prints it. */
  function HexDigit(d: nat): (c: char)
    requires d < 16
    ensures DigitOf(c) == Some(d) && c != ' ' && c != '\n'
  {
    if d < 10 then '0' + d as char else 'a' + (d - 10) as char
  }

  function DigitOf(c: char): Option<nat> {
    if '0' <= c <= '9' then Some(c as int - '0' as int)
    else if 'a' <= c <= 'f' then Some(c as int - 'a' as int + 10)
    else None
  }

  function HexByte(b: Byte): string {
    [HexDigit(b / 16), HexDigit(b % 16)]
  }

  /** `std::hex` with no width. */
  function HexNumber(n: nat): (s: string)
    ensures s != []
    ensures forall i :: 0 <= i < |s| ==> DigitOf(s[i]).Some?
  {
    if n < 16 then [HexDigit(n)] else HexNumber(n / 16) + [HexDigit(n % 16)]
  }

  /** `setw(index_width) << setfill('0')`: padded on the left, never cut. */
  function Index(i: nat): string {
    var s := HexNumber(i);
    if |s| < INDEX_WIDTH then Repeat('0', INDEX_WIDTH - |s|) + s else s
  }

  /** `std::isprint` in the C locale. */
  predicate IsPrint(b: Byte) {
    32 <= b <= 126
  }

  function Shown(b: Byte): (c: char)
    ensures c != '\n'
  {
    if IsPrint(b) then b as char else '.'
  }

  function AsciiText(data: seq<Byte>): string {
    if data == [] then [] else AsciiText(data[..|data| - 1]) + [Shown(data[|data| - 1])]
  }

  function HexText(data: seq<Byte>): string {
    if data == [] then []
    else
      HexText(data[..|data| - 1]) + (if |data| > 1 then [' '] else []) + HexByte(data[|data| - 1])
  }

  method Hex(data: seq<Byte>) returns (out: string)
    ensures out == HexText(data)
  {
    out := [];
    for i := 0 to |data|
      invariant out == HexText(data[..i])
    {
      assert data[..i + 1][..i] == data[..i];
      if i != 0 {
        out := out + [' '];
      }
      out := out + HexByte(data[i]);
    }
    assert data[..|data|] == data;
  }

  method Ascii(data: seq<Byte>) returns (out: string)
    ensures out == AsciiText(data)
  {
    out := [];
    for i := 0 to |data|
      invariant out == AsciiText(data[..i])
    {
      assert data[..i + 1][..i] == data[..i];
      out := out + [if IsPrint(data[i]) then data[i] as char else '.'];
    }
    assert data[..|data|] == data;
  }

  // ------------------------------------------------------- what a row looks like

  /** Eight cells of three characters: two digits and a space, or three spaces. */
  function Cells(data: seq<Byte>, n: nat): (s: string)
    ensures |s| == 3 * n
  {
    if n == 0 then []
    else Cells(data, n - 1) + (if n <= |data| then HexByte(data[n - 1]) + [' '] else "   ")
  }

  function FirstHalf(chunk: seq<Byte>): seq<Byte> {
    if |chunk| <= HALF_ROW_WIDTH then chunk else chunk[..HALF_ROW_WIDTH]
  }

  function SecondHalf(chunk: seq<Byte>): seq<Byte> {
    if |chunk| <= HALF_ROW_WIDTH then [] else chunk[HALF_ROW_WIDTH..]
  }

  function Concat(parts: seq<string>): string {
    if parts == [] then [] else Concat(parts[..|parts| - 1]) + parts[|parts| - 1]
  }

  /** A row from its index, its two half rows of cells and its text. */
  function Layout(index: string, a: string, b: string, text: string): string {
    Concat([index, "  ", a, " ", b, " ", "|", text, "|"])
  }

  function Row(i: nat, chunk: seq<Byte>): string {
    Layout(Index(i), Cells(FirstHalf(chunk), HALF_ROW_WIDTH), Cells(SecondHalf(chunk), HALF_ROW_WIDTH),
           AsciiText(chunk))
  }

  function RowCount(size: nat): nat {
    if size == 0 then 1 else (size + ROW_WIDTH - 1) / 16
  }

  /** The rows from byte i on, one to a line; no newline after the last. */
  function DumpFrom(data: seq<Byte>, i: nat): string
    requires i <= |data|
    decreases |data| - i
  {
    if |data| - i <= ROW_WIDTH then Row(i, data[i..])
    else Row(i, data[i..i + ROW_WIDTH]) + ("\n" + DumpFrom(data, i + ROW_WIDTH))
  }

  // ------------------------------------------- the row shapes the source writes out

  lemma {:induction false} CellsOfHex(data: seq<Byte>, n: nat)
    requires n == |data|
    ensures data != [] ==> Cells(data, n) == HexText(data) + " "
  {
    if n > 0 {
      var rest := data[..n - 1];
      CellsOfHex(rest, n - 1);
      CellsPrefix(data, rest, n - 1);
    }
  }

  lemma {:induction false} CellsPrefix(data: seq<Byte>, rest: seq<Byte>, n: nat)
    requires n <= |rest| <= |data| && rest == data[..|rest|]
    ensures Cells(data, n) == Cells(rest, n)
  {
    if n > 0 { CellsPrefix(data, rest, n - 1); }
  }

  lemma {:induction false} CellsPadded(data: seq<Byte>, n: nat)
    requires n >= |data|
    ensures Cells(data, n) == Cells(data, |data|) + Repeat(' ', 3 * (n - |data|))
  {
    if n > |data| {
      CellsPadded(data, n - 1);
      assert Repeat(' ', 3 * (n - 1 - |data|)) + "   " == Repeat(' ', 3 * (n - |data|));
    } else {
      assert Cells(data, n) + Repeat(' ', 0) == Cells(data, n);
    }
  }

  /** The empty row's and the partial rows' padding, and the full row's none, give the same
      layout. */
  lemma HalfRow(data: seq<Byte>)
    requires |data| <= HALF_ROW_WIDTH
    ensures data == [] ==> Cells(data, HALF_ROW_WIDTH) == Repeat(' ', 24)
    ensures data != [] ==>
              Cells(data, HALF_ROW_WIDTH) == HexText(data) + " " + Repeat(' ', 3 * (HALF_ROW_WIDTH - |data|))
  {
    CellsPadded(data, HALF_ROW_WIDTH);
    if data != [] { CellsOfHex(data, |data|); }
  }

  lemma SpaceCommutes(n: nat)
    ensures " " + Repeat(' ', n) == Repeat(' ', n) + " " == Repeat(' ', n + 1)
  {
  }

  lemma {:induction false} ConcatMore(parts: seq<string>, part: string)
    ensures Concat(parts + [part]) == Concat(parts) + part
  {
    assert (parts + [part])[..|parts|] == parts;
  }

  lemma LayoutIs(index: string, a: string, b: string, text: string)
    ensures Layout(index, a, b, text) == index + "  " + a + " " + b + " " + "|" + text + "|"
  {
    var front := [index, "  ", a, " ", b];
    FiveParts(index, a, b);
    ConcatMore(front, " ");
    ConcatMore(front + [" "], "|");
    ConcatMore(front + [" "] + ["|"], text);
    ConcatMore(front + [" "] + ["|"] + [text], "|");
    assert [index, "  ", a, " ", b, " ", "|", text, "|"] == front + [" "] + ["|"] + [text] + ["|"];
  }

  lemma FiveParts(index: string, a: string, b: string)
    ensures Concat([index, "  ", a, " ", b]) == index + "  " + a + " " + b
  {
    ConcatMore([], index);
    assert [] + [index] == [index] && Concat([]) + index == index;
    ConcatMore([index], "  ");
    ConcatMore([index] + ["  "], a);
    ConcatMore([index] + ["  "] + [a], " ");
    ConcatMore([index] + ["  "] + [a] + [" "], b);
    assert [index, "  ", a, " ", b] == [index] + ["  "] + [a] + [" "] + [b];
  }

  // ------------------------------------------------------------------- the method

  lemma Assoc(a: string, b: string, c: string)
    ensures a + (b + c) == a + b + c
  {
  }

  /** How the source closes a half row's digits, with two spaces, and how the layout does. */
  lemma TwoSpaces(h: string, s: string)
    ensures h + s + "  " == h + (s + " ") + " "
  {
    Assoc(h, s, " ");
    Assoc(h + s, " ", " ");
  }

  lemma SpacesBar(h: string)
    ensures h + "  |" == h + " " + " " + "|" && h + " |" == h + " " + "|"
  {
    Assoc(h, " ", " ");
    Assoc(h, "  ", "|");
    Assoc(h, " ", "|");
  }

  lemma FullShape(index: string, first: string, second: string, text: string)
    ensures index + "  " + first + "  " + second + "  |" + text + "|"
         == Layout(index, first + " ", second + " ", text)
  {
    LayoutIs(index, first + " ", second + " ", text);
    TwoSpaces(index + "  ", first);
    var h := index + "  " + (first + " ") + " ";
    SpacesBar(h + second);
    Assoc(h, second, " ");
  }

  lemma PartialSecondShape(index: string, first: string, second: string, n: nat, text: string)
    ensures index + "  " + first + "  " + second + Repeat(' ', n) + "  |" + text + "|"
         == Layout(index, first + " ", second + " " + Repeat(' ', n), text)
  {
    LayoutIs(index, first + " ", second + " " + Repeat(' ', n), text);
    TwoSpaces(index + "  ", first);
    var h := index + "  " + (first + " ") + " ";
    SpacesBar(h + second + Repeat(' ', n));
    SpacesLast(h, second, n);
  }

  /** Padding then a space, or a space then padding. */
  lemma SpacesLast(h: string, s: string, n: nat)
    ensures h + s + Repeat(' ', n) + " " == h + (s + " " + Repeat(' ', n))
  {
    SpaceCommutes(n);
    Assoc(h + s, Repeat(' ', n), " ");
    Assoc(s, " ", Repeat(' ', n));
    Assoc(h, s, " " + Repeat(' ', n));
  }

  lemma PartialFirstShape(index: string, first: string, n: nat, m: nat, text: string)
    ensures index + "  " + first + Repeat(' ', n) + [' '] + Repeat(' ', m) + "  |" + text + "|"
         == Layout(index, first + " " + Repeat(' ', n), Repeat(' ', m), text)
  {
    LayoutIs(index, first + " " + Repeat(' ', n), Repeat(' ', m), text);
    SpacesLast(index + "  ", first, n);
    var h := index + "  " + (first + " " + Repeat(' ', n));
    SpacesBar(h + Repeat(' ', m));
    SpacesLast(h, "", m);
    assert h + "" == h && "" + " " == " ";
    Assoc(h, " ", Repeat(' ', m));
  }

  lemma SpacesJoin(h: string, n: nat, m: nat)
    ensures h + Repeat(' ', n) + Repeat(' ', m) == h + Repeat(' ', n + m)
  {
    assert Repeat(' ', n) + Repeat(' ', m) == Repeat(' ', n + m);
    Assoc(h, Repeat(' ', n), Repeat(' ', m));
  }

  lemma EmptyShape(index: string, blank: string, n: nat)
    requires blank == Repeat(' ', n)
    ensures index + [' '] + blank + [' '] + blank + "  ||" == Layout(index, blank, blank, "")
  {
    LayoutIs(index, blank, blank, "");
    assert " " == Repeat(' ', 1) && "  " == Repeat(' ', 2);
    SpacesJoin(index, 1, n);
    SpacesJoin(index, 1 + n, 1);
    SpacesJoin(index, 2 + n, n);
    SpacesJoin(index, 2, n);
    SpacesJoin(index, 2 + n, 1);
    SpacesJoin(index, 3 + n, n);
    SpacesJoin(index, 3 + 2 * n, 1);
    SpacesJoin(index, 2 + 2 * n, 2);
    var h := index + Repeat(' ', 2 + 2 * n);
    Assoc(h, "  ", "||");
    Assoc(h + "  ", "|", "|");
    assert "  " + "||" == "  ||" && "|" + "|" == "||" && h + "  " + "|" + "" == h + "  " + "|";
  }

  lemma WholeHalf(data: seq<Byte>)
    requires |data| == HALF_ROW_WIDTH
    ensures Cells(data, HALF_ROW_WIDTH) == HexText(data) + " "
  {
    CellsOfHex(data, HALF_ROW_WIDTH);
  }

  method FullRow(i: nat, chunk: seq<Byte>) returns (out: string)
    requires |chunk| == ROW_WIDTH
    ensures out == Row(i, chunk)
  {
    var first := Hex(chunk[..HALF_ROW_WIDTH]);
    var second := Hex(chunk[HALF_ROW_WIDTH..]);
    var text := Ascii(chunk);
    out := Index(i) + "  " + first + "  " + second + "  |" + text + "|";
    WholeHalf(chunk[..HALF_ROW_WIDTH]);
    WholeHalf(chunk[HALF_ROW_WIDTH..]);
    FullShape(Index(i), first, second, text);
  }

  method PartialFirstHalf(i: nat, chunk: seq<Byte>) returns (out: string)
    requires 0 < |chunk| <= HALF_ROW_WIDTH
    ensures out == Row(i, chunk)
  {
    var first := Hex(chunk);
    var text := Ascii(chunk);
    out := Index(i) + "  " + first + Repeat(' ', (HALF_ROW_WIDTH - |chunk|) * 3) + [' ']
           + Repeat(' ', 24) + "  |" + text + "|";
    HalfRow(chunk);
    HalfRow([]);
    PartialFirstShape(Index(i), first, (HALF_ROW_WIDTH - |chunk|) * 3, 24, text);
  }

  method PartialSecondHalf(i: nat, chunk: seq<Byte>) returns (out: string)
    requires HALF_ROW_WIDTH < |chunk| <= ROW_WIDTH
    ensures out == Row(i, chunk)
  {
    var first := Hex(chunk[..HALF_ROW_WIDTH]);
    var second := Hex(chunk[HALF_ROW_WIDTH..]);
    var text := Ascii(chunk);
    out := Index(i) + "  " + first + "  " + second + Repeat(' ', (ROW_WIDTH - |chunk|) * 3) + "  |" + text + "|";
    WholeHalf(chunk[..HALF_ROW_WIDTH]);
    HalfRow(chunk[HALF_ROW_WIDTH..]);
    PartialSecondShape(Index(i), first, second, (ROW_WIDTH - |chunk|) * 3, text);
  }

  method EmptyRow() returns (out: string)
    ensures out == Row(0, [])
  {
    var blank := Repeat(' ', 24);
    out := Index(0) + [' '] + blank + [' '] + blank + "  ||";
    HalfRow([]);
    EmptyShape(Index(0), blank, 24);
  }

  /** The last row, of one to sixteen bytes. The source's `assert(false)` is the last branch. */
  method LastRow(i: nat, chunk: seq<Byte>) returns (out: string)
    requires 0 < |chunk| <= ROW_WIDTH
    ensures out == Row(i, chunk)
  {
    var numCharsLeft := |chunk|;
    if numCharsLeft <= HALF_ROW_WIDTH {
      out := PartialFirstHalf(i, chunk);
    } else if numCharsLeft <= ROW_WIDTH {
      out := PartialSecondHalf(i, chunk);
    } else {
      assert false;
    }
  }

  lemma StepOver(out: string, separator: string, row: string, rest: string)
    ensures out + (separator + (row + ("\n" + rest))) == out + separator + row + ("\n" + rest)
  {
  }

  /** Writes `data` out. */
  method HexDump(data: seq<Byte>) returns (out: string)
    ensures out == DumpFrom(data, 0)
  {
    if |data| == 0 {
      out := EmptyRow();
      return;
    }
    out := [];
    var i := 0;
    while i + ROW_WIDTH < |data|
      invariant i < |data|
      invariant DumpFrom(data, 0) == out + ((if i == 0 then "" else "\n") + DumpFrom(data, i))
      decreases |data| - i
    {
      ghost var start := out;
      if i != 0 {
        out := out + "\n";
      }
      var row := FullRow(i, data[i..i + ROW_WIDTH]);
      out := out + row;
      StepOver(start, if i == 0 then "" else "\n", row, DumpFrom(data, i + ROW_WIDTH));
      i := i + ROW_WIDTH;
    }
    var numCharsLeft := |data| - i;
    ghost var start := out;
    if numCharsLeft > 0 && i != 0 {
      out := out + "\n";
    }
    var row := LastRow(i, data[i..]);
    out := out + row;
    Assoc(start, if i == 0 then "" else "\n", row);
  }

  // ------------------------------------------------------------ reading a dump back

  /** Lines, split at each newline. */
  function Lines(s: string): (ls: seq<string>)
    ensures ls != []
  {
    if s == [] then [[]]
    else if s[0] == '\n' then [[]] + Lines(s[1..])
    else
      var ls := Lines(s[1..]);
      [[s[0]] + ls[0]] + ls[1..]
  }

  function FirstOf(c: char, s: string): (i: nat)
    ensures i <= |s|
  {
    if s == [] then 0 else if s[0] == c then 0 else 1 + FirstOf(c, s[1..])
  }

  /** How far after the index the first digit of byte j stands. */
  function CellOffset(j: nat): nat {
    2 + 3 * j + (if j < HALF_ROW_WIDTH then 0 else 1)
  }

  function ReadByte(s: string, at: nat): Option<Byte> {
    if at + 1 < |s| && DigitOf(s[at]).Some? && DigitOf(s[at + 1]).Some? then
      Some(16 * DigitOf(s[at]).value + DigitOf(s[at + 1]).value)
    else None
  }

  /** The cells of a row from number j on, up to the first blank one; `start` is where the
      index ends. */
  function ReadCells(row: string, start: nat, j: nat): seq<Byte>
    decreases ROW_WIDTH - j
  {
    if j >= ROW_WIDTH then []
    else
      match ReadByte(row, start + CellOffset(j))
      case None => []
      case Some(b) => [b] + ReadCells(row, start, j + 1)
  }

  function ReadRow(row: string): seq<Byte> {
    ReadCells(row, FirstOf(' ', row), 0)
  }

  function ReadLines(ls: seq<string>): seq<Byte> {
    if ls == [] then [] else ReadRow(ls[0]) + ReadLines(ls[1..])
  }

  function ReadDump(out: string): seq<Byte> {
    ReadLines(Lines(out))
  }

  lemma {:induction false} CellAt(data: seq<Byte>, n: nat, j: nat)
    requires j < n
    ensures j < |data| ==> Cells(data, n)[3 * j] == HexDigit(data[j] / 16)
    ensures j < |data| ==> Cells(data, n)[3 * j + 1] == HexDigit(data[j] % 16)
    ensures j >= |data| ==> Cells(data, n)[3 * j] == ' '
  {
    var last := if n <= |data| then HexByte(data[n - 1]) + [' '] else "   ";
    assert Cells(data, n) == Cells(data, n - 1) + last;
    if j < n - 1 { CellAt(data, n - 1, j); }
  }

  /** Where a character of a half row stands in the row. */
  lemma LayoutAt(index: string, a: string, b: string, text: string, k: nat)
    ensures k < |a| ==> |index| + 2 + k < |Layout(index, a, b, text)|
    ensures k < |a| ==> Layout(index, a, b, text)[|index| + 2 + k] == a[k]
    ensures k < |b| ==> |index| + |a| + 3 + k < |Layout(index, a, b, text)|
    ensures k < |b| ==> Layout(index, a, b, text)[|index| + |a| + 3 + k] == b[k]
  {
    LayoutIs(index, a, b, text);
  }

  /** The cell of one byte, or a blank one, inside a half row of the layout. */
  predicate CellHolds(row: string, at: nat, data: seq<Byte>, j: nat) {
    && at + 1 < |row|
    && (j < |data| ==> row[at] == HexDigit(data[j] / 16) && row[at + 1] == HexDigit(data[j] % 16))
    && (j >= |data| ==> row[at] == ' ')
  }

  lemma CellReads(row: string, at: nat, data: seq<Byte>, j: nat)
    requires CellHolds(row, at, data, j)
    ensures ReadByte(row, at) == if j < |data| then Some(data[j]) else None
  {
    assert DigitOf(' ') == None;
  }

  lemma LeftCell(index: string, left: seq<Byte>, b: string, text: string, j: nat)
    requires j < HALF_ROW_WIDTH
    ensures CellHolds(Layout(index, Cells(left, HALF_ROW_WIDTH), b, text), |index| + 2 + 3 * j, left, j)
  {
    var a := Cells(left, HALF_ROW_WIDTH);
    CellAt(left, HALF_ROW_WIDTH, j);
    LayoutAt(index, a, b, text, 3 * j);
    LayoutAt(index, a, b, text, 3 * j + 1);
  }

  lemma RightCell(index: string, a: string, right: seq<Byte>, text: string, j: nat)
    requires j < HALF_ROW_WIDTH
    ensures CellHolds(Layout(index, a, Cells(right, HALF_ROW_WIDTH), text), |index| + |a| + 3 + 3 * j, right, j)
  {
    var b := Cells(right, HALF_ROW_WIDTH);
    CellAt(right, HALF_ROW_WIDTH, j);
    LayoutAt(index, a, b, text, 3 * j);
    LayoutAt(index, a, b, text, 3 * j + 1);
  }

  lemma ReadByteBack(i: nat, chunk: seq<Byte>, j: nat)
    requires |chunk| <= ROW_WIDTH && j < ROW_WIDTH
    ensures ReadByte(Row(i, chunk), |Index(i)| + CellOffset(j)) == if j < |chunk| then Some(chunk[j]) else None
  {
    var left, right := FirstHalf(chunk), SecondHalf(chunk);
    if j < HALF_ROW_WIDTH {
      LeftCell(Index(i), left, Cells(right, HALF_ROW_WIDTH), AsciiText(chunk), j);
      CellReads(Row(i, chunk), |Index(i)| + CellOffset(j), left, j);
    } else {
      var k := j - HALF_ROW_WIDTH;
      RightCell(Index(i), Cells(left, HALF_ROW_WIDTH), right, AsciiText(chunk), k);
      CellReads(Row(i, chunk), |Index(i)| + CellOffset(j), right, k);
    }
  }

  lemma {:induction false} ReadCellsBack(row: string, start: nat, chunk: seq<Byte>, j: nat)
    requires j <= |chunk| <= ROW_WIDTH
    requires forall k: nat :: k < ROW_WIDTH ==>
               ReadByte(row, start + CellOffset(k)) == if k < |chunk| then Some(chunk[k]) else None
    ensures ReadCells(row, start, j) == chunk[j..]
    decreases |chunk| - j
  {
    if j < ROW_WIDTH {
      assert ReadByte(row, start + CellOffset(j)) == if j < |chunk| then Some(chunk[j]) else None;
      if j < |chunk| { ReadCellsBack(row, start, chunk, j + 1); }
    }
  }

  lemma IndexDigits(i: nat)
    ensures forall k :: 0 <= k < |Index(i)| ==> DigitOf(Index(i)[k]).Some?
  {
  }

  lemma {:induction false} FirstOfIs(c: char, s: string, k: nat)
    requires k < |s| && s[k] == c
    requires forall i :: 0 <= i < k ==> s[i] != c
    ensures FirstOf(c, s) == k
  {
    if k > 0 { FirstOfIs(c, s[1..], k - 1); }
  }

  lemma LayoutSpace(index: string, a: string, b: string, text: string)
    requires ' ' !in index
    ensures FirstOf(' ', Layout(index, a, b, text)) == |index|
  {
    LayoutIs(index, a, b, text);
    FirstOfIs(' ', Layout(index, a, b, text), |index|);
  }

  lemma ReadRowBack(i: nat, chunk: seq<Byte>)
    requires |chunk| <= ROW_WIDTH
    ensures ReadRow(Row(i, chunk)) == chunk
  {
    IndexDigits(i);
    assert DigitOf(' ') == None;
    LayoutSpace(Index(i), Cells(FirstHalf(chunk), HALF_ROW_WIDTH), Cells(SecondHalf(chunk), HALF_ROW_WIDTH),
                AsciiText(chunk));
    forall j: nat | j < ROW_WIDTH
      ensures ReadByte(Row(i, chunk), |Index(i)| + CellOffset(j)) == if j < |chunk| then Some(chunk[j]) else None
    {
      ReadByteBack(i, chunk, j);
    }
    ReadCellsBack(Row(i, chunk), |Index(i)|, chunk, 0);
  }

  lemma {:induction false} LinesOfOne(row: string)
    requires '\n' !in row
    ensures Lines(row) == [row]
  {
    if row != [] {
      LinesOfOne(row[1..]);
      assert row == [row[0]] + row[1..];
    }
  }

  lemma {:induction false} LinesFirst(row: string, rest: string)
    requires '\n' !in row
    ensures Lines(row + ("\n" + rest)) == [row] + Lines(rest)
  {
    if row == [] {
      assert row + ("\n" + rest) == "\n" + rest;
      assert ("\n" + rest)[1..] == rest;
    } else {
      LinesFirst(row[1..], rest);
      assert (row + ("\n" + rest))[1..] == row[1..] + ("\n" + rest);
      assert row == [row[0]] + row[1..];
    }
  }

  lemma {:induction false} CellsOneLine(data: seq<Byte>, n: nat)
    ensures '\n' !in Cells(data, n) && '|' !in Cells(data, n)
  {
    if n > 0 {
      CellsOneLine(data, n - 1);
      assert DigitOf('|') == None;
    }
  }

  lemma {:induction false} AsciiOneLine(data: seq<Byte>)
    ensures '\n' !in AsciiText(data)
  {
    if data != [] { AsciiOneLine(data[..|data| - 1]); }
  }

  lemma LayoutOneLine(index: string, a: string, b: string, text: string)
    requires '\n' !in index && '\n' !in a && '\n' !in b && '\n' !in text
    ensures '\n' !in Layout(index, a, b, text)
  {
    LayoutIs(index, a, b, text);
  }

  lemma RowOneLine(i: nat, chunk: seq<Byte>)
    ensures '\n' !in Row(i, chunk)
  {
    IndexDigits(i);
    CellsOneLine(FirstHalf(chunk), HALF_ROW_WIDTH);
    CellsOneLine(SecondHalf(chunk), HALF_ROW_WIDTH);
    AsciiOneLine(chunk);
    assert DigitOf('\n') == None;
    LayoutOneLine(Index(i), Cells(FirstHalf(chunk), HALF_ROW_WIDTH), Cells(SecondHalf(chunk), HALF_ROW_WIDTH),
                  AsciiText(chunk));
  }

  // ------------------------------------------------------------- the ASCII column

  function Pow16(k: nat): nat {
    if k == 0 then 1 else 16 * Pow16(k - 1)
  }

  lemma {:induction false} HexNumberLength(n: nat, k: nat)
    requires k >= 1
    ensures |HexNumber(n)| <= k <==> n < Pow16(k)
  {
    if n < 16 {
      if k > 1 { HexNumberLength(0, k - 1); }
    } else if k > 1 {
      HexNumberLength(n / 16, k - 1);
    } else {
      assert Pow16(1) == 16;
    }
  }

  lemma LayoutBar(index: string, a: string, b: string, text: string)
    requires '|' !in index && '|' !in a && '|' !in b
    ensures FirstOf('|', Layout(index, a, b, text)) == |index| + |a| + |b| + 4
  {
    LayoutIs(index, a, b, text);
    var front := index + "  " + a + " " + b + " ";
    assert '|' !in front;
    assert Layout(index, a, b, text)[..|front|] == front;
    FirstOfIs('|', Layout(index, a, b, text), |front|);
  }

  /** The first bar of a row, after which its ASCII column starts. */
  lemma BarPosition(i: nat, chunk: seq<Byte>)
    ensures FirstOf('|', Row(i, chunk)) == |Index(i)| + 52
  {
    IndexDigits(i);
    assert DigitOf('|') == None;
    CellsOneLine(FirstHalf(chunk), HALF_ROW_WIDTH);
    CellsOneLine(SecondHalf(chunk), HALF_ROW_WIDTH);
    LayoutBar(Index(i), Cells(FirstHalf(chunk), HALF_ROW_WIDTH), Cells(SecondHalf(chunk), HALF_ROW_WIDTH),
              AsciiText(chunk));
  }

  const MAX_INDEX := 0x1_0000_0000

  predicate Aligned(rows: seq<string>) {
    forall r :: 0 <= r < |rows| ==> FirstOf('|', rows[r]) == 60
  }

  lemma AlignedFirst(row: string, rest: seq<string>)
    ensures Aligned([row] + rest) <==> FirstOf('|', row) == 60 && Aligned(rest)
  {
    assert ([row] + rest)[0] == row;
    forall r | 0 <= r < |rest| ensures ([row] + rest)[r + 1] == rest[r] {}
    if Aligned([row] + rest) {
      forall r | 0 <= r < |rest| ensures FirstOf('|', rest[r]) == 60 {
        assert FirstOf('|', ([row] + rest)[r + 1]) == 60;
      }
    }
  }

  lemma RowAligned(i: nat, chunk: seq<Byte>)
    ensures FirstOf('|', Row(i, chunk)) == 60 <==> i < MAX_INDEX
  {
    BarPosition(i, chunk);
    HexNumberLength(i, INDEX_WIDTH);
    assert Pow16(8) == MAX_INDEX;
  }

  // ----------------------------------------------------------------- the whole dump

  /** The bytes of the row that starts at byte i. */
  function ChunkAt(data: seq<Byte>, i: nat): seq<Byte>
    requires i <= |data|
  {
    if |data| - i <= ROW_WIDTH then data[i..] else data[i..i + ROW_WIDTH]
  }

  /** The index and the bytes of a row. */
  datatype Line = Line(index: nat, chunk: seq<Byte>)

  function LinesFrom(data: seq<Byte>, i: nat): seq<Line>
    requires i <= |data|
    decreases |data| - i
  {
    if |data| - i <= ROW_WIDTH then [Line(i, ChunkAt(data, i))]
    else [Line(i, ChunkAt(data, i))] + LinesFrom(data, i + ROW_WIDTH)
  }

  function Printed(lines: seq<Line>): (rows: seq<string>)
    ensures |rows| == |lines|
  {
    if lines == [] then [] else [Row(lines[0].index, lines[0].chunk)] + Printed(lines[1..])
  }

  lemma PrintedFirst(line: Line, rest: seq<Line>)
    ensures Printed([line] + rest) == [Row(line.index, line.chunk)] + Printed(rest)
  {
    assert ([line] + rest)[1..] == rest;
  }

  /** The lines of a dump are its rows. */
  lemma {:induction false} LinesAreRows(data: seq<Byte>, i: nat)
    requires i <= |data|
    ensures Lines(DumpFrom(data, i)) == Printed(LinesFrom(data, i))
    decreases |data| - i
  {
    var line := Line(i, ChunkAt(data, i));
    RowOneLine(i, line.chunk);
    if |data| - i <= ROW_WIDTH {
      LinesOfOne(Row(i, line.chunk));
      PrintedFirst(line, []);
      assert [line] + [] == [line];
    } else {
      LinesFirst(Row(i, line.chunk), DumpFrom(data, i + ROW_WIDTH));
      LinesAreRows(data, i + ROW_WIDTH);
      PrintedFirst(line, LinesFrom(data, i + ROW_WIDTH));
    }
  }

  function Bytes(lines: seq<Line>): seq<Byte> {
    if lines == [] then [] else lines[0].chunk + Bytes(lines[1..])
  }

  lemma {:induction false} ReadPrinted(lines: seq<Line>)
    requires forall l :: l in lines ==> |l.chunk| <= ROW_WIDTH
    ensures ReadLines(Printed(lines)) == Bytes(lines)
  {
    if lines != [] {
      ReadRowBack(lines[0].index, lines[0].chunk);
      ReadPrinted(lines[1..]);
      ReadStep(Row(lines[0].index, lines[0].chunk), Printed(lines[1..]));
    }
  }

  lemma ReadStep(row: string, rest: seq<string>)
    ensures ReadLines([row] + rest) == ReadRow(row) + ReadLines(rest)
  {
    assert ([row] + rest)[1..] == rest;
  }

  lemma {:induction false} AlignedPrinted(lines: seq<Line>)
    ensures Aligned(Printed(lines)) <==> forall l :: l in lines ==> l.index < MAX_INDEX
  {
    if lines != [] {
      AlignedPrinted(lines[1..]);
      RowAligned(lines[0].index, lines[0].chunk);
      AlignedFirst(Row(lines[0].index, lines[0].chunk), Printed(lines[1..]));
    }
  }

  /** The rows hold all the bytes in order, up to sixteen to a row. */
  lemma {:induction false} LinesHold(data: seq<Byte>, i: nat)
    requires i <= |data|
    ensures |LinesFrom(data, i)| == RowCount(|data| - i)
    ensures Bytes(LinesFrom(data, i)) == data[i..]
    ensures forall l :: l in LinesFrom(data, i) ==> |l.chunk| <= ROW_WIDTH
    decreases |data| - i
  {
    if |data| - i > ROW_WIDTH {
      LinesHold(data, i + ROW_WIDTH);
      assert data[i..] == ChunkAt(data, i) + data[i + ROW_WIDTH..];
      assert LinesFrom(data, i)[1..] == LinesFrom(data, i + ROW_WIDTH);
    }
  }

  /** Their indices are multiples of sixteen. */
  lemma {:induction false} LinesStart(data: seq<Byte>, i: nat, r: nat)
    requires i <= |data| && i == 16 * r
    ensures (forall l :: l in LinesFrom(data, i) ==> l.index < MAX_INDEX) <==> i < MAX_INDEX && |data| <= MAX_INDEX
    decreases |data| - i
  {
    assert LinesFrom(data, i)[0] == Line(i, ChunkAt(data, i));
    if |data| - i > ROW_WIDTH {
      var rest := LinesFrom(data, i + ROW_WIDTH);
      LinesStart(data, i + ROW_WIDTH, r + 1);
      assert LinesFrom(data, i)[1..] == rest;
      assert forall l :: l in LinesFrom(data, i) <==> l == Line(i, ChunkAt(data, i)) || l in rest;
    }
  }

  /** Nothing is lost: reading the hexadecimal columns back gives exactly the bytes. There is
      one row for every sixteen bytes begun, and one for no bytes at all. */
  lemma DumpIsRecoverable(data: seq<Byte>)
    ensures |Lines(DumpFrom(data, 0))| == RowCount(|data|)
    ensures ReadDump(DumpFrom(data, 0)) == data
  {
    LinesAreRows(data, 0);
    LinesHold(data, 0);
    ReadPrinted(LinesFrom(data, 0));
  }

  /** The ASCII columns of all rows, full, partial or empty, line up exactly when there are at
      most 2^32 bytes; beyond that the index needs a ninth digit. */
  lemma ColumnsAlignIff(data: seq<Byte>)
    ensures Aligned(Lines(DumpFrom(data, 0))) <==> |data| <= MAX_INDEX
  {
    LinesAreRows(data, 0);
    LinesStart(data, 0, 0);
    AlignedPrinted(LinesFrom(data, 0));
  }

  // ------------------------------------------------------- every character of a dump

  const DIGITS := "0123456789abcdef"

  lemma DigitIs(d: nat)
    requires d < 16
    ensures HexDigit(d) == DIGITS[d] && DigitOf(DIGITS[d]) == Some(d)
  {
  }

  predicate AllDigits(s: string) {
    forall i :: 0 <= i < |s| ==> DigitOf(s[i]).Some?
  }

  /** The value of a string of digits, the most significant first. */
  function ReadNumber(s: string): nat
    requires AllDigits(s)
  {
    if s == [] then 0 else 16 * ReadNumber(s[..|s| - 1]) + DigitOf(s[|s| - 1]).value
  }

  /** `HexNumber` writes n, without leading zeros. */
  lemma {:induction false} NumberReadsBack(n: nat)
    ensures ReadNumber(HexNumber(n)) == n
    ensures n > 0 ==> HexNumber(n)[0] != '0'
  {
    var s := HexNumber(n);
    if n < 16 {
      assert s[..0] == [] && ReadNumber([]) == 0;
    } else {
      NumberReadsBack(n / 16);
      assert s[..|s| - 1] == HexNumber(n / 16) && s[|s| - 1] == HexDigit(n % 16);
    }
  }

  lemma {:induction false} LeadingZeros(k: nat, s: string)
    requires AllDigits(s)
    ensures AllDigits(Repeat('0', k) + s) && ReadNumber(Repeat('0', k) + s) == ReadNumber(s)
  {
    var all := Repeat('0', k) + s;
    if s != [] {
      LeadingZeros(k, s[..|s| - 1]);
      assert all[..|all| - 1] == Repeat('0', k) + s[..|s| - 1];
    } else if k > 0 {
      LeadingZeros(k - 1, s);
      assert all[..|all| - 1] == Repeat('0', k - 1) + s && all[|all| - 1] == '0';
    }
  }

  /** A row label: the number i in at least eight digits, in more only if it needs them. */
  predicate Labels(s: string, i: nat) {
    && AllDigits(s) && ReadNumber(s) == i
    && |s| >= 8 && (|s| > 8 ==> s[0] != '0')
  }

  lemma IndexLabels(i: nat)
    ensures Labels(Index(i), i)
  {
    var s := HexNumber(i);
    NumberReadsBack(i);
    if |s| < INDEX_WIDTH { LeadingZeros(INDEX_WIDTH - |s|, s); }
  }

  /** What a row shows of byte b, at one of its two digits. */
  function DigitAt(b: Byte, high: bool): char {
    DIGITS[if high then b / 16 else b % 16]
  }

  /** The character that belongs p places after the label of a row with these bytes: two
      groups of eight cells, set off by blanks, and the text between bars. */
  function CharAt(chunk: seq<Byte>, p: nat): char
    requires p < 54 + |chunk|
  {
    if p == 52 || p == 53 + |chunk| then '|'
    else if p > 52 then if 32 <= chunk[p - 53] <= 126 then chunk[p - 53] as char else '.'
    else if p < 2 || p == 26 || p == 51 then ' '
    else
      var (j, place) := if p < 26 then ((p - 2) / 3, (p - 2) % 3) else (8 + (p - 27) / 3, (p - 27) % 3);
      if j >= |chunk| || place == 2 then ' ' else DigitAt(chunk[j], place == 0)
  }

  /** A row in full: its label, up to the first blank, and every character from there on. */
  predicate IsRow(row: string, i: nat, chunk: seq<Byte>) {
    var w := FirstOf(' ', row);
    && |row| == w + 54 + |chunk| && Labels(row[..w], i)
    && forall p :: 0 <= p < 54 + |chunk| ==> row[w + p] == CharAt(chunk, p)
  }

  lemma {:induction false} CellChar(data: seq<Byte>, n: nat, q: nat)
    requires q < 3 * n
    ensures Cells(data, n)[q] ==
              if q / 3 >= |data| || q % 3 == 2 then ' ' else DigitAt(data[q / 3], q % 3 == 0)
  {
    var last := if n <= |data| then HexByte(data[n - 1]) + [' '] else "   ";
    assert Cells(data, n) == Cells(data, n - 1) + last;
    if q < 3 * (n - 1) {
      CellChar(data, n - 1, q);
    } else if n <= |data| {
      assert q / 3 == n - 1;
      DigitIs(data[n - 1] / 16);
      DigitIs(data[n - 1] % 16);
    }
  }

  lemma {:induction false} TextChar(data: seq<Byte>)
    ensures |AsciiText(data)| == |data|
    ensures forall j :: 0 <= j < |data| ==>
              AsciiText(data)[j] == if 32 <= data[j] <= 126 then data[j] as char else '.'
  {
    if data != [] { TextChar(data[..|data| - 1]); }
  }

  lemma LayoutChar(index: string, a: string, b: string, text: string, p: nat)
    requires |a| == 24 && |b| == 24 && p < 54 + |text|
    ensures var row := Layout(index, a, b, text);
            && |row| == |index| + 54 + |text| && row[..|index|] == index
            && row[|index| + p] ==
                 if p == 52 || p == 53 + |text| then '|'
                 else if p > 52 then text[p - 53]
                 else if p < 2 || p == 26 || p == 51 then ' '
                 else if p < 26 then a[p - 2] else b[p - 27]
  {
    LayoutIs(index, a, b, text);
  }

  lemma RowChar(i: nat, chunk: seq<Byte>, p: nat)
    requires |chunk| <= ROW_WIDTH && p < 54 + |chunk|
    ensures |Row(i, chunk)| == |Index(i)| + 54 + |chunk| && Row(i, chunk)[..|Index(i)|] == Index(i)
    ensures Row(i, chunk)[|Index(i)| + p] == CharAt(chunk, p)
  {
    var first, second := FirstHalf(chunk), SecondHalf(chunk);
    TextChar(chunk);
    LayoutChar(Index(i), Cells(first, HALF_ROW_WIDTH), Cells(second, HALF_ROW_WIDTH), AsciiText(chunk), p);
    if 2 <= p < 26 {
      CellChar(first, HALF_ROW_WIDTH, p - 2);
    } else if 27 <= p < 51 {
      CellChar(second, HALF_ROW_WIDTH, p - 27);
    }
  }

  lemma LabelEnds(i: nat, chunk: seq<Byte>)
    ensures FirstOf(' ', Row(i, chunk)) == |Index(i)|
  {
    IndexDigits(i);
    assert DigitOf(' ') == None;
    LayoutSpace(Index(i), Cells(FirstHalf(chunk), HALF_ROW_WIDTH), Cells(SecondHalf(chunk), HALF_ROW_WIDTH),
                AsciiText(chunk));
  }

  lemma RowIs(i: nat, chunk: seq<Byte>)
    requires |chunk| <= ROW_WIDTH
    ensures IsRow(Row(i, chunk), i, chunk)
  {
    IndexLabels(i);
    LabelEnds(i, chunk);
    RowChar(i, chunk, 0);
    forall p: nat | p < 54 + |chunk| ensures Row(i, chunk)[|Index(i)| + p] == CharAt(chunk, p) {
      RowChar(i, chunk, p);
    }
  }

  lemma {:induction false} PrintedAt(lines: seq<Line>, r: nat, line: Line)
    requires r < |lines| && lines[r] == line
    ensures Printed(lines)[r] == Row(line.index, line.chunk)
  {
    if r > 0 { PrintedAt(lines[1..], r - 1, line); }
  }

  /** Row r of the lines from byte i on. */
  lemma {:induction false} LineAt(data: seq<Byte>, i: nat, r: nat)
    requires i <= |data| && r < |LinesFrom(data, i)|
    ensures i + 16 * r <= |data|
    ensures LinesFrom(data, i)[r] == Line(i + 16 * r, ChunkAt(data, i + 16 * r))
    decreases r
  {
    if r > 0 { LineAt(data, i + ROW_WIDTH, r - 1); }
  }

  /** The bytes of row r. */
  function RowBytes(data: seq<Byte>, r: nat): seq<Byte>
    requires 16 * r <= |data|
  {
    data[16 * r..if |data| <= 16 * r + 16 then |data| else 16 * r + 16]
  }

  lemma RowAt(data: seq<Byte>, r: nat)
    requires r < |LinesFrom(data, 0)|
    ensures 16 * r <= |data| && Printed(LinesFrom(data, 0))[r] == Row(16 * r, RowBytes(data, r))
  {
    LineAt(data, 0, r);
    ChunkIs(data, r);
    PrintedAt(LinesFrom(data, 0), r, Line(16 * r, RowBytes(data, r)));
  }

  lemma ChunkIs(data: seq<Byte>, r: nat)
    requires 16 * r <= |data|
    ensures ChunkAt(data, 16 * r) == RowBytes(data, r)
  {
  }

  /** Every character of a dump: row r is labelled 16 * r and shows the sixteen bytes from there
      on, or those there are, in hexadecimal and as text. */
  lemma EveryCharacter(data: seq<Byte>, r: nat)
    requires r < |Lines(DumpFrom(data, 0))|
    ensures 16 * r <= |data| && IsRow(Lines(DumpFrom(data, 0))[r], 16 * r, RowBytes(data, r))
  {
    LinesAreRows(data, 0);
    RowAt(data, r);
    RowIs(16 * r, RowBytes(data, r));
  }
}

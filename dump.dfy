/** The two line formatters of the reader. `print_hex` writes a label,
    ": \t", then each byte as two upper-case hex digits and a space
    ("%02X "), then a newline; `print_string` writes the same label prefix,
    the bytes verbatim ("%c"), then a newline. The emitted text is modelled
    as a string whose characters carry the emitted byte values. */
module Dump {
  import opened Bytes

  datatype Option<T> = None | Some(value: T)

  const Separator: string := ": \t"
  const HexDigits: string := "0123456789ABCDEF"

  /** The upper-case hex digit for a nibble. */
  function HexDigit(n: nat): (c: char)
    requires n < 16
    ensures '0' <= c <= '9' || 'A' <= c <= 'F'
  {
    HexDigits[n]
  }

  /** The nibble an upper-case hex digit stands for; None for anything else. */
  function DigitValue(c: char): (v: Option<nat>)
    ensures v.Some? ==> v.value < 16
  {
    if '0' <= c <= '9' then Some(c as int - '0' as int)
    else if 'A' <= c <= 'F' then Some(c as int - 'A' as int + 10)
    else None
  }

  lemma DigitRoundTrip(n: nat)
    requires n < 16
    ensures DigitValue(HexDigit(n)) == Some(n)
  {
    assert HexDigits == ['0', '1', '2', '3', '4', '5', '6', '7', '8', '9',
                         'A', 'B', 'C', 'D', 'E', 'F'];
  }

  /** What "%02X " prints for one byte. */
  function HexCell(b: byte): (s: string)
    ensures |s| == 3 && s[2] == ' '
  {
    [HexDigit(b / 16), HexDigit(b % 16), ' ']
  }

  /** Reads one "%02X " cell back. */
  function CellValue(s: string): (v: Option<byte>)
    requires |s| == 3
  {
    match (DigitValue(s[0]), DigitValue(s[1]))
    case (Some(hi), Some(lo)) => if s[2] == ' ' then Some(16 * hi + lo) else None
    case _ => None
  }

  /** The two digits printed for a byte read back to that byte. */
  lemma CellRoundTrip(b: byte)
    ensures CellValue(HexCell(b)) == Some(b)
  {
    DigitRoundTrip(b / 16);
    DigitRoundTrip(b % 16);
  }

  /** The cells print_hex's loop emits for `bs`, one per iteration. */
  function HexCells(bs: seq<byte>): string
    decreases |bs|
  {
    if bs == [] then "" else HexCells(bs[..|bs| - 1]) + HexCell(bs[|bs| - 1])
  }

  lemma {:induction false} HexCellsLength(bs: seq<byte>)
    ensures |HexCells(bs)| == 3 * |bs|
  {
    if bs != [] {
      HexCellsLength(bs[..|bs| - 1]);
    }
  }

  /** Byte i of the input is printed in the cell at 3 * i. */
  lemma {:induction false} HexCellsAt(bs: seq<byte>, i: nat)
    requires i < |bs|
    ensures |HexCells(bs)| == 3 * |bs|
    ensures HexCells(bs)[3 * i..3 * i + 3] == HexCell(bs[i])
  {
    var init := bs[..|bs| - 1];
    HexCellsLength(bs);
    HexCellsLength(init);
    if i < |bs| - 1 {
      HexCellsAt(init, i);
      assert init[i] == bs[i];
      assert HexCells(bs)[3 * i..3 * i + 3] == HexCells(init)[3 * i..3 * i + 3];
    }
  }

  lemma {:induction false} HexCellsCons(b: byte, bs: seq<byte>)
    ensures HexCells([b] + bs) == HexCell(b) + HexCells(bs)
    decreases |bs|
  {
    if bs == [] {
      assert [b] + bs == [b];
      assert [b][..0] == [];
    } else {
      var init := bs[..|bs| - 1];
      assert ([b] + bs)[..|bs|] == [b] + init;
      HexCellsCons(b, init);
    }
  }

  /** Reads a run of "%02X " cells back into bytes, front to back. */
  function ParseHexCells(s: string): Option<seq<byte>>
    decreases |s|
  {
    if s == "" then Some([])
    else if |s| < 3 then None
    else match (CellValue(s[..3]), ParseHexCells(s[3..]))
      case (Some(b), Some(rest)) => Some([b] + rest)
      case _ => None
  }

  lemma {:induction false} ParseHexCellsRoundTrip(bs: seq<byte>)
    ensures ParseHexCells(HexCells(bs)) == Some(bs)
    decreases |bs|
  {
    if bs != [] {
      var s := HexCells(bs);
      HexCellsCons(bs[0], bs[1..]);
      assert [bs[0]] + bs[1..] == bs;
      HexCellsLength(bs[1..]);
      assert s[..3] == HexCell(bs[0]) && s[3..] == HexCells(bs[1..]);
      CellRoundTrip(bs[0]);
      ParseHexCellsRoundTrip(bs[1..]);
    }
  }

  /** The full text of print_hex(title, bs, |bs|). */
  function HexLine(title: string, bs: seq<byte>): string
  {
    title + Separator + HexCells(bs) + "\n"
  }

  /** A print_hex line is the title, three separator characters, three
      characters per byte and a newline; the cell of byte i sits at a fixed
      column and reads back to byte i. */
  lemma HexLineShape(title: string, bs: seq<byte>, i: nat)
    requires i < |bs|
    ensures |HexLine(title, bs)| == |title| + 3 + 3 * |bs| + 1
    ensures HexLine(title, bs)[|title| + 3 + 3 * i..|title| + 6 + 3 * i] == HexCell(bs[i])
    ensures CellValue(HexLine(title, bs)[|title| + 3 + 3 * i..|title| + 6 + 3 * i]) == Some(bs[i])
  {
    HexCellsAt(bs, i);
    CellRoundTrip(bs[i]);
    var line := HexLine(title, bs);
    var k := |title| + 3;
    assert line[k..k + 3 * |bs|] == HexCells(bs);
    assert line[k + 3 * i..k + 3 * i + 3] == HexCells(bs)[3 * i..3 * i + 3];
  }

  /** The line body of a print_hex call reads back to exactly the bytes printed. */
  lemma HexLineRoundTrip(title: string, bs: seq<byte>)
    ensures |HexLine(title, bs)| == |title| + 3 + 3 * |bs| + 1
    ensures ParseHexCells(HexLine(title, bs)[|title| + 3..|title| + 3 + 3 * |bs|]) == Some(bs)
  {
    HexCellsLength(bs);
    ParseHexCellsRoundTrip(bs);
    var line := HexLine(title, bs);
    assert line[|title| + 3..|title| + 3 + 3 * |bs|] == HexCells(bs);
  }

  /** What print_string's loop emits for `bs`: each byte as the character
      with that code, in order. */
  function Verbatim(bs: seq<byte>): (s: string)
    ensures |s| == |bs|
    ensures forall i :: 0 <= i < |bs| ==> s[i] as int == bs[i]
    decreases |bs|
  {
    if bs == [] then "" else Verbatim(bs[..|bs| - 1]) + [bs[|bs| - 1] as char]
  }

  /** The full text of print_string(title, bs, |bs|). */
  function StringLine(title: string, bs: seq<byte>): string
  {
    title + Separator + Verbatim(bs) + "\n"
  }

  /** A print_string line is the title, the separator, exactly |bs|
      characters copied from bs, and a newline. */
  lemma StringLineShape(title: string, bs: seq<byte>)
    ensures |StringLine(title, bs)| == |title| + 3 + |bs| + 1
    ensures forall i :: 0 <= i < |bs| ==> StringLine(title, bs)[|title| + 3 + i] as int == bs[i]
    ensures StringLine(title, bs)[..|title|] == title
    ensures StringLine(title, bs)[|title|..|title| + 3] == Separator
    ensures StringLine(title, bs)[|title| + 3 + |bs|] == '\n'
  {
    var line := StringLine(title, bs);
    var body := Verbatim(bs);
    forall i | 0 <= i < |bs| ensures line[|title| + 3 + i] as int == bs[i] {
      assert line[|title| + 3 + i] == body[i];
    }
  }

  /** print_hex: the loop of "%02X " cells between the title and the newline. */
  method PrintHex(title: string, bs: seq<byte>) returns (out: string)
    ensures out == HexLine(title, bs)
  {
    out := title + Separator;
    for i := 0 to |bs|
      invariant out == title + Separator + HexCells(bs[..i])
    {
      assert bs[..i + 1][..i] == bs[..i];
      out := out + HexCell(bs[i]);
    }
    assert bs[..|bs|] == bs;
    out := out + "\n";
  }

  /** print_string: the loop of "%c" characters between the title and the newline. */
  method PrintString(title: string, bs: seq<byte>) returns (out: string)
    ensures out == StringLine(title, bs)
  {
    out := title + Separator;
    for i := 0 to |bs|
      invariant out == title + Separator + Verbatim(bs[..i])
    {
      assert bs[..i + 1][..i] == bs[..i];
      out := out + [bs[i] as char];
    }
    assert bs[..|bs|] == bs;
    out := out + "\n";
  }

  // ---------------------------------------------------------------------
  // Standard output as the sequence of print calls that produced it

  /** One call that writes to standard output. */
  datatype Output =
    | Hex(title: string, bytes: seq<byte>)     // print_hex(label, bytes, |bytes|)
    | Str(title: string, bytes: seq<byte>)     // print_string(label, bytes, |bytes|)
    | Newline                                  // printf("\n")

  /** The characters one call writes. */
  function Text(o: Output): string
  {
    match o
    case Hex(title, bs) => HexLine(title, bs)
    case Str(title, bs) => StringLine(title, bs)
    case Newline => "\n"
  }

  /** The characters a sequence of calls writes, in call order. */
  function Render(os: seq<Output>): string
    decreases |os|
  {
    if os == [] then "" else Render(os[..|os| - 1]) + Text(os[|os| - 1])
  }

  /** Writing two runs of calls one after the other writes their texts one
      after the other. */
  lemma {:induction false} RenderAppend(a: seq<Output>, b: seq<Output>)
    ensures Render(a + b) == Render(a) + Render(b)
    decreases |b|
  {
    if b == [] {
      assert a + b == a;
    } else {
      var init, last := b[..|b| - 1], b[|b| - 1];
      assert (a + b)[..|a + b| - 1] == a + init;
      assert (a + b)[|a + b| - 1] == last;
      var t := Text(last);
      assert Render(a + b) == Render(a + init) + t;
      assert Render(b) == Render(init) + t;
      RenderAppend(a, init);
      AppendAssoc(Render(a), Render(init), t);
    }
  }

  lemma AppendAssoc<T>(x: seq<T>, y: seq<T>, z: seq<T>)
    ensures (x + y) + z == x + (y + z)
  {
  }
}

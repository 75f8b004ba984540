/** What a spool file looks like on disk: its name and its text. */
module SpoolText {
  import opened TextLines
  import opened Wrappers

  /** How one record is written and read. */
  datatype Codec<!T> = Codec(encode: T -> string, decode: string -> Option<T>)

  /** Line breaks of a text file opened for reading. */
  const BREAKS: char -> bool := c => c == '\n' || c == '\r'

  lemma BreaksAre(c: char)
    ensures BREAKS(c) <==> c == '\n' || c == '\r'
  {
  }

  // ---- writing -----------------------------------------------------------------------------------

  function Joined(lines: seq<string>): string {
    if lines == [] then ""
    else if |lines| == 1 then lines[0]
    else lines[0] + "\n" + Joined(lines[1..])
  }

  function Encoded<T>(codec: Codec<T>, batch: seq<T>): (lines: seq<string>)
    ensures |lines| == |batch| && forall i | 0 <= i < |lines| :: lines[i] == codec.encode(batch[i])
  {
    seq(|batch|, i requires 0 <= i < |batch| => codec.encode(batch[i]))
  }

  /** The payload of append. */
  function Payload<T>(codec: Codec<T>, batch: seq<T>): string {
    Joined(Encoded(codec, batch)) + "\n"
  }

  // ---- reading ------------------------------------------------------------------------------------

  /** The records on the lines that are not blank, or the number of the first bad line. */
  function Decoded<T>(codec: Codec<T>, lines: seq<string>): Result<seq<T>, nat> {
    if lines == [] then Ok([])
    else
      var n := |lines| - 1;
      match Decoded(codec, lines[..n])
      case Err(line) => Err(line)
      case Ok(records) =>
        var line := Strip(lines[n]);
        if line == "" then Ok(records)
        else
          match codec.decode(line)
          case Some(x) => Ok(records + [x])
          case None => Err(n + 1)
  }

  /** _read */
  method Read<T>(codec: Codec<T>, text: string) returns (r: Result<seq<T>, nat>)
    ensures r == Decoded(codec, Lines(text, BREAKS))
  {
    var lines := Lines(text, BREAKS);
    var records: seq<T> := [];
    for i := 0 to |lines|
      invariant Decoded(codec, lines[..i]) == Ok(records)
    {
      assert lines[..i + 1][..i] == lines[..i];
      var line := Strip(lines[i]);
      if line == "" {
        continue;
      }
      match codec.decode(line)
      case Some(x) => records := records + [x];
      case None =>
        BadLineStays(codec, lines, i + 1);
        return Err(i + 1);
    }
    assert lines[..|lines|] == lines;
    r := Ok(records);
  }

  lemma {:induction false} BadLineStays<T>(codec: Codec<T>, lines: seq<string>, i: nat)
    requires i <= |lines| && Decoded(codec, lines[..i]).Err?
    ensures Decoded(codec, lines) == Decoded(codec, lines[..i])
    decreases |lines|
  {
    if i == |lines| {
      assert lines[..i] == lines;
    } else {
      var n := |lines| - 1;
      assert lines[..n][..i] == lines[..i];
      BadLineStays(codec, lines[..n], i);
    }
  }

  /** The line is blank, or a record. */
  predicate IsFine<T>(codec: Codec<T>, line: string) {
    Strip(line) == "" || codec.decode(Strip(line)).Some?
  }

  /** It is read if and only if all lines are fine. The number of the bad line counts from one, and all lines
      before that one are fine. */
  lemma {:induction false} DecodedTells<T>(codec: Codec<T>, lines: seq<string>)
    ensures Decoded(codec, lines).Ok? <==> forall i | 0 <= i < |lines| :: IsFine(codec, lines[i])
    ensures Decoded(codec, lines).Err? ==>
              var n := Decoded(codec, lines).error;
              && 1 <= n <= |lines| && !IsFine(codec, lines[n - 1])
              && forall i | 0 <= i < n - 1 :: IsFine(codec, lines[i])
  {
    hide IsFine;
    if lines != [] {
      var n := |lines| - 1;
      DecodedTells(codec, lines[..n]);
      OneLineTells(codec, lines);
      assert forall i | 0 <= i < n :: lines[..n][i] == lines[i];
    }
  }

  lemma OneLineTells<T>(codec: Codec<T>, lines: seq<string>)
    requires lines != []
    ensures var n := |lines| - 1;
            var before := Decoded(codec, lines[..n]);
            Decoded(codec, lines)
            == if before.Err? then before
               else if !IsFine(codec, lines[n]) then Err(|lines|)
               else if Strip(lines[n]) == "" then before
               else Ok(before.value + [codec.decode(Strip(lines[n])).value])
  {
  }

  lemma LineTells<T>(codec: Codec<T>, line: string)
    requires IsFine(codec, line)
    ensures Strip(line) == "" ==> Decoded(codec, [line]) == Ok([])
    ensures Strip(line) != "" ==> Decoded(codec, [line]) == Ok([codec.decode(Strip(line)).value])
  {
    var none: seq<string> := [];
    assert [line][..0] == none && Decoded(codec, none) == Ok([]);
    if Strip(line) != "" {
      var nothing: seq<T> := [];
      var x := codec.decode(Strip(line)).value;
      assert nothing + [x] == [x];
    }
  }

  /** The records of the lines that are not blank, in order. */
  lemma {:induction false} DecodedInOrder<T>(codec: Codec<T>, a: seq<string>, b: seq<string>)
    requires Decoded(codec, a).Ok? && Decoded(codec, a + b).Ok?
    ensures Decoded(codec, b).Ok? && Decoded(codec, a + b).value == Decoded(codec, a).value + Decoded(codec, b).value
  {
    if b == [] {
      assert a + b == a;
    } else {
      var n := |b| - 1;
      assert (a + b)[..|a + b| - 1] == a + b[..n];
      OneLineTells(codec, a + b);
      OneLineTells(codec, b);
      DecodedInOrder(codec, a, b[..n]);
    }
  }

  // ---- round trip -----------------------------------------------------------------------------------

  /** A record that survives: no line break in its text, which reads back after stripping. */
  predicate Survives<T(==)>(codec: Codec<T>, x: T) {
    var text := codec.encode(x);
    OneLine(text, BREAKS) && Strip(text) != "" && codec.decode(Strip(text)) == Some(x)
  }

  lemma {:induction false} JoinedIsText(lines: seq<string>)
    requires lines != []
    ensures Joined(lines) + "\n" == Text(lines)
  {
    if |lines| == 1 {
      assert Text(lines[1..]) == "";
    } else {
      JoinedIsText(lines[1..]);
      assert lines[0] + "\n" + Joined(lines[1..]) + "\n" == lines[0] + "\n" + (Joined(lines[1..]) + "\n");
    }
  }

  lemma {:induction false} DecodedOfEncoded<T>(codec: Codec<T>, batch: seq<T>)
    requires forall i | 0 <= i < |batch| :: Survives(codec, batch[i])
    ensures Decoded(codec, Encoded(codec, batch)) == Ok(batch)
  {
    if batch != [] {
      var n := |batch| - 1;
      DecodedOfEncoded(codec, batch[..n]);
      assert Encoded(codec, batch)[..n] == Encoded(codec, batch[..n]);
      assert batch == batch[..n] + [batch[n]];
    }
  }

  /** Reading a written spool file gives the batch back. */
  lemma RoundTrip<T>(codec: Codec<T>, batch: seq<T>)
    requires batch != [] && forall i | 0 <= i < |batch| :: Survives(codec, batch[i])
    ensures Decoded(codec, Lines(Payload(codec, batch), BREAKS)) == Ok(batch)
  {
    JoinedIsText(Encoded(codec, batch));
    LinesOfText(Encoded(codec, batch), BREAKS);
    DecodedOfEncoded(codec, batch);
  }

  // ---- names ------------------------------------------------------------------------------------------

  /** The order of `sorted` on file names. */
  predicate Less(a: string, b: string) {
    if b == "" then false
    else if a == "" then true
    else if a[0] != b[0] then a[0] < b[0]
    else Less(a[1..], b[1..])
  }

  function Digit(n: nat): char
    requires n < 10
  {
    (48 + n) as char
  }

  /** Decimal digits, filled up with zeros to a width: longer numbers keep all their digits. */
  function Padded(n: nat, width: nat): string
    decreases n, width
  {
    if n == 0 && width == 0 then ""
    else Padded(n / 10, if width > 0 then width - 1 else 0) + [Digit(n % 10)]
  }

  function Pow10(k: nat): (p: nat)
    ensures p >= 1
  {
    if k == 0 then 1 else 10 * Pow10(k - 1)
  }

  const STAMP_DIGITS := 20

  /** The name of the file that a batch is stored in. */
  function Name(stamp: nat, tag: string): string {
    Padded(stamp, STAMP_DIGITS) + Ending(tag)
  }

  function Ending(tag: string): string {
    "-" + tag + ".jsonl"
  }

  lemma {:induction false} LessOfConcat(a: string, x: string, b: string, y: string)
    requires |a| == |b|
    ensures Less(a + x, b + y) <==> Less(a, b) || (a == b && Less(x, y))
  {
    if a == "" {
      assert a + x == x && b + y == y;
    } else {
      assert (a + x)[1..] == a[1..] + x && (b + y)[1..] == b[1..] + y;
      LessOfConcat(a[1..], x, b[1..], y);
      assert a == [a[0]] + a[1..] && b == [b[0]] + b[1..];
    }
  }

  /** Below 10^width the padded numbers all have that width, and their order is that of the numbers. */
  lemma {:induction false} PaddedOrder(m: nat, n: nat, width: nat)
    requires m < Pow10(width) && n < Pow10(width)
    ensures |Padded(m, width)| == |Padded(n, width)| == width
    ensures Padded(m, width) == Padded(n, width) <==> m == n
    ensures Less(Padded(m, width), Padded(n, width)) <==> m < n
    decreases width
  {
    if width > 0 {
      PaddedOrder(m / 10, n / 10, width - 1);
      var a, b := Padded(m / 10, width - 1), Padded(n / 10, width - 1);
      var x, y := [Digit(m % 10)], [Digit(n % 10)];
      LessOfConcat(a, x, b, y);
      assert Padded(m, width) == a + x && Padded(n, width) == b + y;
      assert (a + x)[..|a|] == a && (b + y)[..|b|] == b && (a + x)[|a|..] == x && (b + y)[|b|..] == y;
    }
  }

  /** Files sort by their stamps, whatever their tags, and with distinct stamps in no other way. */
  lemma NamesSortByStamp(m: nat, n: nat, tag: string, other: string)
    requires m < 100000000000000000000 && n < 100000000000000000000 && m != n
    ensures Less(Name(m, tag), Name(n, other)) <==> m < n
  {
    TwentyDigits();
    hide Padded, Less, Pow10, Ending;
    PaddedOrder(m, n, STAMP_DIGITS);
    LessOfConcat(Padded(m, STAMP_DIGITS), Ending(tag), Padded(n, STAMP_DIGITS), Ending(other));
  }

  lemma TwentyDigits()
    ensures Pow10(STAMP_DIGITS) == 100000000000000000000
  {
    assert Pow10(5) == 100000 && Pow10(10) == 100000 * Pow10(5);
    assert Pow10(15) == 100000 * Pow10(10) && Pow10(20) == 100000 * Pow10(15);
  }

  /** The name is the stamp in twenty digits, a dash, the tag and the suffix. */
  lemma NameIs(stamp: nat, tag: string)
    requires stamp < 100000000000000000000
    ensures exists digits: string ::
              |digits| == 20 && Value(digits) == stamp && Name(stamp, tag) == digits + "-" + tag + ".jsonl"
  {
    TwentyDigits();
    PaddedOrder(stamp, stamp, STAMP_DIGITS);
    PaddedValue(stamp, STAMP_DIGITS);
    var digits := Padded(stamp, STAMP_DIGITS);
    assert Name(stamp, tag) == digits + "-" + tag + ".jsonl";
  }

  /** The number that decimal digits stand for. */
  ghost function Value(digits: string): int {
    if digits == "" then 0 else 10 * Value(digits[..|digits| - 1]) + (digits[|digits| - 1] as int - '0' as int)
  }

  lemma {:induction false} PaddedValue(n: nat, width: nat)
    ensures Value(Padded(n, width)) == n
    decreases n, width
  {
    if n != 0 || width != 0 {
      var less := if width > 0 then width - 1 else 0;
      PaddedValue(n / 10, less);
      var digits := Padded(n, width);
      assert digits[..|digits| - 1] == Padded(n / 10, less);
    }
  }

  lemma {:induction false} PaddedPower(width: nat)
    ensures |Padded(Pow10(width), width)| == width + 1 && Padded(Pow10(width), width)[0] == '1'
  {
    if width == 0 {
      assert Padded(1, 0) == Padded(0, 0) + ['1'];
    } else {
      PaddedPower(width - 1);
      assert Padded(Pow10(width), width) == Padded(Pow10(width - 1), width - 1) + ['0'];
    }
  }

  lemma {:induction false} PaddedNines(width: nat)
    requires width > 0
    ensures |Padded(Pow10(width) - 1, width)| == width && Padded(Pow10(width) - 1, width)[0] == '9'
  {
    var n := Pow10(width) - 1;
    assert n % 10 == 9 && n / 10 == Pow10(width - 1) - 1;
    assert Padded(n, width) == Padded(n / 10, width - 1) + ['9'];
    if width > 1 {
      PaddedNines(width - 1);
    } else {
      assert Padded(0, 0) == "";
    }
  }

  /** The width is large enough for stamps below a bound exactly up to 10^width. */
  lemma WidthBoundsTheStamps(width: nat, bound: nat)
    requires width > 0
    ensures (forall m: nat, n: nat | m < bound && n < bound :: Less(Padded(m, width), Padded(n, width)) <==> m < n)
            <==> bound <= Pow10(width)
  {
    if bound <= Pow10(width) {
      forall m: nat, n: nat | m < bound && n < bound ensures Less(Padded(m, width), Padded(n, width)) <==> m < n {
        PaddedOrder(m, n, width);
      }
    } else {
      var m, n := Pow10(width), Pow10(width) - 1;
      PaddedPower(width);
      PaddedNines(width);
      assert Less(Padded(m, width), Padded(n, width));
    }
  }
}

/** The two parsers of curl's `-w` output, against the printers they read. */
module Curl {
  import opened TextLines
  import opened Wrappers

  // ---- the legacy format -------------------------------------------------------------------------

  const FIELDS: seq<string> := [
    "http_code", "http_version", "remote_ip", "remote_port", "local_ip", "local_port",
    "num_connects", "num_redirects", "redirect_url", "url_effective", "scheme", "content_type",
    "size_download", "size_upload", "size_header", "speed_download", "ssl_verify_result",
    "time_namelookup", "time_connect", "time_appconnect", "time_pretransfer", "time_redirect",
    "time_starttransfer", "time_total"
  ]

  const END := "END_REPORT"

  /** Line breaks as `splitlines` sees them, up to U+0085. */
  const BREAKS: char -> bool := c => var n := c as int; 10 <= n <= 13 || 28 <= n <= 30 || n == 0x85

  /** They are the line feed, the carriage return, the tabulation and the form feed of lines, the separators of
      files, groups and records, and the next line. */
  lemma BreaksAre(c: char)
    ensures BREAKS(c)
            <==> c == '\n' || c == '\r' || c as int in {0x0B, 0x0C, 0x1C, 0x1D, 0x1E, 0x85}
  {
  }

  type Report = map<string, string>

  function LineFor(field: string, value: string): string {
    field + "=" + value
  }

  /** The lines curl prints for the first fields of a report. */
  function FieldLines(fields: seq<string>, values: seq<string>): seq<string>
    requires |fields| == |values|
  {
    if fields == [] then []
    else
      var n := |fields| - 1;
      FieldLines(fields[..n], values[..n]) + [LineFor(fields[n], values[n])]
  }

  function ReportOf(fields: seq<string>, values: seq<string>): Report
    requires |fields| == |values|
  {
    if fields == [] then map[]
    else
      var n := |fields| - 1;
      ReportOf(fields[..n], values[..n])[fields[n] := values[n]]
  }

  /** What curl prints for one transfer, in the legacy format. */
  function Printed(values: seq<string>): seq<string>
    requires |values| == |FIELDS|
  {
    FieldLines(FIELDS, values) + [END]
  }

  /** The text before the first '=', and the text after it. */
  function Partition(line: string): Option<(string, string)> {
    if line == "" then None
    else if line[0] == '=' then Some(("", line[1..]))
    else
      match Partition(line[1..])
      case None => None
      case Some((key, value)) => Some(([line[0]] + key, value))
  }

  datatype Reading = Reading(current: Report, reports: seq<Report>)

  /** What one line does to the reading. */
  function Step(r: Reading, raw: string): Reading {
    var line := Strip(raw);
    if line == END then Reading(map[], r.reports + if r.current != map[] then [r.current] else [])
    else
      match Partition(line)
      case None => r
      case Some((key, value)) => if key in FIELDS then r.(current := r.current[key := value]) else r
  }

  function After(r: Reading, lines: seq<string>): Reading {
    if lines == [] then r else Step(After(r, lines[..|lines| - 1]), lines[|lines| - 1])
  }

  const START := Reading(map[], [])

  /** The reports of some lines: the ended ones and what is left at the end. */
  function Reports(lines: seq<string>): seq<Report> {
    var r := After(START, lines);
    r.reports + if r.current != map[] then [r.current] else []
  }

  /** _parse_legacy_reports */
  method ParseLegacyReports(text: string) returns (reports: seq<Report>)
    ensures reports == Reports(Lines(text, BREAKS))
  {
    hide Lines, Strip, Partition;
    reports := [];
    var current: Report := map[];
    var lines := Lines(text, BREAKS);
    for i := 0 to |lines|
      invariant After(START, lines[..i]) == Reading(current, reports)
    {
      assert lines[..i + 1][..i] == lines[..i];
      var line := Strip(lines[i]);
      if line == END {
        if current != map[] {
          reports := reports + [current];
        }
        current := map[];
        continue;
      }
      var parts := Partition(line);
      if parts.Some? {
        var (key, value) := parts.value;
        if key in FIELDS {
          current := current[key := value];
        }
      }
    }
    assert lines[..|lines|] == lines;
    if current != map[] {
      reports := reports + [current];
    }
  }

  // ---- the legacy parser inverts the printer --------------------------------------------------------

  lemma {:induction false} AfterConcat(r: Reading, a: seq<string>, b: seq<string>)
    ensures After(r, a + b) == After(After(r, a), b)
  {
    hide Step;
    if b == [] {
      assert a + b == a;
    } else {
      var n := |a + b| - 1;
      assert (a + b)[..n] == a + b[..|b| - 1] && (a + b)[n] == b[|b| - 1];
      AfterConcat(r, a, b[..|b| - 1]);
    }
  }

  /** A field name is made of small letters and underscores. */
  predicate PlainField(field: string) {
    field != "" && forall i | 0 <= i < |field| :: 'a' <= field[i] <= 'z' || field[i] == '_'
  }

  lemma FirstFieldsArePlain()
    ensures forall i | 0 <= i < 6 :: PlainField(FIELDS[i])
    ensures forall i | 6 <= i < 12 :: PlainField(FIELDS[i])
  {
  }

  lemma LastFieldsArePlain()
    ensures forall i | 12 <= i < 18 :: PlainField(FIELDS[i])
    ensures forall i | 18 <= i < 24 :: PlainField(FIELDS[i])
  {
  }

  lemma FieldsArePlain(field: string)
    requires field in FIELDS
    ensures PlainField(field)
  {
    hide PlainField;
    FirstFieldsArePlain();
    LastFieldsArePlain();
    var i :| 0 <= i < |FIELDS| && FIELDS[i] == field;
    assert i < 6 || i < 12 || i < 18 || i < 24;
  }

  lemma {:induction false} PartitionOfLine(field: string, value: string)
    requires '=' !in field
    ensures Partition(LineFor(field, value)) == Some((field, value))
  {
    var line := LineFor(field, value);
    if field == "" {
      assert line == "=" + value && line[1..] == value;
    } else {
      assert line[1..] == LineFor(field[1..], value);
      assert line[0] == field[0] && line[0] in field;
      PartitionOfLine(field[1..], value);
      assert field == [field[0]] + field[1..];
    }
  }

  /** A printed field sets that field, to the value without its trailing white space. */
  lemma FieldIsRead(r: Reading, field: string, value: string)
    requires field in FIELDS
    ensures Step(r, LineFor(field, value)) == r.(current := r.current[field := StripRight(value)])
  {
    FieldsArePlain(field);
    var line := LineFor(field, value);
    assert line[0] == field[0];
    assert StripLeft(line) == line;
    StripRightStops(field + "=", value);
    assert Strip(line) == LineFor(field, StripRight(value));
    PartitionOfLine(field, StripRight(value));
    assert '=' in LineFor(field, StripRight(value)) && '=' !in END;
  }

  function Stripped(values: seq<string>): (r: seq<string>)
    ensures |r| == |values| && forall i | 0 <= i < |r| :: r[i] == StripRight(values[i])
  {
    seq(|values|, i requires 0 <= i < |values| => StripRight(values[i]))
  }

  lemma {:induction false} FieldsAreRead(r: Reading, fields: seq<string>, values: seq<string>)
    requires |fields| == |values| && r.current == map[]
    requires forall i | 0 <= i < |fields| :: fields[i] in FIELDS
    ensures After(r, FieldLines(fields, values)) == r.(current := ReportOf(fields, Stripped(values)))
  {
    hide Step, StripRight;
    if fields != [] {
      var n := |fields| - 1;
      var earlier := FieldLines(fields[..n], values[..n]);
      FieldsAreRead(r, fields[..n], values[..n]);
      assert Stripped(values)[..n] == Stripped(values[..n]);
      LengthOfFieldLines(fields[..n], values[..n]);
      assert (earlier + [LineFor(fields[n], values[n])])[..n] == earlier;
      FieldIsRead(After(r, earlier), fields[n], values[n]);
    }
  }

  lemma {:induction false} LengthOfFieldLines(fields: seq<string>, values: seq<string>)
    requires |fields| == |values|
    ensures |FieldLines(fields, values)| == |fields|
  {
    if fields != [] {
      LengthOfFieldLines(fields[..|fields| - 1], values[..|fields| - 1]);
    }
  }

  /** All reports, one after the other. */
  function AllPrinted(batch: seq<seq<string>>): seq<string>
    requires forall i | 0 <= i < |batch| :: |batch[i]| == |FIELDS|
  {
    if batch == [] then [] else AllPrinted(batch[..|batch| - 1]) + Printed(batch[|batch| - 1])
  }

  function AllReports(batch: seq<seq<string>>): seq<Report>
    requires forall i | 0 <= i < |batch| :: |batch[i]| == |FIELDS|
  {
    if batch == [] then []
    else AllReports(batch[..|batch| - 1]) + [ReportOf(FIELDS, Stripped(batch[|batch| - 1]))]
  }

  lemma OneReportIsRead(reports: seq<Report>, values: seq<string>)
    requires |values| == |FIELDS|
    ensures After(Reading(map[], reports), Printed(values))
            == Reading(map[], reports + [ReportOf(FIELDS, Stripped(values))])
  {
    hide FieldLines, Stripped;
    var r := Reading(map[], reports);
    var lines := FieldLines(FIELDS, values);
    FieldsAreRead(r, FIELDS, values);
    assert (lines + [END])[..|lines|] == lines;
    assert Strip(END) == END;
    assert FIELDS[|FIELDS| - 1] in ReportOf(FIELDS, Stripped(values));
  }

  lemma {:induction false} BatchIsRead(batch: seq<seq<string>>)
    requires forall i | 0 <= i < |batch| :: |batch[i]| == |FIELDS|
    ensures After(START, AllPrinted(batch)) == Reading(map[], AllReports(batch))
  {
    hide Printed, ReportOf, Stripped, AllReports, AllPrinted, After;
    if batch == [] {
      NothingPrinted();
    } else {
      var n := |batch| - 1;
      BatchIsRead(batch[..n]);
      LastPrinted(batch);
      AfterConcat(START, AllPrinted(batch[..n]), Printed(batch[n]));
      OneReportIsRead(AllReports(batch[..n]), batch[n]);
    }
  }

  lemma NothingPrinted()
    ensures After(START, AllPrinted([])) == Reading(map[], AllReports([]))
  {
  }

  lemma LastPrinted(batch: seq<seq<string>>)
    requires batch != [] && forall i | 0 <= i < |batch| :: |batch[i]| == |FIELDS|
    ensures var n := |batch| - 1;
            && AllPrinted(batch) == AllPrinted(batch[..n]) + Printed(batch[n])
            && AllReports(batch) == AllReports(batch[..n]) + [ReportOf(FIELDS, Stripped(batch[n]))]
  {
    hide Printed, ReportOf, Stripped;
  }

  /** A line of other output: neither the end of a report nor one of its fields. */
  predicate Noise(raw: string) {
    var line := Strip(raw);
    line != END && (Partition(line).Some? ==> Partition(line).value.0 !in FIELDS)
  }

  function WithoutNoise(lines: seq<string>): seq<string> {
    if lines == [] then []
    else
      var n := |lines| - 1;
      WithoutNoise(lines[..n]) + if Noise(lines[n]) then [] else [lines[n]]
  }

  lemma {:induction false} NoiseIsSkipped(r: Reading, lines: seq<string>)
    ensures After(r, lines) == After(r, WithoutNoise(lines))
  {
    hide Strip, Partition;
    if lines != [] {
      var n := |lines| - 1;
      NoiseIsSkipped(r, lines[..n]);
      if Noise(lines[n]) {
        assert WithoutNoise(lines) == WithoutNoise(lines[..n]);
      } else {
        assert WithoutNoise(lines)[..|WithoutNoise(lines)| - 1] == WithoutNoise(lines[..n]);
      }
    }
  }

  /** Whatever lines of other output stand between, the parser reads back the reports that were
      printed, with the values it strips at the end. */
  lemma LegacyReportsAreRead(lines: seq<string>, batch: seq<seq<string>>)
    requires forall i | 0 <= i < |batch| :: |batch[i]| == |FIELDS|
    requires forall i | 0 <= i < |lines| :: OneLine(lines[i], BREAKS)
    requires WithoutNoise(lines) == AllPrinted(batch)
    ensures Reports(Lines(Text(lines), BREAKS)) == AllReports(batch)
  {
    hide AllPrinted, WithoutNoise, After;
    LinesOfText(lines, BREAKS);
    NoiseIsSkipped(START, lines);
    BatchIsRead(batch);
  }

  lemma FieldsDiffer()
    ensures forall i, j | 0 <= i < j < |FIELDS| :: FIELDS[i] != FIELDS[j]
  {
  }

  lemma {:induction false} FieldOfReport(fields: seq<string>, values: seq<string>, i: nat)
    requires |fields| == |values| && i < |fields|
    requires forall j, k | 0 <= j < k < |fields| :: fields[j] != fields[k]
    ensures fields[i] in ReportOf(fields, values) && ReportOf(fields, values)[fields[i]] == values[i]
  {
    var n := |fields| - 1;
    if i < n {
      FieldOfReport(fields[..n], values[..n], i);
    }
  }

  /** What a transfer reported. */
  function Original(values: seq<string>): Report
    requires |values| == |FIELDS|
  {
    ReportOf(FIELDS, values)
  }

  predicate Clean(value: string) {
    value == "" || !IsSpace(value[|value| - 1])
  }

  lemma CleanReports(fields: seq<string>, values: seq<string>)
    requires |fields| == |values|
    requires forall j, k | 0 <= j < k < |fields| :: fields[j] != fields[k]
    ensures ReportOf(fields, Stripped(values)) == ReportOf(fields, values)
            <==> forall i | 0 <= i < |values| :: Clean(values[i])
  {
    hide ReportOf, StripRight, Clean;
    var stripped := Stripped(values);
    forall i | 0 <= i < |values| ensures stripped[i] == values[i] <==> Clean(values[i]) {
      StripRightKeeps(values[i]);
    }
    if ReportOf(fields, stripped) == ReportOf(fields, values) {
      forall i | 0 <= i < |values| ensures stripped[i] == values[i] {
        FieldOfReport(fields, stripped, i);
        FieldOfReport(fields, values, i);
      }
    }
    if forall i | 0 <= i < |values| :: stripped[i] == values[i] {
      assert stripped == values;
    }
  }

  /** So the parser inverts the printer exactly on values without trailing white space. */
  lemma LegacyRoundTrip(lines: seq<string>, values: seq<string>)
    requires |values| == |FIELDS|
    requires forall i | 0 <= i < |lines| :: OneLine(lines[i], BREAKS)
    requires WithoutNoise(lines) == Printed(values)
    ensures Reports(Lines(Text(lines), BREAKS)) == [Original(values)]
            <==> forall i | 0 <= i < |values| :: Clean(values[i])
  {
    hide *;
    OneReport(lines, values);
    CleanFieldReports(values);
  }

  lemma CleanFieldReports(values: seq<string>)
    requires |values| == |FIELDS|
    ensures [ReportOf(FIELDS, Stripped(values))] == [Original(values)]
            <==> forall i | 0 <= i < |values| :: Clean(values[i])
  {
    hide ReportOf, Stripped, Clean;
    FieldsDiffer();
    CleanReports(FIELDS, values);
  }

  lemma OneReport(lines: seq<string>, values: seq<string>)
    requires |values| == |FIELDS|
    requires forall i | 0 <= i < |lines| :: OneLine(lines[i], BREAKS)
    requires WithoutNoise(lines) == Printed(values)
    ensures Reports(Lines(Text(lines), BREAKS)) == [ReportOf(FIELDS, Stripped(values))]
  {
    hide WithoutNoise, Printed, Lines, Reports, ReportOf, Stripped, AllPrinted, OneLine;
    OnlyReport(values);
    LegacyReportsAreRead(lines, [values]);
  }

  lemma OnlyReport(values: seq<string>)
    requires |values| == |FIELDS|
    ensures AllPrinted([values]) == Printed(values)
    ensures AllReports([values]) == [ReportOf(FIELDS, Stripped(values))]
  {
    hide Printed, ReportOf, Stripped;
    var none: seq<seq<string>> := [];
    assert [values][..0] == none;
    assert AllPrinted([values]) == AllPrinted(none) + Printed(values);
    assert AllReports([values]) == AllReports(none) + [ReportOf(FIELDS, Stripped(values))];
  }

  lemma {:induction false} StripRightKeeps(s: string)
    ensures StripRight(s) == s <==> Clean(s)
    ensures |StripRight(s)| <= |s|
  {
    if s != "" && IsSpace(s[|s| - 1]) {
      StripRightKeeps(s[..|s| - 1]);
    }
  }

  // ---- the JSON format -------------------------------------------------------------------------------

  /** What the decoder finds at the start of a text, and where that ends. */
  datatype Found<+T> = Object(value: T) | NotAnObject

  type Decoder<!T> = string -> Option<(Found<T>, nat)>

  /** A decoder consumes something, and no more than there is. */
  ghost predicate Consumes<T(!new)>(decode: Decoder<T>) {
    forall s: string :: decode(s).Some? ==> 0 < decode(s).value.1 <= |s|
  }

  /** The first '{' at or after an index, or the length. */
  function FindBrace(text: string, index: nat): (start: nat)
    requires index <= |text|
    ensures index <= start <= |text|
    ensures forall i | index <= i < start :: text[i] != '{'
    ensures start < |text| ==> text[start] == '{'
    decreases |text| - index
  {
    if index == |text| || text[index] == '{' then index else FindBrace(text, index + 1)
  }

  /** One round of the scan: what it finds, if anything, and where it goes on. */
  function Round<T(!new)>(decode: Decoder<T>, text: string, index: nat): (r: Option<(seq<T>, nat)>)
    requires Consumes(decode) && index <= |text|
    ensures r.Some? ==> index < r.value.1 <= |text|
  {
    var start := FindBrace(text, index);
    if start == |text| then None
    else
      match decode(text[start..])
      case None => Some(([], start + 1))
      case Some((found, length)) => Some((if found.Object? then [found.value] else [], start + length))
  }

  /** The objects found from an index on. */
  function Scan<T(!new)>(decode: Decoder<T>, text: string, index: nat): seq<T>
    requires Consumes(decode) && index <= |text|
    decreases |text| - index
  {
    match Round(decode, text, index)
    case None => []
    case Some((found, next)) => found + Scan(decode, text, next)
  }

  /** _parse_json_reports: it comes to an end, whatever the text. */
  method ParseJsonReports<T(!new)>(decode: Decoder<T>, text: string) returns (reports: seq<T>)
    requires Consumes(decode)
    ensures reports == Scan(decode, text, 0)
  {
    hide Consumes, Scan, FindBrace;
    reports := [];
    var index := 0;
    while index < |text|
      invariant index <= |text|
      invariant reports + Scan(decode, text, index) == Scan(decode, text, 0)
      decreases |text| - index
    {
      ScanStep(decode, text, index);
      var start := FindBrace(text, index);
      if start == |text| {
        break;
      }
      Taken(decode, text[start..]);
      match decode(text[start..])
      case None =>
        index := start + 1;
      case Some((found, length)) =>
        ghost var rest := Scan(decode, text, start + length);
        if found.Object? {
          assert reports + ([found.value] + rest) == reports + [found.value] + rest;
          reports := reports + [found.value];
        }
        index := start + length;
    }
    if index == |text| {
      ScanStep(decode, text, index);
    }
  }

  lemma Taken<T(!new)>(decode: Decoder<T>, s: string)
    requires Consumes(decode)
    ensures decode(s).Some? ==> 0 < decode(s).value.1 <= |s|
  {
  }

  lemma ScanStep<T(!new)>(decode: Decoder<T>, text: string, index: nat)
    requires Consumes(decode) && index <= |text|
    ensures var start := FindBrace(text, index);
            if start == |text| then Scan(decode, text, index) == []
            else
              match decode(text[start..])
              case None => Scan(decode, text, index) == Scan(decode, text, start + 1)
              case Some((found, length)) =>
                0 < length <= |text| - start
                && Scan(decode, text, index)
                   == (if found.Object? then [found.value] else []) + Scan(decode, text, start + length)
  {
  }

  /** The decoder reads back exactly what was printed, whatever follows it. */
  ghost predicate PrefixExact<T(!new)>(decode: Decoder<T>, show: T -> string) {
    forall x: T, rest: string ::
      show(x) != "" && show(x)[0] == '{' && decode(show(x) + rest) == Some((Object(x), |show(x)|))
  }

  /** Objects printed with other output before, between and after them. */
  function Output<T>(show: T -> string, noise: seq<string>, objects: seq<T>): string
    requires |noise| == |objects| + 1
  {
    if objects == [] then noise[0] else noise[0] + show(objects[0]) + Output(show, noise[1..], objects[1..])
  }

  /** Other output in which the decoder finds nothing, seen with what follows it. */
  predicate Inert<T>(decode: Decoder<T>, noise: string, rest: string) {
    forall i | 0 <= i < |noise| :: noise[i] == '{' ==> decode((noise + rest)[i..]).None?
  }

  predicate AllInert<T>(decode: Decoder<T>, show: T -> string, noise: seq<string>, objects: seq<T>)
    requires |noise| == |objects| + 1
  {
    if objects == [] then Inert(decode, noise[0], "")
    else Inert(decode, noise[0], show(objects[0]) + Output(show, noise[1..], objects[1..]))
         && AllInert(decode, show, noise[1..], objects[1..])
  }

  lemma {:induction false} SkipsInert<T(!new)>(decode: Decoder<T>, noise: string, rest: string, i: nat)
    requires Consumes(decode) && Inert(decode, noise, rest) && i <= |noise|
    ensures Scan(decode, noise + rest, i) == Scan(decode, noise + rest, |noise|)
    decreases |noise| - i
  {
    hide Consumes, Scan;
    var text := noise + rest;
    if i < |noise| {
      SkipsInert(decode, noise, rest, i + 1);
      assert text[i] == noise[i];
      ScanStep(decode, text, i);
      ScanStep(decode, text, i + 1);
    }
  }

  /** Scanning from an index is scanning the rest. */
  lemma {:induction false} ScanOfRest<T(!new)>(decode: Decoder<T>, before: string, text: string, i: nat)
    requires Consumes(decode) && i <= |text|
    ensures Scan(decode, before + text, |before| + i) == Scan(decode, text, i)
    decreases |text| - i
  {
    hide Consumes, Scan, FindBrace;
    var whole := before + text;
    FindInRest(before, text, i);
    ScanStep(decode, whole, |before| + i);
    ScanStep(decode, text, i);
    var start := FindBrace(text, i);
    if start < |text| {
      assert whole[|before| + start..] == text[start..];
      match decode(text[start..])
      case None => ScanOfRest(decode, before, text, start + 1);
      case Some((_, length)) => ScanOfRest(decode, before, text, start + length);
    }
  }

  lemma {:induction false} FindInRest(before: string, text: string, i: nat)
    requires i <= |text|
    ensures FindBrace(before + text, |before| + i) == |before| + FindBrace(text, i)
    decreases |text| - i
  {
    if i < |text| && text[i] != '{' {
      FindInRest(before, text, i + 1);
    }
  }

  /** A printed object is found, and the scan goes on behind it. */
  lemma ShownIsFound<T(!new)>(decode: Decoder<T>, show: T -> string, x: T, rest: string)
    requires Consumes(decode) && PrefixExact(decode, show)
    ensures Scan(decode, show(x) + rest, 0) == [x] + Scan(decode, rest, 0)
  {
    hide Consumes, Scan;
    var text := show(x) + rest;
    assert text[0..] == text && text[0] == '{';
    ScanStep(decode, text, 0);
    ScanOfRest(decode, show(x), rest, 0);
  }

  lemma NothingLeft<T(!new)>(decode: Decoder<T>, text: string)
    requires Consumes(decode)
    ensures Scan(decode, text, |text|) == []
  {
  }

  /** The scanner returns exactly the printed objects, in order. */
  lemma {:induction false} ScanInvertsOutput<T(!new)>(decode: Decoder<T>, show: T -> string, noise: seq<string>,
                                                        objects: seq<T>)
    requires |noise| == |objects| + 1
    requires Consumes(decode) && PrefixExact(decode, show) && AllInert(decode, show, noise, objects)
    ensures Scan(decode, Output(show, noise, objects), 0) == objects
    decreases |objects|
  {
    hide Consumes, Scan, PrefixExact, Inert;
    var first := noise[0];
    if objects == [] {
      SkipsInert(decode, first, "", 0);
      NothingLeft(decode, first);
      assert first + "" == first;
    } else {
      var later := Output(show, noise[1..], objects[1..]);
      var tail := show(objects[0]) + later;
      assert Output(show, noise, objects) == first + tail;
      SkipsInert(decode, first, tail, 0);
      ScanOfRest(decode, first, tail, 0);
      ShownIsFound(decode, show, objects[0], later);
      ScanInvertsOutput(decode, show, noise[1..], objects[1..]);
    }
  }

  /** In particular when the other output has no '{'. */
  lemma {:induction false} BraceFreeIsInert<T(!new)>(decode: Decoder<T>, show: T -> string, noise: seq<string>,
                                                       objects: seq<T>)
    requires |noise| == |objects| + 1 && forall i | 0 <= i < |noise| :: '{' !in noise[i]
    ensures AllInert(decode, show, noise, objects)
    decreases |objects|
  {
    assert '{' !in noise[0];
    if objects != [] {
      BraceFreeIsInert(decode, show, noise[1..], objects[1..]);
    }
  }
}

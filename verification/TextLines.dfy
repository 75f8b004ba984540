/** Lines of text and the white space around them. */
module TextLines {

  /** White space as `strip` sees it, up to U+00A0. */
  predicate IsSpace(c: char) {
    var n := c as int;
    9 <= n <= 13 || 28 <= n <= 32 || n == 0x85 || n == 0xA0
  }

  lemma SpacesAre(c: char)
    ensures IsSpace(c)
            <==> c == ' ' || c == '\t' || c == '\n' || c == '\r'
                 || c as int in {0x0B, 0x0C, 0x1C, 0x1D, 0x1E, 0x1F, 0x85, 0xA0}
  {
  }

  function StripLeft(s: string): string {
    if s != "" && IsSpace(s[0]) then StripLeft(s[1..]) else s
  }

  function StripRight(s: string): string {
    if s != "" && IsSpace(s[|s| - 1]) then StripRight(s[..|s| - 1]) else s
  }

  function Strip(s: string): string {
    StripRight(StripLeft(s))
  }

  /** The text up to the first line break. */
  function FirstLine(text: string, breaks: char -> bool): (line: string)
    ensures |line| <= |text| && line == text[..|line|]
    ensures forall c | c in line :: !breaks(c)
    ensures |line| < |text| ==> breaks(text[|line|])
  {
    if text == "" || breaks(text[0]) then "" else [text[0]] + FirstLine(text[1..], breaks)
  }

  /** Every break ends a line. A carriage return with a line feed after it is two of them here, which
      adds an empty line. */
  function Lines(text: string, breaks: char -> bool): seq<string>
    decreases |text|
  {
    if text == "" then []
    else
      var line := FirstLine(text, breaks);
      [line] + if |line| < |text| then Lines(text[|line| + 1..], breaks) else []
  }

  predicate OneLine(text: string, breaks: char -> bool) {
    forall c | c in text :: !breaks(c)
  }

  /** The lines with a line feed after each. */
  function Text(lines: seq<string>): string {
    if lines == [] then "" else lines[0] + "\n" + Text(lines[1..])
  }

  lemma {:induction false} FirstLineStops(line: string, rest: string, breaks: char -> bool)
    requires OneLine(line, breaks) && breaks('\n')
    ensures FirstLine(line + "\n" + rest, breaks) == line
  {
    var text := line + "\n" + rest;
    if line != "" {
      assert text[0] == line[0] && line[0] in line;
      assert text[1..] == line[1..] + "\n" + rest;
      FirstLineStops(line[1..], rest, breaks);
    }
  }

  lemma LinesStep(line: string, rest: string, breaks: char -> bool)
    requires OneLine(line, breaks) && breaks('\n')
    ensures Lines(line + "\n" + rest, breaks) == [line] + Lines(rest, breaks)
  {
    var text := line + "\n" + rest;
    FirstLineStops(line, rest, breaks);
    assert text[|line| + 1..] == rest;
  }

  lemma {:induction false} LinesOfText(lines: seq<string>, breaks: char -> bool)
    requires breaks('\n') && forall i | 0 <= i < |lines| :: OneLine(lines[i], breaks)
    ensures Lines(Text(lines), breaks) == lines
  {
    hide OneLine;
    if lines != [] {
      LinesStep(lines[0], Text(lines[1..]), breaks);
      LinesOfText(lines[1..], breaks);
    }
  }

  lemma {:induction false} StripRightStops(prefix: string, s: string)
    requires prefix != "" && !IsSpace(prefix[|prefix| - 1])
    ensures StripRight(prefix + s) == prefix + StripRight(s)
  {
    var text := prefix + s;
    if s == "" {
      assert text == prefix;
    } else if IsSpace(s[|s| - 1]) {
      assert text[..|text| - 1] == prefix + s[..|s| - 1];
      StripRightStops(prefix, s[..|s| - 1]);
    }
  }
}

/** The "Last updated" block: the README's lines, as `readlines` gives
    them, get their first line starting with "Last updated:" replaced by
    the new stamp line, or the stamp line appended when there is none. */
module LastUpdated {
  import opened Text

  const MARKER := "Last updated:"

  /** `f"Last updated: {date_time_str}\n"`. */
  function StampLine(stamp: string): (line: string)
    ensures IsStampLine(line)
  {
    MARKER + " " + stamp + "\n"
  }

  predicate IsStampLine(line: string) {
    StartsWith(line, MARKER)
  }

  /** The position of the first stamp line, or `|lines|` when there is none. */
  function FirstStamp(lines: seq<string>): (k: nat)
    ensures k <= |lines|
    ensures k < |lines| ==> IsStampLine(lines[k])
    ensures forall j :: 0 <= j < k ==> !IsStampLine(lines[j])
  {
    if lines == [] then 0
    else if IsStampLine(lines[0]) then 0
    else 1 + FirstStamp(lines[1..])
  }

  /** The lines the script writes back. */
  function WithStamp(lines: seq<string>, stamp: string): seq<string> {
    var k := FirstStamp(lines);
    if k < |lines| then lines[k := StampLine(stamp)] else lines + [StampLine(stamp)]
  }

  /** The `for i, line in enumerate(lines)` loop with its `break` on the
      first match, then the append when nothing matched. */
  method UpdateStamp(lines: seq<string>, stamp: string) returns (result: seq<string>)
    ensures result == WithStamp(lines, stamp)
  {
    result := lines;
    var updated := false;
    var i := 0;
    while i < |result|
      invariant 0 <= i <= |result|
      invariant result == lines && !updated
      invariant forall j :: 0 <= j < i ==> !IsStampLine(lines[j])
    {
      if StartsWith(result[i], MARKER) {
        result := result[i := StampLine(stamp)];
        updated := true;
        break;
      }
      i := i + 1;
    }
    if !updated {
      result := result + [StampLine(stamp)];
    }
  }

  /** With a stamp line present, only the first one is replaced and the
      number of lines is unchanged; without one, exactly one line is added
      at the end and the existing lines stay as they were. */
  lemma StampShape(lines: seq<string>, stamp: string)
    ensures var r := WithStamp(lines, stamp);
      if exists i :: 0 <= i < |lines| && IsStampLine(lines[i]) then
        var k := FirstStamp(lines);
        |r| == |lines| && k < |lines| && r[k] == StampLine(stamp)
        && (forall j :: 0 <= j < k ==> !IsStampLine(lines[j]))
        && (forall j :: 0 <= j < |lines| && j != k ==> r[j] == lines[j])
      else
        r == lines + [StampLine(stamp)]
  {
    if exists i :: 0 <= i < |lines| && IsStampLine(lines[i]) {
      var i :| 0 <= i < |lines| && IsStampLine(lines[i]);
      assert FirstStamp(lines) <= i;
    }
  }

  /** After an update the first stamp line is where it was before, or the
      appended last line. */
  lemma FirstStampAfter(lines: seq<string>, stamp: string)
    ensures FirstStamp(WithStamp(lines, stamp)) == FirstStamp(lines)
  {
    var k := FirstStamp(lines);
    var r := WithStamp(lines, stamp);
    assert forall j :: 0 <= j < k ==> r[j] == lines[j];
    FirstStampAt(r, k);
  }

  lemma {:induction false} FirstStampAt(lines: seq<string>, k: nat)
    requires k < |lines| && IsStampLine(lines[k])
    requires forall j :: 0 <= j < k ==> !IsStampLine(lines[j])
    ensures FirstStamp(lines) == k
  {
    if k > 0 {
      assert !IsStampLine(lines[0]);
      assert forall j :: 0 <= j < k - 1 ==> lines[1..][j] == lines[j + 1];
      FirstStampAt(lines[1..], k - 1);
    }
  }

  /** Running the update again replaces the line the first run wrote, so
      only the latest stamp survives and no second line is added. */
  lemma StampRerun(lines: seq<string>, first: string, second: string)
    ensures WithStamp(WithStamp(lines, first), second) == WithStamp(lines, second)
  {
    FirstStampAfter(lines, first);
  }

  // ---------------------------------------------------------------------
  // The file between runs: readlines and writelines
  // ---------------------------------------------------------------------

  /** The length of the first line `readlines` cuts from `text`: up to and
      including the first newline, or all of `text` when it has none. */
  function LineLength(text: string): (n: nat)
    requires text != []
    ensures 0 < n <= |text|
    ensures forall i :: 0 <= i < n - 1 ==> text[i] != '\n'
    ensures n == |text| || text[n - 1] == '\n'
  {
    if text[0] == '\n' || |text| == 1 then 1 else 1 + LineLength(text[1..])
  }

  /** `file.readlines()`: the text cut after each newline; a last piece
      without a newline is a line too. */
  function ReadLines(text: string): seq<string>
    decreases |text|
  {
    if text == [] then []
    else
      var n := LineLength(text);
      [text[..n]] + ReadLines(text[n..])
  }

  /** `file.writelines(lines)`: the lines written one after another. */
  function WriteLines(lines: seq<string>): string {
    Flatten(lines)
  }

  /** A line as `readlines` gives it from a text that ends with a newline. */
  predicate IsLine(line: string) {
    |line| > 0 && line[|line| - 1] == '\n'
    && forall i :: 0 <= i < |line| - 1 ==> line[i] != '\n'
  }

  predicate AllLines(lines: seq<string>) {
    forall k :: 0 <= k < |lines| ==> IsLine(lines[k])
  }

  /** The README after one run of the block on the text `text`. */
  function Run(text: string, stamp: string): string {
    WriteLines(WithStamp(ReadLines(text), stamp))
  }

  lemma LineLengthOf(line: string, rest: string)
    requires IsLine(line)
    ensures LineLength(line + rest) == |line|
  {
    var n := LineLength(line + rest);
    assert forall i :: 0 <= i < |line| ==> (line + rest)[i] == line[i];
  }

  /** Reading back what `writelines` wrote gives the same lines, as long
      as each of them ends with its newline. */
  lemma {:induction false} ReadWritten(lines: seq<string>)
    requires AllLines(lines)
    ensures ReadLines(WriteLines(lines)) == lines
  {
    if lines != [] {
      var line, rest := lines[0], WriteLines(lines[1..]);
      assert WriteLines(lines) == line + rest;
      LineLengthOf(line, rest);
      assert (line + rest)[..|line|] == line && (line + rest)[|line|..] == rest;
      assert AllLines(lines[1..]) by {
        assert forall k :: 0 <= k < |lines[1..]| ==> lines[1..][k] == lines[k + 1];
      }
      ReadWritten(lines[1..]);
      assert [line] + lines[1..] == lines;
    }
  }

  /** A text that is empty or ends with a newline reads as whole lines. */
  lemma {:induction false} ReadWholeLines(text: string)
    requires text == [] || text[|text| - 1] == '\n'
    ensures AllLines(ReadLines(text))
    decreases |text|
  {
    if text != [] {
      var n := LineLength(text);
      assert text[..n][n - 1] == '\n';
      var rest := text[n..];
      assert rest == [] || rest[|rest| - 1] == text[|text| - 1];
      ReadWholeLines(rest);
      var first := [text[..n]];
      assert ReadLines(text) == first + ReadLines(rest);
    }
  }

  lemma StampIsLine(stamp: string)
    requires '\n' !in stamp
    ensures IsLine(StampLine(stamp))
  {
    var line := StampLine(stamp);
    assert forall i :: 0 <= i < |line| - 1 ==> line[i] == (MARKER + " " + stamp)[i];
  }

  lemma StampKeepsLines(lines: seq<string>, stamp: string)
    requires AllLines(lines) && '\n' !in stamp
    ensures AllLines(WithStamp(lines, stamp))
  {
    StampIsLine(stamp);
  }

  /** For a README that ends with a newline and stamps without one, a
      second run of the script on the file the first run wrote replaces
      the first run's stamp line and adds no line. */
  lemma RunTwice(text: string, first: string, second: string)
    requires text == [] || text[|text| - 1] == '\n'
    requires '\n' !in first && '\n' !in second
    ensures Run(Run(text, first), second) == Run(text, second)
  {
    var lines := ReadLines(text);
    ReadWholeLines(text);
    StampKeepsLines(lines, first);
    ReadWritten(WithStamp(lines, first));
    StampRerun(lines, first, second);
  }

  /** A README of one line with no newline at its end, which is not a
      stamp line, gets the stamp glued onto that line; the next run finds
      no stamp line and appends a second stamp. */
  lemma GluedStamp(text: string, first: string, second: string)
    requires text != [] && '\n' !in text && '\n' !in first
    requires !IsStampLine(text)
    ensures Run(text, first) == text + StampLine(first)
    ensures Run(Run(text, first), second) == text + StampLine(first) + StampLine(second)
  {
    var line := StampLine(first);
    var glued := text + line;
    SingleLine(text);
    assert WithStamp([text], first) == [text, line];
    WriteTwo(text, line);
    GluedIsOneLine(text, first);
    SingleLine(glued);
    GluedNotStamp(text, first);
    assert WithStamp([glued], second) == [glued, StampLine(second)];
    WriteTwo(glued, StampLine(second));
  }

  /** A line that is not a stamp line stays one with a stamp glued on: a
      long line keeps its own first characters, and in a short one the
      stamp's 'L' lands where the marker has another character. */
  lemma GluedNotStamp(text: string, stamp: string)
    requires text != [] && !IsStampLine(text)
    ensures !IsStampLine(text + StampLine(stamp))
  {
    var line := StampLine(stamp);
    var glued := text + line;
    if |text| >= |MARKER| {
      assert glued[..|MARKER|] == text[..|MARKER|];
    } else {
      assert line[0] == 'L' && glued[|text|] == line[0];
      assert forall k :: 1 <= k < |MARKER| ==> MARKER[k] != 'L';
    }
  }

  /** A text with no newline before its last character reads as one line. */
  lemma SingleLine(text: string)
    requires text != [] && forall i :: 0 <= i < |text| - 1 ==> text[i] != '\n'
    ensures ReadLines(text) == [text]
  {
    assert LineLength(text) == |text|;
    assert text[..|text|] == text && text[|text|..] == [];
  }

  lemma WriteTwo(a: string, b: string)
    ensures WriteLines([a, b]) == a + b
  {
    assert Flatten([a, b]) == a + Flatten([b]);
    assert Flatten([b]) == b + Flatten([]);
  }

  lemma GluedIsOneLine(text: string, stamp: string)
    requires '\n' !in text && '\n' !in stamp
    ensures var glued := text + StampLine(stamp);
      glued != [] && forall i :: 0 <= i < |glued| - 1 ==> glued[i] != '\n'
  {
    var line := StampLine(stamp);
    var glued := text + line;
    assert forall i :: 0 <= i < |line| - 1 ==> line[i] == (MARKER + " " + stamp)[i];
    assert forall i :: 0 <= i < |text| ==> glued[i] == text[i];
    assert forall i :: |text| <= i < |glued| ==> glued[i] == line[i - |text|];
  }
}

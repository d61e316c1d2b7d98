/**
 * boxify: the frame drawn around generated code on the console. The width is the longest
 * line, capped at the terminal's column count minus four; longer lines are cut and end in
 * "...", shorter ones are padded with spaces.
 */
module ConsoleBox {
  import opened Wrappers
  import opened Text

  const Green := "\U{1B}[32m"
  const Reset := "\U{1B}[0m"

  /** process.stdout.columns: a number on a terminal, undefined otherwise. */
  datatype Columns = Columns(count: int) | Undefined

  /** Math.max(...lengths) over a non-empty list of lines. */
  function MaxLength(lines: seq<string>): (m: nat)
    ensures forall i :: 0 <= i < |lines| ==> |lines[i]| <= m
    ensures lines != [] ==> exists i :: 0 <= i < |lines| && |lines[i]| == m
  {
    if lines == [] then 0
    else
      var rest := MaxLength(lines[1..]);
      assert forall i :: 1 <= i < |lines| ==> lines[i] == lines[1..][i - 1];
      if |lines[0]| >= rest then |lines[0]| else rest
  }

  /** Math.min(maxLength, columns - 4); None stands for NaN, which undefined - 4 is. */
  function Width(lines: seq<string>, columns: Columns): (w: Option<int>)
    ensures columns.Undefined? <==> w.None?
    ensures columns.Columns? ==> w.value <= MaxLength(lines) && w.value <= columns.count - 4
    ensures columns.Columns? ==> w.value == MaxLength(lines) || w.value == columns.count - 4
  {
    match columns
    case Undefined => None
    case Columns(c) => Some(if MaxLength(lines) <= c - 4 then MaxLength(lines) else c - 4)
  }

  /** s.substring(0, end): the end is clamped into [0, |s|]. */
  function Prefix(s: string, end: int): (r: string)
    ensures StartsWith(s, r)
    ensures |r| == if end <= 0 then 0 else if end >= |s| then |s| else end
  {
    if end <= 0 then [] else if end >= |s| then s else s[..end]
  }

  /** A line as it appears in a row of width w. */
  function Fit(line: string, w: int): string {
    if |line| > w then Prefix(line, w - 3) + "..." else PadEnd(line, w)
  }

  /** The body of a row: with a NaN width the comparison is false and padEnd adds nothing. */
  function Row(line: string, width: Option<int>): string {
    "│ " + (match width case None => line case Some(w) => Fit(line, w)) + " │"
  }

  function Rows(lines: seq<string>, width: Option<int>): (r: seq<string>)
    ensures |r| == |lines| && forall i :: 0 <= i < |lines| ==> r[i] == Row(lines[i], width)
  {
    seq(|lines|, i requires 0 <= i < |lines| => Row(lines[i], width))
  }

  /** The message of the RangeError that repeat throws for a negative count. */
  function InvalidCount(count: int): string {
    "Invalid count value: " + IntString(count)
  }

  /** '─'.repeat(width + 2) between two corners; a negative count throws a RangeError and
      NaN counts as zero. */
  function Edge(left: char, right: char, width: Option<int>): Result<string> {
    match width
    case None => Success([left, right])
    case Some(w) =>
      if w + 2 < 0 then Failure(InvalidCount(w + 2))
      else Success([left] + Repeat('─', w + 2) + [right])
  }

  function Boxify(text: string, columns: Columns): Result<string> {
    var lines := Split(text, '\n');
    var width := Width(lines, columns);
    match Edge('┌', '┐', width)
    case Failure(e) => Failure(e)
    case Success(top) =>
      match Edge('└', '┘', width)
      case Failure(e) => Failure(e)
      case Success(bottom) =>
        Success(Green + Join([top] + Rows(lines, width) + [bottom], "\n") + Reset)
  }

  /** boxify throws exactly when the terminal is narrower than two columns. */
  lemma BoxifyFails(text: string, columns: Columns)
    ensures Boxify(text, columns).Failure? <==> columns.Columns? && columns.count < 2
  {
  }

  /** On a terminal of fewer than two columns the width is columns - 4, so the error names
      the count columns - 2. */
  lemma BoxifyError(text: string, c: int)
    requires c < 2
    ensures Boxify(text, Columns(c)) == Failure(InvalidCount(c - 2))
  {
  }

  /** With a width of at least three every row has the same length: the width plus the frame. */
  lemma RowLength(line: string, w: int)
    requires w >= 3
    ensures |Fit(line, w)| == w
    ensures |Row(line, Some(w))| == w + 4
  {
  }

  /** A line no longer than the width is shown whole, followed by spaces; a longer one keeps
      its first w - 3 characters and ends in "...". */
  lemma FitShape(line: string, w: int)
    requires w >= 3
    ensures |line| <= w ==> StartsWith(Fit(line, w), line)
                            && forall k :: |line| <= k < w ==> Fit(line, w)[k] == ' '
    ensures |line| > w ==> Fit(line, w) == line[..w - 3] + "..."
  {
  }

  /** On a terminal wide enough for the longest line nothing is cut: every row shows its line
      whole, padded to the longest line's length. */
  lemma WideTerminalShowsLines(text: string, c: int)
    requires c >= MaxLength(Split(text, '\n')) + 4
    ensures var lines := Split(text, '\n');
      var rows := Rows(lines, Width(lines, Columns(c)));
      forall i :: 0 <= i < |lines| ==> rows[i] == "│ " + PadEnd(lines[i], MaxLength(lines)) + " │"
  {
  }

  /** Off a terminal the rows are the lines themselves inside the frame. */
  lemma UndefinedColumnsFrame(text: string)
    ensures var lines := Split(text, '\n');
      Boxify(text, Undefined) == Success(Green + Join(["┌┐"] + Rows(lines, None) + ["└┘"], "\n") + Reset)
      && forall i :: 0 <= i < |lines| ==> Rows(lines, None)[i] == "│ " + lines[i] + " │"
  {
  }
}

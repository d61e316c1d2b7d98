/**
 * The request sent to the completion service: the variable parts of the system and user
 * messages of executeTask, built from the project information, the context and the task.
 * The fixed wording of the two message templates is not reproduced; every value the templates
 * interpolate is.
 */
module Prompting {
  import opened Wrappers
  import opened Text
  import opened ProjectAnalyzer
  import opened ContextBuilder

  const MaxExcerptFiles := 3
  const MaxExcerptLines := 200
  const MaxListed := 10

  /** content.split('\n').slice(0, 200).join('\n') */
  function Excerpt(content: string): string {
    Join(Take(Split(content, '\n'), MaxExcerptLines), "\n")
  }

  /** A string with k line feeds splits into k + 1 lines. */
  lemma {:induction false} SplitCount(s: string, sep: char)
    ensures |Split(s, sep)| == CountChar(s, sep) + 1
  {
    if s != [] {
      SplitCount(s[1..], sep);
    }
  }

  /** Joining the first k parts gives a prefix of joining them all. */
  lemma {:induction false} JoinPrefix(parts: seq<string>, k: nat, sep: string)
    requires k <= |parts|
    ensures StartsWith(Join(parts, sep), Join(parts[..k], sep))
  {
    if k == 1 {
      JoinStarts(parts, sep);
    } else if k > 1 {
      JoinPrefix(parts[1..], k - 1, sep);
      assert parts[..k][1..] == parts[1..][..k - 1];
      var a := Join(parts[1..][..k - 1], sep);
      var b := Join(parts[1..], sep);
      assert b[..|a|] == a;
      assert Join(parts[..k], sep) == parts[0] + sep + a;
      assert Join(parts, sep) == parts[0] + sep + b;
      assert (parts[0] + sep + b)[..|parts[0] + sep + a|] == parts[0] + sep + a;
    }
  }

  /** An excerpt is a prefix of the file, has at most 200 lines, and is the whole file when the
      file has at most 200 lines. */
  lemma ExcerptFacts(content: string)
    ensures StartsWith(content, Excerpt(content))
    ensures |Split(Excerpt(content), '\n')| <= MaxExcerptLines
    ensures CountChar(content, '\n') < MaxExcerptLines ==> Excerpt(content) == content
  {
    var lines := Split(content, '\n');
    var kept := Take(lines, MaxExcerptLines);
    JoinSplit(content, '\n');
    JoinPrefix(lines, |kept|, "\n");
    SplitJoin(kept, '\n');
    SplitCount(content, '\n');
    assert lines[..|lines|] == lines;
  }

  /** The excerpts of the first three entries of fileContents, in order. */
  function Excerpts(d: Dict): (r: Dict)
    ensures |r| == (if |d| < MaxExcerptFiles then |d| else MaxExcerptFiles)
    ensures forall i :: 0 <= i < |r| ==> r[i] == (d[i].0, Excerpt(d[i].1))
  {
    var first := Take(d, MaxExcerptFiles);
    seq(|first|, i requires 0 <= i < |first| => (first[i].0, Excerpt(first[i].1)))
  }

  /** list.join(', ') || 'None detected' */
  function OrNoneDetected(s: string): string {
    if s == "" then "None detected" else s
  }

  /** The values the two message templates interpolate. */
  datatype Prompt = Prompt(
    framework: string,
    routerType: string,
    typeScript: string,
    styling: string,
    stateManagement: string,
    uiLibraries: string,
    taskType: string,
    task: string,
    excerpts: Dict,
    components: string,
    imports: string,
    hooks: string)

  /** A list shown in the additional context: its first ten elements joined with ", ". */
  function Listed(xs: seq<string>): string {
    Join(Take(xs, MaxListed), ", ")
  }

  function BuildPrompt(info: ProjectInfo, ctx: Context, taskType: string, desc: string): (p: Prompt)
    ensures p.typeScript == (if info.hasTypeScript then "Yes" else "No")
    ensures p.stateManagement == "None detected" <==> Join(info.stateManagement, ", ") in {"", "None detected"}
    ensures p.excerpts == Excerpts(ctx.fileContents)
    ensures p.taskType == taskType && p.task == desc
  {
    Prompt(
      info.framework,
      info.routerType,
      if info.hasTypeScript then "Yes" else "No",
      Join(info.styling, ", "),
      OrNoneDetected(Join(info.stateManagement, ", ")),
      OrNoneDetected(Join(info.uiLibraries, ", ")),
      taskType,
      desc,
      Excerpts(ctx.fileContents),
      Listed(ctx.components),
      Listed(ctx.imports),
      Listed(ctx.hooks))
  }
}

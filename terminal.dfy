/**
 * The command interpreter of the Terminal component: a command table merged from the
 * built-in commands and the caller's, an output list, a history of entered lines (newest
 * first, at most 50), a position in that history and the text of the input line.
 * React's state setters are modelled as field updates applied in the order the handlers
 * queue them.
 */
module TerminalShell {
  import opened Wrappers
  import opened Text

  const MaxHistory := 50

  /** A command: the four built-in ones, or one supplied by the caller, which maps the
      arguments to its text or throws (Failure carries the string form of what it threw). */
  datatype Handler = Help | Clear | Echo | Date | Custom(run: seq<string> -> Result<string>)

  /** An object of commands: its keys in enumeration order and the handler of each. */
  datatype Table = Table(keys: seq<string>, handlers: map<string, Handler>)

  ghost predicate WellFormed(t: Table) {
    NoDuplicates(t.keys) && forall k :: k in t.handlers <==> k in t.keys
  }

  /** defaultCommands. */
  const Defaults := Table(["help", "clear", "echo", "date"],
                          map["help" := Help, "clear" := Clear, "echo" := Echo, "date" := Date])

  /** { ...defaults, ...commands }: the keys of the first object, then the new keys of the
      second; a key of both takes the second's handler but keeps its first position. */
  function Merge(defaults: Table, commands: Table): (r: Table)
    requires WellFormed(defaults) && WellFormed(commands)
    ensures WellFormed(r)
  {
    Table(AddAll(defaults.keys, commands.keys), defaults.handlers + commands.handlers)
  }

  /** The caller's commands win over the built-in ones, the other built-in ones stay, and
      the merged object lists the built-in names first, in their order. */
  lemma MergeOverrides(commands: Table)
    requires WellFormed(commands)
    ensures var r := Merge(Defaults, commands);
      && (forall k :: k in r.handlers <==> k in Defaults.handlers || k in commands.handlers)
      && (forall k :: k in commands.handlers ==> r.handlers[k] == commands.handlers[k])
      && (forall k :: k in Defaults.handlers && k !in commands.handlers ==> r.handlers[k] == Defaults.handlers[k])
      && |r.keys| >= 4 && r.keys[..4] == Defaults.keys
  {
    AddAllKeepsPrefix(Defaults.keys, commands.keys);
  }

  lemma {:induction false} AddAllKeepsPrefix(s: seq<string>, xs: seq<string>)
    ensures |s| <= |AddAll(s, xs)| && AddAll(s, xs)[..|s|] == s
    decreases |xs|
  {
    if xs != [] {
      var s' := AddUnique(s, xs[0]);
      assert s'[..|s|] == s;
      AddAllKeepsPrefix(s', xs[1..]);
      assert AddAll(s, xs)[..|s'|][..|s|] == AddAll(s, xs)[..|s|];
    }
  }

  // ---------------------------------------------------------------------------
  // parsing a line

  /** The command name and arguments of a line. */
  datatype Parsed = Parsed(command: string, args: seq<string>)

  /** input.trim().split(' '): the first piece, lower-cased, names the command; the other
      pieces are its arguments. */
  function Parse(input: string): (r: Parsed)
    ensures var pieces := Split(Trim(input), ' ');
      |r.command| == |pieces[0]| && r.args == pieces[1..]
  {
    var pieces := Split(Trim(input), ' ');
    Parsed(Lower(pieces[0]), pieces[1..])
  }

  /** The command name is empty exactly when the line is blank: the same test decides that
      nothing runs and that the line is not kept in the history. */
  lemma ParseBlank(input: string)
    ensures Parse(input).command == [] <==> Trim(input) == []
  {
    var t := Trim(input);
    TrimIsInfix(input);
    if t != [] {
      assert !IsSpace(t[0]);
      SplitFirst(t, ' ');
    }
  }

  lemma {:induction false} SplitFirst(s: string, sep: char)
    requires s != [] && s[0] != sep
    ensures Split(s, sep)[0] != []
  {
  }

  /** The name as typed and the arguments, joined by single spaces, give back the trimmed
      line. */
  lemma ParseRoundTrip(input: string)
    ensures var pieces := Split(Trim(input), ' ');
      && Parse(input).command == Lower(pieces[0])
      && Join([pieces[0]] + Parse(input).args, " ") == Trim(input)
  {
    var pieces := Split(Trim(input), ' ');
    JoinSplit(Trim(input), ' ');
    assert pieces == [pieces[0]] + pieces[1..];
  }

  // ---------------------------------------------------------------------------
  // running a command

  function HelpText(t: Table): string {
    "Available commands: " + Join(t.keys, ", ")
  }

  function NotFoundMessage(command: string): string {
    "Command not found: " + command + ". Type 'help' for available commands."
  }

  function ErrorMessage(error: string): string {
    "Error executing command: " + error
  }

  /** What one handler returns; clear empties the output before it returns "". */
  function Run(t: Table, h: Handler, args: seq<string>, now: string): (r: Result<string>)
    ensures h.Clear? ==> r == Success("")
    ensures h.Echo? ==> r == Success(Join(args, " "))
    ensures h.Custom? ==> r == h.run(args)
  {
    match h
    case Help => Success(HelpText(t))
    case Clear => Success("")
    case Echo => Success(Join(args, " "))
    case Date => Success(now)
    case Custom(run) => run(args)
  }

  /** The four pieces of component state. */
  datatype Screen = Screen(output: seq<string>, currentInput: string, history: seq<string>, historyIndex: int)

  /** The states the handlers can reach: the position is -1 or an index of the history. */
  predicate InRange(sc: Screen) {
    -1 <= sc.historyIndex < |sc.history| && |sc.history| <= MaxHistory
  }

  /** The line executeCommand adds after the echo: the result, the error or the not-found
      message; none for a blank line or an empty result. */
  function OutputTail(t: Table, input: string, now: string): (r: seq<string>)
    ensures |r| <= 1
  {
    var p := Parse(input);
    if p.command == [] then []
    else if p.command in t.handlers then
      match Run(t, t.handlers[p.command], p.args, now)
      case Success(text) => if text != [] then [text] else []
      case Failure(error) => [ErrorMessage(error)]
    else [NotFoundMessage(p.command)]
  }

  /** The output of executeCommand: the echo of the line (which clear wipes), then the line
      the command gives, if any. */
  function CommandOutput(prompt: string, t: Table, output: seq<string>, input: string, now: string): seq<string> {
    var p := Parse(input);
    var cleared := p.command != [] && p.command in t.handlers && t.handlers[p.command].Clear?;
    (if cleared then [] else output + [prompt + " " + input]) + OutputTail(t, input, now)
  }

  /** executeCommand on a state. */
  function Executed(prompt: string, t: Table, sc: Screen, input: string, now: string): (r: Screen)
    ensures r.currentInput == [] && r.historyIndex == -1
    ensures Trim(input) == [] ==> r.history == sc.history
    ensures Trim(input) != [] ==> r.history == Take([input] + sc.history, MaxHistory)
  {
    var history := if Trim(input) != [] then Take([input] + sc.history, MaxHistory) else sc.history;
    Screen(CommandOutput(prompt, t, sc.output, input, now), [], history, -1)
  }

  /** Except after clear, the output keeps every earlier line and then shows the echo of the
      line; a blank line adds only its echo. */
  lemma EchoFirst(prompt: string, t: Table, sc: Screen, input: string, now: string)
    requires var p := Parse(input); !(p.command in t.handlers && t.handlers[p.command].Clear?)
    ensures var out := Executed(prompt, t, sc, input, now).output;
      && |sc.output| < |out| <= |sc.output| + 2
      && (forall i :: 0 <= i < |sc.output| ==> out[i] == sc.output[i])
      && out[|sc.output|] == prompt + " " + input
      && (Trim(input) == [] ==> out == sc.output + [prompt + " " + input])
  {
    var echoed := sc.output + [prompt + " " + input];
    var out := CommandOutput(prompt, t, sc.output, input, now);
    var tail := OutputTail(t, input, now);
    assert out == echoed + tail;
    assert Trim(input) == [] ==> tail == [] by {
      ParseBlank(input);
    }
  }

  /** An unknown command adds the not-found line after its echo, and nothing else. */
  lemma UnknownCommandReported(prompt: string, t: Table, sc: Screen, input: string, now: string)
    requires Parse(input).command != [] && Parse(input).command !in t.handlers
    ensures Executed(prompt, t, sc, input, now).output
         == sc.output + [prompt + " " + input, NotFoundMessage(Parse(input).command)]
  {
  }

  /** A thrown error is shown after the echo; a non-empty result is shown; an empty one is
      not. */
  lemma CustomCommandShown(prompt: string, t: Table, sc: Screen, input: string, now: string)
    requires Parse(input).command != [] && Parse(input).command in t.handlers
    requires t.handlers[Parse(input).command].Custom?
    ensures var echoed := sc.output + [prompt + " " + input];
      var out := Executed(prompt, t, sc, input, now).output;
      match t.handlers[Parse(input).command].run(Parse(input).args)
      case Success(text) => out == if text == [] then echoed else echoed + [text]
      case Failure(error) => out == echoed + [ErrorMessage(error)]
  {
  }

  /** clear leaves the output empty. */
  lemma ClearEmpties(prompt: string, t: Table, sc: Screen, input: string, now: string)
    requires Parse(input).command != [] && Parse(input).command in t.handlers
    requires t.handlers[Parse(input).command].Clear?
    ensures Executed(prompt, t, sc, input, now).output == []
  {
  }

  /** The history only ever grows by the newest line, stays within 50 entries, keeps the
      newest entries first, and the position stays in range. */
  lemma ExecutedInRange(prompt: string, t: Table, sc: Screen, input: string, now: string)
    requires InRange(sc)
    ensures var r := Executed(prompt, t, sc, input, now);
      && InRange(r)
      && (Trim(input) != [] ==> r.history[0] == input && r.history[1..] == sc.history[..|r.history| - 1])
  {
  }

  // ---------------------------------------------------------------------------
  // history navigation

  /** ArrowUp: one entry older, when there is one. */
  function Up(sc: Screen): (r: Screen)
    requires InRange(sc)
    ensures InRange(r) && r.output == sc.output && r.history == sc.history
    ensures sc.historyIndex < |sc.history| - 1 ==>
      r.historyIndex == sc.historyIndex + 1 && r.currentInput == sc.history[r.historyIndex]
    ensures sc.historyIndex == |sc.history| - 1 ==> r == sc
  {
    if |sc.history| > 0 && sc.historyIndex < |sc.history| - 1 then
      sc.(historyIndex := sc.historyIndex + 1, currentInput := sc.history[sc.historyIndex + 1])
    else sc
  }

  /** ArrowDown: one entry newer; from the newest back to an empty line; nothing at -1. */
  function Down(sc: Screen): (r: Screen)
    requires InRange(sc)
    ensures InRange(r) && r.output == sc.output && r.history == sc.history
    ensures sc.historyIndex > 0 ==>
      r.historyIndex == sc.historyIndex - 1 && r.currentInput == sc.history[r.historyIndex]
    ensures sc.historyIndex == 0 ==> r.historyIndex == -1 && r.currentInput == []
    ensures sc.historyIndex == -1 ==> r == sc
  {
    if sc.historyIndex > 0 then
      sc.(historyIndex := sc.historyIndex - 1, currentInput := sc.history[sc.historyIndex - 1])
    else if sc.historyIndex == 0 then sc.(historyIndex := -1, currentInput := [])
    else sc
  }

  /** The line a position shows: the entry, or the empty line at -1. */
  predicate Showing(sc: Screen)
    requires InRange(sc)
  {
    sc.currentInput == if sc.historyIndex == -1 then [] else sc.history[sc.historyIndex]
  }

  /** Going up and back down returns to the same state, as long as the line still shows the
      entry the position points at. */
  lemma UpDownRoundTrip(sc: Screen)
    requires InRange(sc) && Showing(sc) && sc.historyIndex < |sc.history| - 1
    ensures Down(Up(sc)) == sc
  {
  }

  /** Pressing ArrowUp n times from a fresh line shows the n-th newest entry. */
  lemma {:induction false} UpTimes(sc: Screen, n: nat)
    requires InRange(sc) && sc.historyIndex == -1 && n < |sc.history|
    ensures var r := UpN(sc, n + 1);
      r.historyIndex == n && r.currentInput == sc.history[n]
  {
    if n > 0 {
      UpTimes(sc, n - 1);
    }
  }

  function UpN(sc: Screen, n: nat): (r: Screen)
    requires InRange(sc)
    ensures InRange(r) && r.history == sc.history
  {
    if n == 0 then sc else Up(UpN(sc, n - 1))
  }

  // ---------------------------------------------------------------------------
  // the `in` test as written

  /** The properties an object literal inherits from Object.prototype. The command name is
      lower-cased first, so only "constructor" and "__proto__" can reach the test: the first
      calls Object(args), which returns the arguments array, and the second names
      Object.prototype, which is not callable, so the line shows
      "Error executing command: TypeError: ...". */
  const PrototypeNames: set<string> := {
    "constructor", "__proto__", "hasOwnProperty", "isPrototypeOf", "propertyIsEnumerable",
    "toString", "valueOf", "toLocaleString", "__defineGetter__", "__defineSetter__",
    "__lookupGetter__", "__lookupSetter__"}

  /** `command in allCommands`: the own keys and the inherited ones. */
  predicate InAsWritten(t: Table, command: string) {
    command in t.handlers || command in PrototypeNames
  }

  /** The line "constructor" names no command, yet the test lets it through, so it is not
      reported as unknown. */
  lemma PrototypeNameAccepted(t: Table)
    requires "constructor" !in t.handlers
    ensures Parse("constructor").command == "constructor"
    ensures InAsWritten(t, Parse("constructor").command) && Parse("constructor").command !in t.handlers
  {
    var s := "constructor";
    assert forall i :: 0 <= i < |s| ==> 'a' <= s[i] <= 'z';
    ParseWord(s);
  }

  /** A line that is one lower-case word is that command with no arguments. */
  lemma ParseWord(s: string)
    requires s != [] && forall i :: 0 <= i < |s| ==> 'a' <= s[i] <= 'z'
    ensures Parse(s) == Parsed(s, [])
  {
    assert 'a' <= s[0] <= 'z' && 'a' <= s[|s| - 1] <= 'z';
    TrimKeeps(s);
    SplitNoSep(s, ' ');
    var pieces := Split(Trim(s), ' ');
    assert pieces == [s] && pieces[0] == s && pieces[1..] == [];
    LowerKeeps(s);
  }

  lemma LowerKeeps(s: string)
    requires forall i :: 0 <= i < |s| ==> !IsUpper(s[i])
    ensures Lower(s) == s
  {
  }

  lemma TrimKeeps(s: string)
    requires s != [] && !IsSpace(s[0]) && !IsSpace(s[|s| - 1])
    ensures Trim(s) == s
  {
    assert TrimStart(s) == s;
  }

  lemma {:induction false} SplitNoSep(s: string, sep: char)
    requires forall i :: 0 <= i < |s| ==> s[i] != sep
    ensures Split(s, sep) == [s]
  {
    if s != [] {
      SplitNoSep(s[1..], sep);
      assert [s[0]] + s[1..] == s;
    }
  }

  // ---------------------------------------------------------------------------
  // the component

  datatype Key = Enter | ArrowUp | ArrowDown | OtherKey

  class Terminal {
    const prompt: string
    const allCommands: Table
    var output: seq<string>
    var currentInput: string
    var history: seq<string>
    var historyIndex: int

    function Current(): Screen
      reads this
    {
      Screen(output, currentInput, history, historyIndex)
    }

    /** The position is -1 or an index of the history, which holds at most 50 entries. */
    predicate Valid()
      reads this
    {
      InRange(Current())
    }

    /** A fresh terminal: the built-in commands merged with the caller's, nothing shown. */
    constructor (prompt: string, commands: Table)
      requires WellFormed(commands)
      ensures Valid() && WellFormed(allCommands)
      ensures this.prompt == prompt && allCommands == Merge(Defaults, commands)
      ensures Current() == Screen([], [], [], -1)
    {
      this.prompt := prompt;
      allCommands := Merge(Defaults, commands);
      output := [];
      currentInput := [];
      history := [];
      historyIndex := -1;
    }

    method ExecuteCommand(input: string, now: string)
      requires Valid()
      modifies this
      ensures Valid()
      ensures Current() == Executed(prompt, allCommands, old(Current()), input, now)
    {
      output := output + [prompt + " " + input];
      var args := Split(Trim(input), ' ');
      var command := Lower(args[0]);
      var commandArgs := args[1..];
      if command == [] {
      } else if command in allCommands.handlers {
        var handler := allCommands.handlers[command];
        var result: Result<string>;
        match handler {
          case Help => result := Success(HelpText(allCommands));
          case Clear =>
            output := [];
            result := Success([]);
          case Echo => result := Success(Join(commandArgs, " "));
          case Date => result := Success(now);
          case Custom(run) => result := run(commandArgs);
        }
        match result {
          case Success(text) =>
            if text != [] {
              output := output + [text];
            }
          case Failure(error) => output := output + [ErrorMessage(error)];
        }
      } else {
        output := output + [NotFoundMessage(command)];
      }
      if Trim(input) != [] {
        history := Take([input] + history, MaxHistory);
      }
      currentInput := [];
      historyIndex := -1;
    }

    method HandleInputChange(value: string)
      modifies this
      ensures Current() == old(Current()).(currentInput := value)
    {
      currentInput := value;
    }

    method HandleInputKeyDown(key: Key, now: string)
      requires Valid()
      modifies this
      ensures Valid()
      ensures key == Enter ==> Current() == Executed(prompt, allCommands, old(Current()), old(currentInput), now)
      ensures key == ArrowUp ==> Current() == Up(old(Current()))
      ensures key == ArrowDown ==> Current() == Down(old(Current()))
      ensures key == OtherKey ==> Current() == old(Current())
    {
      match key {
        case Enter => ExecuteCommand(currentInput, now);
        case ArrowUp =>
          if |history| > 0 && historyIndex < |history| - 1 {
            var newIndex := historyIndex + 1;
            historyIndex := newIndex;
            currentInput := history[newIndex];
          }
        case ArrowDown =>
          if historyIndex > 0 {
            var newIndex := historyIndex - 1;
            historyIndex := newIndex;
            currentInput := history[newIndex];
          } else if historyIndex == 0 {
            historyIndex := -1;
            currentInput := [];
          }
        case OtherKey =>
      }
    }

    /** The mount effect: each initial command is executed in turn. */
    method RunInitialCommands(initialCommands: seq<string>, times: seq<string>)
      requires Valid() && |times| == |initialCommands|
      modifies this
      ensures Valid()
      ensures Current() == ExecutedAll(prompt, allCommands, old(Current()), initialCommands, times)
    {
      for i := 0 to |initialCommands|
        invariant Valid()
        invariant Current() == ExecutedAll(prompt, allCommands, old(Current()), initialCommands[..i], times[..i])
      {
        ExecutedAllStep(prompt, allCommands, old(Current()), initialCommands, times, i);
        ExecuteCommand(initialCommands[i], times[i]);
      }
      assert initialCommands[..|initialCommands|] == initialCommands;
      assert times[..|times|] == times;
    }
  }

  /** initialCommands.forEach(executeCommand), each line with the clock reading it sees. */
  function ExecutedAll(prompt: string, t: Table, sc: Screen, lines: seq<string>, times: seq<string>): (r: Screen)
    requires |times| == |lines|
    decreases |lines|
  {
    if lines == [] then sc
    else Executed(prompt, t, ExecutedAll(prompt, t, sc, lines[..|lines| - 1], times[..|times| - 1]),
                  lines[|lines| - 1], times[|times| - 1])
  }

  lemma ExecutedAllStep(prompt: string, t: Table, sc: Screen, lines: seq<string>, times: seq<string>, i: nat)
    requires |times| == |lines| && i < |lines|
    ensures ExecutedAll(prompt, t, sc, lines[..i + 1], times[..i + 1])
         == Executed(prompt, t, ExecutedAll(prompt, t, sc, lines[..i], times[..i]), lines[i], times[i])
  {
    assert lines[..i + 1][..i] == lines[..i];
    assert times[..i + 1][..i] == times[..i];
  }

  /** After the initial commands the position is back in range, at -1 with an empty line,
      and the history still holds at most 50 entries. */
  lemma {:induction false} ExecutedAllHistory(prompt: string, t: Table, sc: Screen, lines: seq<string>,
                                              times: seq<string>)
    requires |times| == |lines| && InRange(sc)
    ensures var r := ExecutedAll(prompt, t, sc, lines, times);
      InRange(r) && (lines != [] ==> r.historyIndex == -1 && r.currentInput == [])
    decreases |lines|
  {
    if lines != [] {
      var prev := ExecutedAll(prompt, t, sc, lines[..|lines| - 1], times[..|times| - 1]);
      ExecutedAllHistory(prompt, t, sc, lines[..|lines| - 1], times[..|times| - 1]);
      ExecutedInRange(prompt, t, prev, lines[|lines| - 1], times[|times| - 1]);
    }
  }
}

/**
 * buildContext: what the prompt learns from the selected files. Each regular expression of
 * the source is deterministic (every greedy repetition is followed by a character it cannot
 * consume), so a match at a position is computed by scanning, and the /g exec loop becomes a
 * left-to-right search that resumes at the end of each match.
 */
module ContextBuilder {
  import opened Wrappers
  import opened Text

  // ---------------------------------------------------------------------------
  // scanning primitives

  /** The end of the longest run of characters satisfying P that starts at i. */
  function SpanWhile(s: string, i: nat, P: char -> bool): (j: nat)
    requires i <= |s|
    ensures i <= j <= |s|
    ensures forall k :: i <= k < j ==> P(s[k])
    ensures j == |s| || !P(s[j])
    decreases |s| - i
  {
    if i == |s| || !P(s[i]) then i else SpanWhile(s, i + 1, P)
  }

  /** A run found by other means is the run SpanWhile finds. */
  lemma {:induction false} SpanWhileIs(s: string, i: nat, P: char -> bool, j: nat)
    requires i <= j <= |s|
    requires forall k :: i <= k < j ==> P(s[k])
    requires j == |s| || !P(s[j])
    ensures SpanWhile(s, i, P) == j
    decreases j - i
  {
    if i < j {
      SpanWhileIs(s, i + 1, P, j);
    }
  }

  predicate NotCloseBrace(c: char) { c != '}' }
  predicate IsQuote(c: char) { c == '\'' || c == '"' }
  predicate NotQuote(c: char) { !IsQuote(c) }

  // ---------------------------------------------------------------------------
  // import statements

  /** The three forms the import pattern accepts: a braced list, a namespace, a default. */
  datatype Clause = Named(list: string) | Namespace(name: string) | Default(name: string)

  datatype ImportMatch = ImportMatch(end: nat, clause: Clause, source: string)

  /** The clause part of the pattern at b: {[^}]+} | \*\s+as\s+[a-zA-Z0-9_]+ | [a-zA-Z0-9_]+,
      with the index just past it. */
  function ClauseAt(s: string, b: nat): (r: Option<(nat, Clause)>)
    requires b <= |s|
    ensures r.Some? ==> b < r.value.0 <= |s|
  {
    if b == |s| then None
    else if s[b] == '{' then
      var e := SpanWhile(s, b + 1, NotCloseBrace);
      if e == b + 1 || e == |s| then None else Some((e + 1, Named(s[b + 1..e])))
    else if s[b] == '*' then
      var d := SpanWhile(s, b + 1, IsSpace);
      if d == b + 1 || !OccursAt(s, "as", d) then None
      else
        var f := SpanWhile(s, d + 2, IsSpace);
        if f == d + 2 then None
        else
          var g := SpanWhile(s, f, IsWordChar);
          if g == f then None else Some((g, Namespace(s[f..g])))
    else if IsWordChar(s[b]) then
      var g := SpanWhile(s, b, IsWordChar);
      Some((g, Default(s[b..g])))
    else None
  }

  /** The tail of the pattern at q: \s+from\s+['"]([^'"]+)['"], with the index past it and the
      captured module name. */
  function FromAt(s: string, q: nat): (r: Option<(nat, string)>)
    requires q <= |s|
    ensures r.Some? ==> q < r.value.0 <= |s|
  {
    var a := SpanWhile(s, q, IsSpace);
    if a == q || !OccursAt(s, "from", a) then None
    else
      var t := SpanWhile(s, a + 4, IsSpace);
      if t == a + 4 || t == |s| || !IsQuote(s[t]) then None
      else
        var u := SpanWhile(s, t + 1, NotQuote);
        if u == t + 1 || u == |s| then None else Some((u + 1, s[t + 1..u]))
  }

  /** The import pattern matched at exactly position p. */
  function MatchImportAt(s: string, p: nat): (r: Option<ImportMatch>)
    ensures r.Some? ==> p < r.value.end <= |s| && OccursAt(s, "import", p)
    ensures r.Some? ==> |r.value.source| > 0 && '\'' !in r.value.source && '"' !in r.value.source
  {
    if !OccursAt(s, "import", p) then None
    else
      var b := SpanWhile(s, p + 6, IsSpace);
      if b == p + 6 then None
      else match ClauseAt(s, b)
        case None => None
        case Some((q, clause)) =>
          match FromAt(s, q)
          case None => None
          case Some((e, source)) => Some(ImportMatch(e, clause, source))
  }

  /** The matches of the global import pattern from position `from` on: the first match at or
      after `from`, then the matches after its end. */
  function ImportsFrom(s: string, from: nat): seq<ImportMatch>
    decreases |s| - from
  {
    if from >= |s| then []
    else match MatchImportAt(s, from)
      case Some(m) => [m] + ImportsFrom(s, m.end)
      case None => ImportsFrom(s, from + 1)
  }

  /** Every match the scan reports is a match of the pattern at some position. */
  lemma {:induction false} ImportsAreMatches(s: string, from: nat, m: ImportMatch)
    requires m in ImportsFrom(s, from)
    ensures exists p :: from <= p && MatchImportAt(s, p) == Some(m)
    decreases |s| - from
  {
    if from < |s| {
      match MatchImportAt(s, from)
      case Some(m0) =>
        if m != m0 { ImportsAreMatches(s, m0.end, m); }
      case None =>
        ImportsAreMatches(s, from + 1, m);
    }
  }

  /** The exec loop over the import pattern. */
  method ScanImports(s: string) returns (ms: seq<ImportMatch>)
    ensures ms == ImportsFrom(s, 0)
  {
    ms := [];
    var pos := 0;
    while pos < |s|
      invariant 0 <= pos <= |s|
      invariant ms + ImportsFrom(s, pos) == ImportsFrom(s, 0)
      decreases |s| - pos
    {
      var m := MatchImportAt(s, pos);
      if m.Some? {
        ms := ms + [m.value];
        pos := m.value.end;
      } else {
        pos := pos + 1;
      }
    }
  }

  predicate IsIdentifier(w: string) {
    |w| > 0 && forall k :: 0 <= k < |w| ==> IsWordChar(w[k])
  }

  predicate IsModuleName(src: string) {
    |src| > 0 && forall k :: 0 <= k < |src| ==> !IsQuote(src[k])
  }

  lemma FromTail(s: string, q: nat, src: string)
    requires IsModuleName(src)
    requires q <= |s| && s[q..] == " from '" + src + "'"
    ensures FromAt(s, q) == Some((|s|, src))
  {
    SpanWhileIs(s, q, IsSpace, q + 1);
    assert s[q + 1..q + 5] == "from";
    SpanWhileIs(s, q + 5, IsSpace, q + 6);
    assert s[q + 6] == '\'';
    forall k | q + 7 <= k < |s| - 1 ensures NotQuote(s[k]) {
      assert s[k] == src[k - q - 7];
    }
    SpanWhileIs(s, q + 7, NotQuote, |s| - 1);
    assert s[q + 7..|s| - 1] == src;
  }

  /** A run that is known piecewise is the run SpanWhile finds. */
  lemma SpanOver(s: string, i: nat, w: string, P: char -> bool)
    requires i + |w| <= |s| && s[i..i + |w|] == w
    requires forall k :: 0 <= k < |w| ==> P(w[k])
    requires i + |w| == |s| || !P(s[i + |w|])
    ensures SpanWhile(s, i, P) == i + |w|
  {
    forall k | i <= k < i + |w| ensures P(s[k]) {
      assert s[k] == w[k - i];
    }
    SpanWhileIs(s, i, P, i + |w|);
  }

  /** The pattern at 0 is the keyword, one space, a clause and a from-tail. */
  lemma MatchParts(s: string, q: nat, clause: Clause, src: string)
    requires OccursAt(s, "import", 0) && SpanWhile(s, 6, IsSpace) == 7
    requires 7 <= |s| && ClauseAt(s, 7) == Some((q, clause))
    requires FromAt(s, q) == Some((|s|, src))
    ensures MatchImportAt(s, 0) == Some(ImportMatch(|s|, clause, src))
  {
  }

  lemma DefaultClause(s: string, b: nat, name: string)
    requires IsIdentifier(name) && b + |name| < |s|
    requires s[b..b + |name|] == name && !IsWordChar(s[b + |name|])
    ensures ClauseAt(s, b) == Some((b + |name|, Default(name)))
  {
    assert s[b] == name[0];
    SpanOver(s, b, name, IsWordChar);
  }

  lemma NamedClause(s: string, b: nat, list: string)
    requires |list| > 0 && '}' !in list && b + |list| + 1 < |s|
    requires s[b] == '{' && s[b + 1..b + 1 + |list|] == list && s[b + 1 + |list|] == '}'
    ensures ClauseAt(s, b) == Some((b + 2 + |list|, Named(list)))
  {
    forall k | 0 <= k < |list| ensures NotCloseBrace(list[k]) {
      assert list[k] in list;
    }
    SpanOver(s, b + 1, list, NotCloseBrace);
  }

  lemma NamespaceClause(s: string, b: nat, name: string)
    requires IsIdentifier(name) && b + 5 + |name| < |s|
    requires s[b] == '*' && s[b + 1] == ' ' && OccursAt(s, "as", b + 2) && s[b + 4] == ' '
    requires s[b + 5..b + 5 + |name|] == name && !IsWordChar(s[b + 5 + |name|])
    ensures ClauseAt(s, b) == Some((b + 5 + |name|, Namespace(name)))
  {
    assert s[b + 2] == "as"[0];
    OneSpace(s, b + 1);
    assert s[b + 5] == name[0];
    OneSpace(s, b + 4);
    SpanOver(s, b + 5, name, IsWordChar);
  }

  /** A single space followed by a word character is a whitespace run of length one. */
  lemma OneSpace(s: string, i: nat)
    requires i + 1 < |s| && s[i] == ' ' && IsWordChar(s[i + 1])
    ensures SpanWhile(s, i, IsSpace) == i + 1
  {
    WordCharNotSpace(s[i + 1]);
    SpanWhileIs(s, i, IsSpace, i + 1);
  }

  /** import Name from 'module' is read as a default import of Name from module. */
  lemma DefaultImportRoundTrip(name: string, src: string)
    requires IsIdentifier(name) && IsModuleName(src)
    ensures var s := "import " + name + " from '" + src + "'";
      MatchImportAt(s, 0) == Some(ImportMatch(|s|, Default(name), src))
  {
    var tail := " from '" + src + "'";
    var s := "import " + name + tail;
    assert s == "import " + name + " from '" + src + "'";
    assert s[..6] == "import" && s[6] == ' ' && s[7] == name[0];
    SpanWhileIs(s, 6, IsSpace, 7);
    assert s[7..7 + |name|] == name && s[7 + |name|..] == tail;
    DefaultClause(s, 7, name);
    FromTail(s, 7 + |name|, src);
    MatchParts(s, 7 + |name|, Default(name), src);
  }

  /** import { list } from 'module' is read as a braced import of the text between the braces. */
  lemma NamedImportRoundTrip(list: string, src: string)
    requires |list| > 0 && '}' !in list && IsModuleName(src)
    ensures var s := "import {" + list + "} from '" + src + "'";
      MatchImportAt(s, 0) == Some(ImportMatch(|s|, Named(list), src))
  {
    var tail := " from '" + src + "'";
    var s := "import {" + list + "}" + tail;
    assert s == "import {" + list + "} from '" + src + "'";
    assert s[..6] == "import" && s[6] == ' ' && s[7] == '{';
    SpanWhileIs(s, 6, IsSpace, 7);
    assert s[8..8 + |list|] == list && s[8 + |list|] == '}' && s[9 + |list|..] == tail;
    NamedClause(s, 7, list);
    FromTail(s, 9 + |list|, src);
    MatchParts(s, 9 + |list|, Named(list), src);
  }

  /** import * as name from 'module' is read as a namespace import. */
  lemma NamespaceImportRoundTrip(name: string, src: string)
    requires IsIdentifier(name) && IsModuleName(src)
    ensures var s := "import * as " + name + " from '" + src + "'";
      MatchImportAt(s, 0) == Some(ImportMatch(|s|, Namespace(name), src))
  {
    var tail := " from '" + src + "'";
    var s := "import * as " + name + tail;
    assert s == "import * as " + name + " from '" + src + "'";
    assert s[..6] == "import" && s[6] == ' ' && s[7] == '*';
    SpanWhileIs(s, 6, IsSpace, 7);
    assert s[8] == ' ' && s[9..11] == "as" && s[11] == ' ';
    assert s[12..12 + |name|] == name && s[12 + |name|..] == tail;
    NamespaceClause(s, 7, name);
    FromTail(s, 12 + |name|, src);
    MatchParts(s, 12 + |name|, Namespace(name), src);
  }

  /** A default import followed by anything but whitespace or a word character, such as the
      comma of a default import with a braced list, is not matched at the import keyword:
      the pattern wants whitespace and "from" right after the default name. */
  lemma MixedImportNotMatched(s: string, p: nat, b: nat, g: nat)
    requires OccursAt(s, "import", p)
    requires p + 6 < b < g < |s|
    requires forall k :: p + 6 <= k < b ==> IsSpace(s[k])
    requires forall k :: b <= k < g ==> IsWordChar(s[k])
    requires !IsSpace(s[g]) && !IsWordChar(s[g])
    ensures MatchImportAt(s, p) == None
  {
    WordCharNotSpace(s[b]);
    SpanWhileIs(s, p + 6, IsSpace, b);
    SpanWhileIs(s, b, IsWordChar, g);
    assert ClauseAt(s, b) == Some((g, Default(s[b..g])));
    assert FromAt(s, g) == None;
  }

  lemma WordCharNotSpace(c: char)
    requires IsWordChar(c)
    ensures !IsSpace(c)
  {
  }

  /** A line starting import React, -- such as import React, { useState } from 'react' -- is
      not matched at its start. */
  lemma MixedImportExample(rest: string)
    ensures MatchImportAt("import React," + rest, 0) == None
  {
    var head := "import React,";
    var s := head + rest;
    assert forall k :: 0 <= k < |head| ==> s[k] == head[k];
    assert s[..6] == "import";
    assert forall k :: 7 <= k < 12 ==> 'A' <= s[k] <= 'Z' || 'a' <= s[k] <= 'z';
    MixedImportNotMatched(s, 0, 7, 12);
  }

  // ---------------------------------------------------------------------------
  // hook definitions

  datatype HookMatch = HookMatch(end: nat, name: string)

  /** The hook pattern function\s+(use[A-Za-z0-9_]+) matched at exactly position p. */
  function MatchHookAt(s: string, p: nat): (r: Option<HookMatch>)
    ensures r.Some? ==> p < r.value.end <= |s| && OccursAt(s, "function", p)
  {
    if !OccursAt(s, "function", p) then None
    else
      var b := SpanWhile(s, p + 8, IsSpace);
      if b == p + 8 || !OccursAt(s, "use", b) then None
      else
        var g := SpanWhile(s, b + 3, IsWordChar);
        if g == b + 3 then None else Some(HookMatch(g, s[b..g]))
  }

  /** A hook name: "use" followed by at least one word character. */
  predicate IsHookName(h: string) {
    |h| > 3 && h[..3] == "use" && forall k :: 3 <= k < |h| ==> IsWordChar(h[k])
  }

  lemma HookMatchShape(s: string, p: nat)
    requires MatchHookAt(s, p).Some?
    ensures IsHookName(MatchHookAt(s, p).value.name)
  {
    var b := SpanWhile(s, p + 8, IsSpace);
    var g := SpanWhile(s, b + 3, IsWordChar);
    var h := s[b..g];
    assert h[..3] == s[b..b + 3];
    forall k | 3 <= k < |h| ensures IsWordChar(h[k]) { assert h[k] == s[b + k]; }
  }

  /** function useName( is read as the definition of the hook useName. */
  lemma HookRoundTrip(name: string)
    requires IsHookName(name)
    ensures var s := "function " + name + "()";
      MatchHookAt(s, 0) == Some(HookMatch(9 + |name|, name))
  {
    var s := "function " + name + "()";
    assert s[..8] == "function";
    SpanWhileIs(s, 8, IsSpace, 9);
    assert s[9..12] == name[..3];
    forall k | 12 <= k < 9 + |name| ensures IsWordChar(s[k]) { assert s[k] == name[k - 9]; }
    SpanWhileIs(s, 12, IsWordChar, 9 + |name|);
    assert s[9..9 + |name|] == name;
  }

  function HooksFrom(s: string, from: nat): seq<HookMatch>
    decreases |s| - from
  {
    if from >= |s| then []
    else match MatchHookAt(s, from)
      case Some(m) => [m] + HooksFrom(s, m.end)
      case None => HooksFrom(s, from + 1)
  }

  /** The names captured by the global hook pattern, in order, duplicates included. */
  function HookNames(s: string, from: nat): (r: seq<string>)
    ensures forall i :: 0 <= i < |r| ==> IsHookName(r[i])
    decreases |s| - from
  {
    if from >= |s| then []
    else match MatchHookAt(s, from)
      case Some(m) => HookMatchShape(s, from); [m.name] + HookNames(s, m.end)
      case None => HookNames(s, from + 1)
  }

  /** The exec loop over the hook pattern. */
  method ScanHooks(s: string) returns (names: seq<string>)
    ensures names == HookNames(s, 0)
  {
    names := [];
    var pos := 0;
    while pos < |s|
      invariant 0 <= pos <= |s|
      invariant names + HookNames(s, pos) == HookNames(s, 0)
      decreases |s| - pos
    {
      var m := MatchHookAt(s, pos);
      if m.Some? {
        names := names + [m.value.name];
        pos := m.value.end;
      } else {
        pos := pos + 1;
      }
    }
  }

  // ---------------------------------------------------------------------------
  // components

  /** /^[A-Z]/.test(w) */
  predicate StartsUpper(w: string) { |w| > 0 && IsUpper(w[0]) }

  /** The name a braced item contributes: trimmed, then cut at the first " as ". */
  function ItemName(item: string): string {
    BeforeFirst(Trim(item), " as ")
  }

  function ItemNames(items: seq<string>): (r: seq<string>)
    ensures |r| == |items| && forall i :: 0 <= i < |items| ==> r[i] == ItemName(items[i])
  {
    seq(|items|, i requires 0 <= i < |items| => ItemName(items[i]))
  }

  /** The names that start with an upper-case letter, in order. */
  function UpperOnly(names: seq<string>): (r: seq<string>)
    ensures forall i :: 0 <= i < |r| ==> StartsUpper(r[i])
  {
    if names == [] then []
    else (if StartsUpper(names[0]) then [names[0]] else []) + UpperOnly(names[1..])
  }

  /** The filter keeps exactly the upper-case names. */
  lemma {:induction false} UpperOnlyIff(names: seq<string>, x: string)
    ensures x in UpperOnly(names) <==> StartsUpper(x) && x in names
  {
    if names != [] {
      UpperOnlyIff(names[1..], x);
      assert names == [names[0]] + names[1..];
    }
  }

  /** The components one import contributes: upper-case names of a braced list, an upper-case
      default import, and never a namespace import. */
  function ComponentsOf(c: Clause): (r: seq<string>)
    ensures forall i :: 0 <= i < |r| ==> StartsUpper(r[i])
    ensures c.Namespace? ==> r == []
  {
    match c
    case Named(list) => UpperOnly(ItemNames(Split(list, ',')))
    case Namespace(_) => []
    case Default(name) => if StartsUpper(name) then [name] else []
  }

  // ---------------------------------------------------------------------------
  // the context object

  /** A JavaScript object used as a dictionary, as its entries in insertion order. */
  type Dict = seq<(string, string)>

  predicate UniqueKeys(d: Dict) {
    forall i, j :: 0 <= i < j < |d| ==> d[i].0 != d[j].0
  }

  function Lookup(d: Dict, k: string): Option<string> {
    if d == [] then None else if d[0].0 == k then Some(d[0].1) else Lookup(d[1..], k)
  }

  /** d[k] = v: an existing key keeps its place and takes the new value; a new key goes last. */
  function Assign(d: Dict, k: string, v: string): (r: Dict)
    ensures |r| == |d| || |r| == |d| + 1
    ensures forall i :: 0 <= i < |d| ==> r[i].0 == d[i].0
    ensures |r| == |d| + 1 ==> r[|d|].0 == k && forall i :: 0 <= i < |d| ==> d[i].0 != k
    ensures UniqueKeys(d) ==> UniqueKeys(r)
  {
    if d == [] then [(k, v)]
    else if d[0].0 == k then [(k, v)] + d[1..]
    else
      var rest := Assign(d[1..], k, v);
      assert forall i :: 0 < i < |d| ==> d[i] == d[1..][i - 1];
      [d[0]] + rest
  }

  /** After d[k] = v, looking up k gives v and every other key is unaffected. */
  lemma {:induction false} LookupAssign(d: Dict, k: string, v: string, k2: string)
    ensures Lookup(Assign(d, k, v), k2) == if k2 == k then Some(v) else Lookup(d, k2)
  {
    if d != [] && d[0].0 != k {
      LookupAssign(d[1..], k, v, k2);
    }
  }

  datatype Context = Context(fileContents: Dict, components: seq<string>, imports: seq<string>,
                             hooks: seq<string>)

  predicate WellFormed(ctx: Context) {
    && UniqueKeys(ctx.fileContents)
    && NoDuplicates(ctx.components)
    && NoDuplicates(ctx.imports)
    && (forall c :: c in ctx.components ==> StartsUpper(c))
    && (forall h :: h in ctx.hooks ==> IsHookName(h))
  }

  const EmptyContext := Context([], [], [], [])

  /** The module names of a sequence of matches. */
  function Sources(ms: seq<ImportMatch>): seq<string> {
    if ms == [] then [] else [ms[0].source] + Sources(ms[1..])
  }

  /** The components of a sequence of matches, in order. */
  function Components(ms: seq<ImportMatch>): seq<string> {
    if ms == [] then [] else ComponentsOf(ms[0].clause) + Components(ms[1..])
  }

  /** One iteration of the import loop: add the module name, then the components. */
  function AddMatch(ctx: Context, m: ImportMatch): (r: Context)
    ensures WellFormed(ctx) ==> WellFormed(r)
  {
    ctx.(imports := AddUnique(ctx.imports, m.source),
         components := AddAll(ctx.components, ComponentsOf(m.clause)))
  }

  function AddMatches(ctx: Context, ms: seq<ImportMatch>): (r: Context)
    ensures WellFormed(ctx) ==> WellFormed(r)
    ensures r.fileContents == ctx.fileContents && r.hooks == ctx.hooks
    decreases |ms|
  {
    if ms == [] then ctx else AddMatches(AddMatch(ctx, ms[0]), ms[1..])
  }

  /** What a run of matches adds: every module name and every component it names. */
  lemma {:induction false} AddMatchesMembers(ctx: Context, ms: seq<ImportMatch>, x: string)
    ensures x in AddMatches(ctx, ms).imports <==> x in ctx.imports || x in Sources(ms)
    ensures x in AddMatches(ctx, ms).components <==> x in ctx.components || x in Components(ms)
    decreases |ms|
  {
    if ms != [] {
      AddMatchesMembers(AddMatch(ctx, ms[0]), ms[1..], x);
    }
  }

  /** path.relative(projectDir, path) for a path inside the project directory. */
  function RelativePath(projectDir: string, path: string): string {
    if StartsWith(path, projectDir + "/") then path[|projectDir| + 1..] else path
  }

  /** A selected file: its path and content. */
  datatype FileText = FileText(path: string, content: string)

  /** One iteration of the file loop of buildContext. */
  function AddFile(ctx: Context, projectDir: string, f: FileText): (r: Context)
    ensures WellFormed(ctx) ==> WellFormed(r)
  {
    var c := AddMatches(ctx.(fileContents := Assign(ctx.fileContents, RelativePath(projectDir, f.path), f.content)),
                        ImportsFrom(f.content, 0));
    c.(hooks := c.hooks + HookNames(f.content, 0))
  }

  /** The context buildContext returns for these files (without the project information it
      attaches unchanged). */
  function ContextOf(projectDir: string, files: seq<FileText>): Context {
    if files == [] then EmptyContext
    else AddFile(ContextOf(projectDir, files[..|files| - 1]), projectDir, files[|files| - 1])
  }

  /** The context is well formed: file keys, components and module names are distinct, every
      component starts with an upper-case letter and every hook is "use" plus word characters. */
  lemma {:induction false} ContextWellFormed(projectDir: string, files: seq<FileText>)
    ensures WellFormed(ContextOf(projectDir, files))
  {
    if files != [] {
      ContextWellFormed(projectDir, files[..|files| - 1]);
    }
  }

  /** The module names the files import, file by file, duplicates included. */
  function AllSources(files: seq<FileText>): seq<string> {
    if files == [] then []
    else AllSources(files[..|files| - 1]) + Sources(ImportsFrom(files[|files| - 1].content, 0))
  }

  /** The components the files' imports name, file by file, duplicates included. */
  function AllComponents(files: seq<FileText>): seq<string> {
    if files == [] then []
    else AllComponents(files[..|files| - 1]) + Components(ImportsFrom(files[|files| - 1].content, 0))
  }

  lemma AddFileMembers(ctx: Context, projectDir: string, f: FileText, x: string)
    ensures x in AddFile(ctx, projectDir, f).imports
            <==> x in ctx.imports || x in Sources(ImportsFrom(f.content, 0))
    ensures x in AddFile(ctx, projectDir, f).components
            <==> x in ctx.components || x in Components(ImportsFrom(f.content, 0))
  {
    AddMatchesMembers(ctx.(fileContents := Assign(ctx.fileContents, RelativePath(projectDir, f.path), f.content)),
                      ImportsFrom(f.content, 0), x);
  }

  /** The context's module names and components are exactly the distinct elements of the
      files' import names and components. */
  lemma {:induction false} ContextMembers(projectDir: string, files: seq<FileText>, x: string)
    ensures x in ContextOf(projectDir, files).imports <==> x in AllSources(files)
    ensures x in ContextOf(projectDir, files).components <==> x in AllComponents(files)
  {
    if files != [] {
      ContextMembers(projectDir, files[..|files| - 1], x);
      AddFileMembers(ContextOf(projectDir, files[..|files| - 1]), projectDir, files[|files| - 1], x);
    }
  }

  /** The content recorded for a relative path: that of the last file with that path. */
  function LastContent(projectDir: string, files: seq<FileText>, k: string): Option<string> {
    if files == [] then None
    else if RelativePath(projectDir, files[|files| - 1].path) == k then Some(files[|files| - 1].content)
    else LastContent(projectDir, files[..|files| - 1], k)
  }

  lemma {:induction false} ContextFileContents(projectDir: string, files: seq<FileText>, k: string)
    ensures Lookup(ContextOf(projectDir, files).fileContents, k) == LastContent(projectDir, files, k)
  {
    if files != [] {
      var init := files[..|files| - 1];
      var f := files[|files| - 1];
      ContextFileContents(projectDir, init, k);
      LookupAssign(ContextOf(projectDir, init).fileContents, RelativePath(projectDir, f.path), f.content, k);
    }
  }

  /** buildContext: for each file, record its content, run the import loop, run the hook loop. */
  method BuildContext(projectDir: string, files: seq<FileText>) returns (ctx: Context)
    ensures ctx == ContextOf(projectDir, files)
  {
    ctx := EmptyContext;
    var i := 0;
    while i < |files|
      invariant 0 <= i <= |files|
      invariant ctx == ContextOf(projectDir, files[..i])
    {
      assert files[..i + 1][..i] == files[..i];
      var f := files[i];
      ctx := ctx.(fileContents := Assign(ctx.fileContents, RelativePath(projectDir, f.path), f.content));
      var ms := ScanImports(f.content);
      ctx := RecordImports(ctx, ms);
      var hooks := ScanHooks(f.content);
      ctx := ctx.(hooks := ctx.hooks + hooks);
      i := i + 1;
    }
    assert files[..i] == files;
  }

  /** The import loop of buildContext: each match's module name, then each component it names. */
  method RecordImports(start: Context, ms: seq<ImportMatch>) returns (ctx: Context)
    ensures ctx == AddMatches(start, ms)
  {
    ctx := start;
    var j := 0;
    while j < |ms|
      invariant 0 <= j <= |ms|
      invariant AddMatches(ctx, ms[j..]) == AddMatches(start, ms)
    {
      assert ms[j..][1..] == ms[j + 1..];
      var imports := AddUnique(ctx.imports, ms[j].source);
      var components := RecordComponents(ctx.components, ComponentsOf(ms[j].clause));
      ctx := ctx.(imports := imports, components := components);
      j := j + 1;
    }
    assert ms[j..] == [];
  }

  /** The component loop for one import: names not yet present are appended in order. */
  method RecordComponents(first: seq<string>, names: seq<string>) returns (components: seq<string>)
    ensures components == AddAll(first, names)
  {
    components := first;
    var n := 0;
    while n < |names|
      invariant 0 <= n <= |names|
      invariant AddAll(components, names[n..]) == AddAll(first, names)
    {
      assert names[n..][1..] == names[n + 1..];
      components := AddUnique(components, names[n]);
      n := n + 1;
    }
    assert names[n..] == [];
  }
}

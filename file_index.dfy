/**
 * The file indexer: which directories a task scans (from the project's router style), the
 * recursive walk that skips ignored directory names, and the extension filter applied to every
 * file the walk reports.
 */
module FileIndex {
  import opened Wrappers
  import opened Text
  import opened ProjectAnalyzer

  /** A directory entry: a file with its size in bytes and its content (None when reading it
      fails), or a directory with its entries in readdir order. */
  datatype Entry =
    | File(name: string, size: int, content: Option<string>)
    | Dir(name: string, children: seq<Entry>)

  /** A file reported by the walk: the directory names from the walk's root down to it. */
  datatype Found = Found(dirs: seq<string>, name: string, size: int, content: Option<string>)

  /** A candidate file handed to scoring: its absolute path, size and readable content. */
  datatype SourceFile = SourceFile(path: string, size: int, content: Option<string>)

  const DefaultIgnoreDirs: set<string> :=
    {"node_modules", ".git", ".next", "out", "dist", "build", "public"}

  function Under(d: string, fs: seq<Found>): (r: seq<Found>)
    ensures |r| == |fs|
    ensures forall i :: 0 <= i < |fs| ==> r[i] == fs[i].(dirs := [d] + fs[i].dirs)
  {
    seq(|fs|, i requires 0 <= i < |fs| => fs[i].(dirs := [d] + fs[i].dirs))
  }

  /** findFiles: files in readdir order, directories descended into depth first unless their
      name is ignored. The root itself is never checked against the ignore list. */
  function Walk(cs: seq<Entry>, ignore: set<string>): seq<Found>
    decreases cs
  {
    if cs == [] then []
    else
      var head := match cs[0]
        case File(n, size, content) => [Found([], n, size, content)]
        case Dir(n, children) => if n in ignore then [] else Under(n, Walk(children, ignore));
      head + Walk(cs[1..], ignore)
  }

  /** No directory on the way to f is ignored. */
  predicate Unignored(f: Found, ignore: set<string>) {
    forall i :: 0 <= i < |f.dirs| ==> f.dirs[i] !in ignore
  }

  lemma UnderMember(d: string, fs: seq<Found>, f: Found)
    ensures f in Under(d, fs) <==> |f.dirs| > 0 && f.dirs[0] == d && f.(dirs := f.dirs[1..]) in fs
  {
    var u := Under(d, fs);
    if f in u {
      var i :| 0 <= i < |u| && u[i] == f;
      assert f.(dirs := f.dirs[1..]) == fs[i];
    }
    if |f.dirs| > 0 && f.dirs[0] == d && f.(dirs := f.dirs[1..]) in fs {
      var i :| 0 <= i < |fs| && fs[i] == f.(dirs := f.dirs[1..]);
      assert [d] + fs[i].dirs == f.dirs;
      assert u[i] == f;
    }
  }

  lemma UnignoredCons(f: Found, ignore: set<string>)
    requires |f.dirs| > 0
    ensures Unignored(f, ignore) <==> f.dirs[0] !in ignore && Unignored(f.(dirs := f.dirs[1..]), ignore)
  {
    var g := f.(dirs := f.dirs[1..]);
    if f.dirs[0] !in ignore && Unignored(g, ignore) {
      forall j | 0 <= j < |f.dirs| ensures f.dirs[j] !in ignore {
        if j > 0 { assert f.dirs[j] == g.dirs[j - 1]; }
      }
    }
    if Unignored(f, ignore) {
      forall j | 0 <= j < |g.dirs| ensures g.dirs[j] !in ignore {
        assert g.dirs[j] == f.dirs[j + 1];
      }
    }
  }

  /** The ignore rule: the walk reports exactly the files of the unfiltered walk that are not
      below an ignored directory. */
  lemma {:induction false} IgnoreRule(cs: seq<Entry>, ignore: set<string>, f: Found)
    ensures f in Walk(cs, ignore) <==> f in Walk(cs, {}) && Unignored(f, ignore)
    decreases cs
  {
    if cs != [] {
      IgnoreRule(cs[1..], ignore, f);
      match cs[0]
      case File(n, size, content) =>
      case Dir(n, children) =>
        UnderMember(n, Walk(children, {}), f);
        UnderMember(n, Walk(children, ignore), f);
        if |f.dirs| > 0 {
          IgnoreRule(children, ignore, f.(dirs := f.dirs[1..]));
          UnignoredCons(f, ignore);
        }
    }
  }

  /** The directories a task scans: app/ and components/ for the App Router, pages/ and
      components/ for any other Next.js project, src/ otherwise. */
  function BaseDirs(info: ProjectInfo): (r: seq<string>)
    ensures info.framework != NEXT_JS ==> r == ["src"]
    ensures info.framework == NEXT_JS ==> |r| == 2 && r[1] == "components"
    ensures info.framework == NEXT_JS ==> (r[0] == "app" <==> info.routerType == APP_ROUTER)
  {
    if info.framework == NEXT_JS then
      if info.routerType == APP_ROUTER then ["app", "components"] else ["pages", "components"]
    else ["src"]
  }

  /** The children of the first root entry with this name when it is a directory. A missing
      entry yields nothing (findFiles returns), and so does a file (readdir throws and the
      error is caught by the caller). */
  function BaseChildren(root: seq<Entry>, name: string): Option<seq<Entry>> {
    if root == [] then None
    else if root[0].name == name then (if root[0].Dir? then Some(root[0].children) else None)
    else BaseChildren(root[1..], name)
  }

  /** path.join of the components with "/". */
  function FullPath(projectDir: string, base: string, f: Found): string {
    Join([projectDir, base] + f.dirs + [f.name], "/")
  }

  /** The file-name filter the glob *.{js,jsx,ts,tsx} stands for. */
  predicate HasSourceExtension(path: string) {
    EndsWith(path, ".js") || EndsWith(path, ".jsx") || EndsWith(path, ".ts") || EndsWith(path, ".tsx")
  }

  predicate IsLineTerminator(c: char) {
    c == '\n' || c == '\r' || c == '\U{2028}' || c == '\U{2029}'
  }

  /** The filter as the code applies it: file.match(".{js,jsx,ts,tsx}"). Without the u flag
      the brace is a literal character, so this regular expression matches any character other
      than a line terminator followed by the text {js,jsx,ts,tsx}. */
  predicate MatchesExtensionAsWritten(path: string) {
    exists i :: 1 <= i < |path| && OccursAt(path, "{js,jsx,ts,tsx}", i) && !IsLineTerminator(path[i - 1])
  }

  /** The files one base directory contributes, with the given file-name filter. */
  function FilesUnder(projectDir: string, root: seq<Entry>, base: string, ignore: set<string>,
                      keep: string -> bool): seq<SourceFile>
  {
    match BaseChildren(root, base)
    case None => []
    case Some(cs) => Keep(projectDir, base, Walk(cs, ignore), keep)
  }

  function Keep(projectDir: string, base: string, fs: seq<Found>, keep: string -> bool): seq<SourceFile> {
    if fs == [] then []
    else
      var path := FullPath(projectDir, base, fs[0]);
      (if keep(path) then [SourceFile(path, fs[0].size, fs[0].content)] else [])
      + Keep(projectDir, base, fs[1..], keep)
  }

  /** allFiles of findRelevantFiles with the intended extension filter. */
  function CandidateFiles(projectDir: string, root: seq<Entry>, info: ProjectInfo,
                          ignore: set<string>): seq<SourceFile>
  {
    CandidatesFrom(projectDir, root, BaseDirs(info), ignore, HasSourceExtension)
  }

  /** allFiles of findRelevantFiles as the code computes it. */
  function CandidateFilesAsWritten(projectDir: string, root: seq<Entry>, info: ProjectInfo,
                                   ignore: set<string>): seq<SourceFile>
  {
    CandidatesFrom(projectDir, root, BaseDirs(info), ignore, MatchesExtensionAsWritten)
  }

  function CandidatesFrom(projectDir: string, root: seq<Entry>, bases: seq<string>,
                          ignore: set<string>, keep: string -> bool): seq<SourceFile>
  {
    if bases == [] then []
    else CandidatesFrom(projectDir, root, bases[..|bases| - 1], ignore, keep)
         + FilesUnder(projectDir, root, bases[|bases| - 1], ignore, keep)
  }

  lemma {:induction false} KeepOnly(projectDir: string, base: string, fs: seq<Found>,
                                    keep: string -> bool, f: SourceFile)
    requires f in Keep(projectDir, base, fs, keep)
    ensures keep(f.path)
  {
    if fs != [] {
      var path := FullPath(projectDir, base, fs[0]);
      if !(keep(path) && f == SourceFile(path, fs[0].size, fs[0].content)) {
        KeepOnly(projectDir, base, fs[1..], keep, f);
      }
    }
  }

  lemma {:induction false} CandidatesOnly(projectDir: string, root: seq<Entry>, bases: seq<string>,
                                          ignore: set<string>, keep: string -> bool, f: SourceFile)
    requires f in CandidatesFrom(projectDir, root, bases, ignore, keep)
    ensures keep(f.path)
  {
    if bases != [] {
      var base := bases[|bases| - 1];
      if f in CandidatesFrom(projectDir, root, bases[..|bases| - 1], ignore, keep) {
        CandidatesOnly(projectDir, root, bases[..|bases| - 1], ignore, keep, f);
      } else {
        match BaseChildren(root, base)
        case None =>
        case Some(cs) => KeepOnly(projectDir, base, Walk(cs, ignore), keep, f);
      }
    }
  }

  /** As written, the extension filter keeps only paths that contain a brace: for an ordinary
      project no file is ever scored. */
  lemma AsWrittenKeepsOnlyBraces(projectDir: string, root: seq<Entry>, info: ProjectInfo,
                                 ignore: set<string>, f: SourceFile)
    requires f in CandidateFilesAsWritten(projectDir, root, info, ignore)
    ensures '{' in f.path
  {
    CandidatesOnly(projectDir, root, BaseDirs(info), ignore, MatchesExtensionAsWritten, f);
    var i :| 1 <= i < |f.path| && OccursAt(f.path, "{js,jsx,ts,tsx}", i) && !IsLineTerminator(f.path[i - 1]);
    assert f.path[i..i + 15][0] == '{';
  }

  /** A concrete page of an App Router project: the intended filter keeps it, the written one
      does not. */
  lemma AsWrittenRejectsPage()
    ensures HasSourceExtension("/proj/app/page.tsx")
    ensures !MatchesExtensionAsWritten("/proj/app/page.tsx")
  {
    var p := "/proj/app/page.tsx";
    assert EndsWith(p, ".tsx") by {
      assert p[|p| - 4..] == ".tsx";
    }
    assert forall i :: 0 <= i < |p| ==> p[i] != '{';
    NoBraceNoMatch(p);
  }

  /** The pattern as written can only match where the path has a literal brace. */
  lemma NoBraceNoMatch(path: string)
    requires forall i :: 0 <= i < |path| ==> path[i] != '{'
    ensures !MatchesExtensionAsWritten(path)
  {
    forall i | 1 <= i < |path| ensures !OccursAt(path, "{js,jsx,ts,tsx}", i) {
      BraceFirst(path, i);
    }
  }

  lemma BraceFirst(path: string, i: int)
    ensures OccursAt(path, "{js,jsx,ts,tsx}", i) ==> path[i] == '{'
  {
    if OccursAt(path, "{js,jsx,ts,tsx}", i) {
      assert path[i..i + 15][0] == path[i];
    }
  }

  /** No entry of the tree, at any depth, has a brace in its name. */
  predicate BraceFree(cs: seq<Entry>)
    decreases cs
  {
    cs == [] ||
    (&& '{' !in cs[0].name
     && (match cs[0] case File(_, _, _) => true case Dir(_, children) => BraceFree(children))
     && BraceFree(cs[1..]))
  }

  predicate FoundBraceFree(f: Found) {
    '{' !in f.name && forall i :: 0 <= i < |f.dirs| ==> '{' !in f.dirs[i]
  }

  /** A walk of a brace-free tree reports brace-free names only. */
  lemma {:induction false} WalkBraceFree(cs: seq<Entry>, ignore: set<string>, f: Found)
    requires BraceFree(cs) && f in Walk(cs, ignore)
    ensures FoundBraceFree(f)
    decreases cs
  {
    if f !in Walk(cs[1..], ignore) {
      match cs[0]
      case File(n, size, content) =>
      case Dir(n, children) =>
        UnderMember(n, Walk(children, ignore), f);
        var g := f.(dirs := f.dirs[1..]);
        WalkBraceFree(children, ignore, g);
        forall i | 0 <= i < |f.dirs| ensures '{' !in f.dirs[i] {
          if i > 0 { assert f.dirs[i] == g.dirs[i - 1]; }
        }
    } else {
      WalkBraceFree(cs[1..], ignore, f);
    }
  }

  lemma {:induction false} JoinBraceFree(parts: seq<string>, sep: string)
    requires '{' !in sep && forall i :: 0 <= i < |parts| ==> '{' !in parts[i]
    ensures '{' !in Join(parts, sep)
    decreases |parts|
  {
    if |parts| > 1 {
      JoinBraceFree(parts[1..], sep);
    }
  }

  lemma {:induction false} BaseChildrenBraceFree(root: seq<Entry>, name: string)
    requires BraceFree(root) && BaseChildren(root, name).Some?
    ensures BraceFree(BaseChildren(root, name).value)
    decreases root
  {
    if root[0].name != name {
      BaseChildrenBraceFree(root[1..], name);
    }
  }

  lemma {:induction false} KeepAsWrittenEmpty(projectDir: string, base: string, fs: seq<Found>)
    requires '{' !in projectDir && '{' !in base
    requires forall i :: 0 <= i < |fs| ==> FoundBraceFree(fs[i])
    ensures Keep(projectDir, base, fs, MatchesExtensionAsWritten) == []
    decreases |fs|
  {
    if fs != [] {
      var parts := [projectDir, base] + fs[0].dirs + [fs[0].name];
      assert forall i :: 0 <= i < |parts| ==> '{' !in parts[i] by {
        assert FoundBraceFree(fs[0]);
        forall i | 0 <= i < |parts| ensures '{' !in parts[i] {
          if 2 <= i < |parts| - 1 { assert parts[i] == fs[0].dirs[i - 2]; }
        }
      }
      JoinBraceFree(parts, "/");
      NoBraceNoMatch(FullPath(projectDir, base, fs[0]));
      KeepAsWrittenEmpty(projectDir, base, fs[1..]);
    }
  }

  lemma {:induction false} CandidatesAsWrittenEmpty(projectDir: string, root: seq<Entry>, bases: seq<string>,
                                                    ignore: set<string>)
    requires '{' !in projectDir && BraceFree(root)
    requires forall i :: 0 <= i < |bases| ==> '{' !in bases[i]
    ensures CandidatesFrom(projectDir, root, bases, ignore, MatchesExtensionAsWritten) == []
    decreases |bases|
  {
    if bases != [] {
      var base := bases[|bases| - 1];
      CandidatesAsWrittenEmpty(projectDir, root, bases[..|bases| - 1], ignore);
      match BaseChildren(root, base)
      case None =>
      case Some(cs) =>
        BaseChildrenBraceFree(root, base);
        var fs := Walk(cs, ignore);
        forall i | 0 <= i < |fs| ensures FoundBraceFree(fs[i]) {
          WalkBraceFree(cs, ignore, fs[i]);
        }
        KeepAsWrittenEmpty(projectDir, base, fs);
    }
  }

  /** As written, findRelevantFiles collects no file at all from a project whose directory
      and entry names have no brace: every prompt goes out without file excerpts. */
  lemma AsWrittenCollectsNothing(projectDir: string, root: seq<Entry>, info: ProjectInfo,
                                 ignore: set<string>)
    requires '{' !in projectDir && BraceFree(root)
    ensures CandidateFilesAsWritten(projectDir, root, info, ignore) == []
  {
    var bases := BaseDirs(info);
    assert forall i :: 0 <= i < |bases| ==> '{' !in bases[i];
    CandidatesAsWrittenEmpty(projectDir, root, bases, ignore);
  }

  /** Every candidate has one of the four source extensions. */
  lemma CandidatesHaveSourceExtension(projectDir: string, root: seq<Entry>, info: ProjectInfo,
                                      ignore: set<string>, f: SourceFile)
    requires f in CandidateFiles(projectDir, root, info, ignore)
    ensures HasSourceExtension(f.path)
  {
    CandidatesOnly(projectDir, root, BaseDirs(info), ignore, HasSourceExtension, f);
  }
}

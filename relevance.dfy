/**
 * Choosing the files a task is about: keywords from the task description, a relevance score
 * per candidate file (a name hit is worth 3, each occurrence in the content 1), the size
 * limit, and the best-scoring files in descending order of score, at most maxContextFiles.
 */
module Relevance {
  import opened Wrappers
  import opened Text
  import opened Sorting
  import opened ProjectAnalyzer
  import opened FileIndex
  import Tasks

  // ---------------------------------------------------------------------------
  // keywords

  /** A piece of split(/\s+/) that the length filter can keep: non-empty, no whitespace. */
  predicate IsToken(w: string) {
    |w| > 0 && forall j :: 0 <= j < |w| ==> !IsSpace(w[j])
  }

  /** The characters up to the first whitespace character. */
  function TakeToken(s: string): (w: string)
    ensures |w| <= |s| && forall j :: 0 <= j < |w| ==> w[j] == s[j]
    ensures forall j :: 0 <= j < |w| ==> !IsSpace(w[j])
    ensures |w| == |s| || IsSpace(s[|w|])
    ensures s != [] && !IsSpace(s[0]) ==> |w| > 0
  {
    if s == [] || IsSpace(s[0]) then [] else [s[0]] + TakeToken(s[1..])
  }

  /** The non-empty pieces of s.split(/\s+/), in order. split also yields an empty piece at
      either end when s starts or ends with whitespace; the length filter drops those. */
  function Tokens(s: string): (r: seq<string>)
    ensures forall i :: 0 <= i < |r| ==> IsToken(r[i])
    decreases |s|
  {
    var t := TrimStart(s);
    if t == [] then []
    else
      var w := TakeToken(t);
      [w] + Tokens(t[|w|..])
  }

  predicate LowerWordsAndSpaces(s: string) {
    forall k :: 0 <= k < |s| ==> IsLowerWordChar(s[k]) || IsSpace(s[k])
  }

  predicate LowerWord(w: string) {
    forall k :: 0 <= k < |w| ==> IsLowerWordChar(w[k])
  }

  /** Splitting a string of lower-case word characters and whitespace yields lower-case words. */
  lemma {:induction false} TokensLowerWords(s: string)
    requires LowerWordsAndSpaces(s)
    ensures forall i :: 0 <= i < |Tokens(s)| ==> LowerWord(Tokens(s)[i])
    decreases |s|
  {
    var t := TrimStart(s);
    if t != [] {
      var w := TakeToken(t);
      var u := t[|w|..];
      assert LowerWordsAndSpaces(t) by {
        forall k | 0 <= k < |t| ensures IsLowerWordChar(t[k]) || IsSpace(t[k]) {
          TrimStartAt(s, k);
        }
      }
      assert LowerWord(w) by {
        forall k | 0 <= k < |w| ensures IsLowerWordChar(w[k]) {
          assert w[k] == t[k];
        }
      }
      assert LowerWordsAndSpaces(u) by {
        forall k | 0 <= k < |u| ensures IsLowerWordChar(u[k]) || IsSpace(u[k]) {
          assert u[k] == t[|w| + k];
        }
      }
      TokensLowerWords(u);
      var r := Tokens(s);
      assert r == [w] + Tokens(u);
      forall i | 0 <= i < |r| ensures LowerWord(r[i]) {
        if i > 0 { assert r[i] == Tokens(u)[i - 1]; }
      }
    }
  }

  /** .replace(/[^\w\s]/g, ' '): every character that is neither a word nor a whitespace
      character becomes a space. */
  function Normalize(s: string): (r: string)
    ensures |r| == |s|
    ensures forall i :: 0 <= i < |s| ==> r[i] == (if IsWordChar(s[i]) || IsSpace(s[i]) then s[i] else ' ')
  {
    seq(|s|, i requires 0 <= i < |s| => if IsWordChar(s[i]) || IsSpace(s[i]) then s[i] else ' ')
  }

  function LongerThan3(ws: seq<string>): (r: seq<string>)
    ensures forall i :: 0 <= i < |r| ==> |r[i]| > 3 && r[i] in ws
    ensures forall w :: w in ws && |w| > 3 ==> w in r
  {
    if ws == [] then []
    else (if |ws[0]| > 3 then [ws[0]] else []) + LongerThan3(ws[1..])
  }

  /** The keywords of a task description: lower-cased, punctuation turned into spaces, split
      on whitespace, words of more than three characters kept (duplicates included). */
  function Keywords(desc: string): seq<string> {
    LongerThan3(Tokens(Normalize(Lower(desc))))
  }

  predicate IsKeyword(kw: string) {
    |kw| > 3 && forall j :: 0 <= j < |kw| ==> IsLowerWordChar(kw[j])
  }

  /** Every keyword is a lower-case run of word characters longer than three characters. */
  lemma KeywordShape(desc: string)
    ensures forall i :: 0 <= i < |Keywords(desc)| ==> IsKeyword(Keywords(desc)[i])
  {
    var n := Normalize(Lower(desc));
    forall k | 0 <= k < |n| ensures IsLowerWordChar(n[k]) || IsSpace(n[k]) {
      if IsWordChar(Lower(desc)[k]) {
        LowerWordChar(desc[k]);
      }
    }
    TokensLowerWords(n);
    var ts := Tokens(n);
    forall i | 0 <= i < |Keywords(desc)| ensures IsKeyword(Keywords(desc)[i]) {
      var kw := Keywords(desc)[i];
      var m :| 0 <= m < |ts| && ts[m] == kw;
      assert LowerWord(ts[m]);
    }
  }

  lemma {:induction false} TakeTokenOf(w: string, rest: string)
    requires forall j :: 0 <= j < |w| ==> !IsSpace(w[j])
    requires rest == [] || IsSpace(rest[0])
    ensures TakeToken(w + rest) == w
  {
    if w != [] {
      assert (w + rest)[1..] == w[1..] + rest;
      TakeTokenOf(w[1..], rest);
    }
  }

  lemma TokensSingle(w: string)
    requires IsToken(w)
    ensures Tokens(w) == [w]
  {
    TakeTokenOf(w, []);
    assert w + [] == w;
    assert TrimStart(w) == w;
    assert Tokens(w) == [w] + Tokens(w[|w|..]);
  }

  lemma TokensStep(w: string, j: string)
    requires IsToken(w)
    requires j != [] && !IsSpace(j[0])
    ensures Tokens(w + " " + j) == [w] + Tokens(j)
  {
    var s := w + " " + j;
    assert s == w + (" " + j);
    assert s[0] == w[0];
    assert TrimStart(s) == s;
    TakeTokenOf(w, " " + j);
    assert s[|w|..] == " " + j;
    assert (" " + j)[1..] == j;
    assert TrimStart(" " + j) == TrimStart(j) == j;
  }

  /** Splitting words joined by single spaces gives the words back. */
  lemma {:induction false} TokensJoin(ws: seq<string>)
    requires forall i :: 0 <= i < |ws| ==> IsToken(ws[i])
    ensures Tokens(Join(ws, " ")) == ws
  {
    if |ws| == 1 {
      TokensSingle(ws[0]);
    } else if |ws| > 1 {
      var rest := ws[1..];
      JoinHead(ws);
      TokensStep(ws[0], Join(rest, " "));
      TokensJoin(rest);
      assert ws == [ws[0]] + rest;
    }
  }

  lemma JoinHead(ws: seq<string>)
    requires |ws| > 1 && forall i :: 0 <= i < |ws| ==> IsToken(ws[i])
    ensures Join(ws, " ") == ws[0] + " " + Join(ws[1..], " ")
    ensures Join(ws[1..], " ") != [] && !IsSpace(Join(ws[1..], " ")[0])
    ensures forall i :: 0 <= i < |ws[1..]| ==> IsToken(ws[1..][i])
  {
    var j := Join(ws[1..], " ");
    assert IsToken(ws[1]);
    JoinStarts(ws[1..], " ");
    assert j[0] == j[..|ws[1]|][0] == ws[1][0];
  }

  /** The description "Fix the login bug" has the single keyword "login". */
  lemma LoginBugKeywords()
    ensures Keywords("Fix the login bug") == ["login"]
  {
    Tasks.LoginBugLower();
    LoginBugNormal();
    LoginBugTokens();
    LoginBugLonger();
    KeywordsVia("Fix the login bug", "fix the login bug", ["fix", "the", "login", "bug"]);
  }

  lemma KeywordsVia(desc: string, l: string, ws: seq<string>)
    requires Lower(desc) == l && Normalize(l) == l && Tokens(l) == ws
    ensures Keywords(desc) == LongerThan3(ws)
  {
  }

  lemma LoginBugNormal()
    ensures Normalize("fix the login bug") == "fix the login bug"
  {
    NormalizeKeeps("fix the login bug");
  }

  lemma LoginBugTokens()
    ensures Tokens("fix the login bug") == ["fix", "the", "login", "bug"]
  {
    var ws := ["fix", "the", "login", "bug"];
    LoginBugJoin();
    LoginBugWords();
    TokensJoin(ws);
  }

  lemma LoginBugJoin()
    ensures Join(["fix", "the", "login", "bug"], " ") == "fix the login bug"
  {
    var ws := ["fix", "the", "login", "bug"];
    assert ws[1..][1..][1..] == ["bug"];
    assert Join(ws[1..][1..], " ") == "login" + " " + "bug";
    assert Join(ws[1..], " ") == "the" + " " + ("login" + " " + "bug");
    assert "fix the login bug" == "fix" + " " + ("the" + " " + ("login" + " " + "bug"));
  }

  lemma LoginBugWords()
    ensures forall i :: 0 <= i < 4 ==> IsToken(["fix", "the", "login", "bug"][i])
  {
    LettersAreToken("fix");
    LettersAreToken("the");
    LettersAreToken("login");
    LettersAreToken("bug");
  }

  lemma LoginBugLonger()
    ensures LongerThan3(["fix", "the", "login", "bug"]) == ["login"]
  {
    var ws := ["fix", "the", "login", "bug"];
    assert ws[1..][1..][1..] == ["bug"];
    assert LongerThan3(ws[1..][1..][1..]) == [];
    assert LongerThan3(ws[1..][1..]) == ["login"];
  }

  /** Lower-case letters and spaces pass through the punctuation filter unchanged. */
  lemma NormalizeKeeps(s: string)
    requires forall i :: 0 <= i < |s| ==> ('a' <= s[i] <= 'z') || s[i] == ' '
    ensures Normalize(s) == s
  {
    forall i | 0 <= i < |s| ensures Normalize(s)[i] == s[i] {
      assert IsWordChar(s[i]) || IsSpace(s[i]);
    }
  }

  lemma LettersAreToken(w: string)
    requires w != [] && forall i :: 0 <= i < |w| ==> 'a' <= w[i] <= 'z'
    ensures IsToken(w)
  {
  }

  // ---------------------------------------------------------------------------
  // scoring

  /** path.basename: the text after the last '/'. */
  function Basename(path: string): (r: string)
    ensures '/' !in r
  {
    var parts := Split(path, '/');
    parts[|parts| - 1]
  }

  /** The basename is the last segment of the path: a suffix without '/', which is either the
      whole path or follows a '/'. */
  lemma BasenameIsLastSegment(path: string)
    ensures var b := Basename(path);
      && '/' !in b && |b| <= |path| && path[|path| - |b|..] == b
      && (|b| < |path| ==> path[|path| - |b| - 1] == '/')
  {
    var parts := Split(path, '/');
    var b := parts[|parts| - 1];
    assert Basename(path) == b;
    JoinSplit(path, '/');
    assert Join(parts, "/") == path;
    JoinEnds(parts, "/");
    assert |b| < |path| ==> |parts| > 1;
  }

  /** The relevance of a file: for each keyword, 3 when the lower-cased file name contains it,
      plus the number of case-insensitive non-overlapping matches in the content. */
  function Score(keywords: seq<string>, name: string, content: string): nat
    requires forall i :: 0 <= i < |keywords| ==> |keywords[i]| > 0
  {
    if keywords == [] then 0
    else
      var kw := keywords[|keywords| - 1];
      Score(keywords[..|keywords| - 1], name, content)
      + (if Contains(Lower(name), kw) then 3 else 0)
      + CountOccurrences(Lower(content), kw)
  }

  predicate Mentions(kw: string, name: string, content: string) {
    Contains(Lower(name), kw) || Contains(Lower(content), kw)
  }

  /** A file scores above zero exactly when some keyword occurs in its name or content. */
  lemma {:induction false} ScorePositive(keywords: seq<string>, name: string, content: string)
    requires forall i :: 0 <= i < |keywords| ==> |keywords[i]| > 0
    ensures Score(keywords, name, content) > 0
            <==> exists i :: 0 <= i < |keywords| && Mentions(keywords[i], name, content)
  {
    if keywords != [] {
      var init := keywords[..|keywords| - 1];
      ScorePositive(init, name, content);
      if exists i :: 0 <= i < |init| && Mentions(init[i], name, content) {
        var i :| 0 <= i < |init| && Mentions(init[i], name, content);
        assert keywords[i] == init[i];
      }
      if exists i :: 0 <= i < |keywords| && Mentions(keywords[i], name, content) {
        var i :| 0 <= i < |keywords| && Mentions(keywords[i], name, content);
        if i < |init| { assert init[i] == keywords[i]; }
      }
    }
  }

  /** The scoring loop of findRelevantFiles for one file. */
  method ScoreFile(keywords: seq<string>, name: string, content: string) returns (score: nat)
    requires forall i :: 0 <= i < |keywords| ==> |keywords[i]| > 0
    ensures score == Score(keywords, name, content)
  {
    var filename := Lower(name);
    var text := Lower(content);
    score := 0;
    var i := 0;
    while i < |keywords|
      invariant 0 <= i <= |keywords|
      invariant score == Score(keywords[..i], name, content)
    {
      assert keywords[..i + 1][..i] == keywords[..i];
      var kw := keywords[i];
      if Contains(filename, kw) {
        score := score + 3;
      }
      score := score + CountOccurrences(text, kw);
      i := i + 1;
    }
    assert keywords[..i] == keywords;
  }

  // ---------------------------------------------------------------------------
  // selection

  datatype RelevantFile = RelevantFile(path: string, content: string, score: nat)

  function ScoreOf(f: RelevantFile): int { f.score }

  predicate Admitted(f: SourceFile, keywords: seq<string>, maxBytes: int)
    requires forall i :: 0 <= i < |keywords| ==> |keywords[i]| > 0
  {
    f.size <= maxBytes && f.content.Some?
    && Score(keywords, Basename(f.path), f.content.value) > 0
  }

  function Scored(f: SourceFile, keywords: seq<string>): RelevantFile
    requires forall i :: 0 <= i < |keywords| ==> |keywords[i]| > 0
    requires f.content.Some?
  {
    RelevantFile(f.path, f.content.value, Score(keywords, Basename(f.path), f.content.value))
  }

  /** relevantFiles before sorting: the files within the size limit whose content can be read
      and whose score is positive, in discovery order. */
  function Candidates(files: seq<SourceFile>, keywords: seq<string>, maxBytes: int): seq<RelevantFile>
    requires forall i :: 0 <= i < |keywords| ==> |keywords[i]| > 0
  {
    if files == [] then []
    else
      var init := Candidates(files[..|files| - 1], keywords, maxBytes);
      var f := files[|files| - 1];
      if Admitted(f, keywords, maxBytes) then init + [Scored(f, keywords)] else init
  }

  /** r is the entry findRelevantFiles makes for f, and f is admitted. */
  predicate ScoresAs(f: SourceFile, keywords: seq<string>, maxBytes: int, r: RelevantFile)
    requires forall i :: 0 <= i < |keywords| ==> |keywords[i]| > 0
  {
    Admitted(f, keywords, maxBytes) && r == Scored(f, keywords)
  }

  /** A scored file is a candidate exactly when it comes from an admitted file. */
  lemma {:induction false} CandidateIff(files: seq<SourceFile>, keywords: seq<string>, maxBytes: int,
                                        r: RelevantFile)
    requires forall i :: 0 <= i < |keywords| ==> |keywords[i]| > 0
    ensures r in Candidates(files, keywords, maxBytes)
            <==> exists i :: 0 <= i < |files| && ScoresAs(files[i], keywords, maxBytes, r)
  {
    if files != [] {
      var init := files[..|files| - 1];
      var f := files[|files| - 1];
      CandidateIff(init, keywords, maxBytes, r);
      CandidateLast(init, f, keywords, maxBytes, r);
      if exists i :: 0 <= i < |files| && ScoresAs(files[i], keywords, maxBytes, r) {
        var i :| 0 <= i < |files| && ScoresAs(files[i], keywords, maxBytes, r);
        if i < |init| { assert init[i] == files[i]; }
      }
      if exists i :: 0 <= i < |init| && ScoresAs(init[i], keywords, maxBytes, r) {
        var i :| 0 <= i < |init| && ScoresAs(init[i], keywords, maxBytes, r);
        assert files[i] == init[i];
      }
      assert files == init + [f];
    }
  }

  /** One step of the candidate loop. */
  lemma CandidateLast(init: seq<SourceFile>, f: SourceFile, keywords: seq<string>, maxBytes: int,
                      r: RelevantFile)
    requires forall i :: 0 <= i < |keywords| ==> |keywords[i]| > 0
    ensures r in Candidates(init + [f], keywords, maxBytes)
            <==> r in Candidates(init, keywords, maxBytes) || ScoresAs(f, keywords, maxBytes, r)
  {
    assert (init + [f])[..|init|] == init;
  }

  /** The result of findRelevantFiles over the candidate files. */
  function Select(files: seq<SourceFile>, keywords: seq<string>, maxBytes: int, maxCount: nat)
    : seq<RelevantFile>
    requires forall i :: 0 <= i < |keywords| ==> |keywords[i]| > 0
  {
    Take(SortDesc(Candidates(files, keywords, maxBytes), ScoreOf), maxCount)
  }

  /** The selection holds at most maxCount candidates in non-increasing score order, and every
      candidate left out scores no more than any file selected. */
  lemma SelectFacts(files: seq<SourceFile>, keywords: seq<string>, maxBytes: int, maxCount: nat)
    requires forall i :: 0 <= i < |keywords| ==> |keywords[i]| > 0
    ensures var r, c := Select(files, keywords, maxBytes, maxCount), Candidates(files, keywords, maxBytes);
      && |r| == (if maxCount < |c| then maxCount else |c|)
      && SortedDesc(r, ScoreOf)
      && (forall x :: x in r ==> x in c)
      && (forall x, y :: x in c && x !in r && y in r ==> y.score >= x.score)
  {
    var c := Candidates(files, keywords, maxBytes);
    var r := Select(files, keywords, maxBytes, maxCount);
    assert r == Take(SortDesc(c, ScoreOf), maxCount);
    TopFacts(c, ScoreOf, maxCount);
    forall x, y | x in c && x !in r && y in r ensures y.score >= x.score {
      assert ScoreOf(y) >= ScoreOf(x);
    }
  }

  /** The first n of a stable descending sort: sorted, drawn from the input, and scoring at
      least as much as every element left out. */
  lemma TopFacts<T>(c: seq<T>, key: T -> int, n: nat)
    ensures var r := Take(SortDesc(c, key), n);
      && |r| == (if n < |c| then n else |c|)
      && SortedDesc(r, key)
      && (forall x :: x in r ==> x in c)
      && (forall x, y :: x in c && x !in r && y in r ==> key(y) >= key(x))
  {
    var sorted := SortDesc(c, key);
    SortDescFacts(c, key);
    var r := Take(sorted, n);
    forall x | x in r ensures x in c {
      assert x in multiset(sorted);
    }
    forall x, y | x in c && x !in r && y in r ensures key(y) >= key(x) {
      TopBeatsRest(c, key, n, x, y);
    }
  }

  lemma TopBeatsRest<T>(c: seq<T>, key: T -> int, n: nat, x: T, y: T)
    requires SortedDesc(SortDesc(c, key), key) && multiset(SortDesc(c, key)) == multiset(c)
    requires x in c && x !in Take(SortDesc(c, key), n) && y in Take(SortDesc(c, key), n)
    ensures key(y) >= key(x)
  {
    var sorted := SortDesc(c, key);
    var r := Take(sorted, n);
    assert x in multiset(sorted);
    var j :| 0 <= j < |sorted| && sorted[j] == x;
    var i :| 0 <= i < |r| && r[i] == y;
    assert sorted[i] == y;
    assert |r| <= j;
  }

  /** Every selected file scores above zero, fits the size limit, and was read successfully. */
  lemma SelectedAreAdmitted(files: seq<SourceFile>, keywords: seq<string>, maxBytes: int,
                            maxCount: nat, r: RelevantFile)
    requires forall i :: 0 <= i < |keywords| ==> |keywords[i]| > 0
    requires r in Select(files, keywords, maxBytes, maxCount)
    ensures r.score > 0
    ensures exists i :: 0 <= i < |files| && files[i].path == r.path && files[i].size <= maxBytes
                        && files[i].content == Some(r.content)
  {
    SelectFacts(files, keywords, maxBytes, maxCount);
    CandidateIff(files, keywords, maxBytes, r);
    var i :| 0 <= i < |files| && ScoresAs(files[i], keywords, maxBytes, r);
  }

  /** The size limit is inclusive: a file of exactly maxBytes bytes is scored, one byte more is
      skipped. */
  lemma SizeLimitBoundary(keywords: seq<string>, path: string, content: string, maxBytes: int)
    requires forall i :: 0 <= i < |keywords| ==> |keywords[i]| > 0
    requires Score(keywords, Basename(path), content) > 0
    ensures Candidates([SourceFile(path, maxBytes, Some(content))], keywords, maxBytes) != []
    ensures Candidates([SourceFile(path, maxBytes + 1, Some(content))], keywords, maxBytes) == []
  {
    assert [SourceFile(path, maxBytes, Some(content))][..0] == [];
    assert [SourceFile(path, maxBytes + 1, Some(content))][..0] == [];
  }

  /** The pattern loop of findRelevantFiles: the files under each base directory, in turn,
      that the file-name filter keeps. */
  method CollectFiles(projectDir: string, root: seq<Entry>, patterns: seq<string>, ignore: set<string>,
                      keep: string -> bool)
    returns (allFiles: seq<SourceFile>)
    ensures allFiles == CandidatesFrom(projectDir, root, patterns, ignore, keep)
  {
    allFiles := [];
    var p := 0;
    while p < |patterns|
      invariant 0 <= p <= |patterns|
      invariant allFiles == CandidatesFrom(projectDir, root, patterns[..p], ignore, keep)
    {
      assert patterns[..p + 1][..p] == patterns[..p];
      allFiles := allFiles + FilesUnder(projectDir, root, patterns[p], ignore, keep);
      p := p + 1;
    }
    assert patterns[..p] == patterns;
  }

  /** The scoring loop of findRelevantFiles: size limit, read, score, keep if positive. */
  method ScoreFiles(allFiles: seq<SourceFile>, keywords: seq<string>, maxBytes: int)
    returns (relevant: seq<RelevantFile>)
    requires forall i :: 0 <= i < |keywords| ==> |keywords[i]| > 0
    ensures relevant == Candidates(allFiles, keywords, maxBytes)
  {
    relevant := [];
    var k := 0;
    while k < |allFiles|
      invariant 0 <= k <= |allFiles|
      invariant relevant == Candidates(allFiles[..k], keywords, maxBytes)
    {
      assert allFiles[..k + 1][..k] == allFiles[..k];
      var file := allFiles[k];
      if file.size <= maxBytes && file.content.Some? {
        var score := ScoreFile(keywords, Basename(file.path), file.content.value);
        if score > 0 {
          relevant := relevant + [RelevantFile(file.path, file.content.value, score)];
        }
      }
      k := k + 1;
    }
    assert allFiles[..k] == allFiles;
  }

  /** findRelevantFiles over a directory tree, with the file-name filter as a parameter:
      MatchesExtensionAsWritten is the code's, HasSourceExtension the intended one. */
  method FindRelevantFiles(projectDir: string, root: seq<Entry>, info: ProjectInfo, desc: string,
                           ignore: set<string>, maxFileSizeKb: int, maxContextFiles: nat,
                           keep: string -> bool)
    returns (result: seq<RelevantFile>)
    ensures var keywords := Keywords(desc);
      (forall i :: 0 <= i < |keywords| ==> |keywords[i]| > 0)
      && result == Select(CandidatesFrom(projectDir, root, BaseDirs(info), ignore, keep), keywords,
                          maxFileSizeKb * 1024, maxContextFiles)
  {
    var keywords := Keywords(desc);
    var allFiles := CollectFiles(projectDir, root, BaseDirs(info), ignore, keep);
    var relevant := ScoreFiles(allFiles, keywords, maxFileSizeKb * 1024);
    result := Take(SortDesc(relevant, ScoreOf), maxContextFiles);
  }

  /** With the filter as written, findRelevantFiles selects nothing from a project whose
      directory and entry names have no brace, whatever the description. */
  lemma AsWrittenSelectsNothing(projectDir: string, root: seq<Entry>, info: ProjectInfo, desc: string,
                                ignore: set<string>, maxBytes: int, maxCount: nat)
    requires '{' !in projectDir && BraceFree(root)
    ensures var keywords := Keywords(desc);
      (forall i :: 0 <= i < |keywords| ==> |keywords[i]| > 0)
      && Select(CandidatesFrom(projectDir, root, BaseDirs(info), ignore, MatchesExtensionAsWritten),
                keywords, maxBytes, maxCount) == []
  {
    KeywordShape(desc);
    AsWrittenCollectsNothing(projectDir, root, info, ignore);
  }
}

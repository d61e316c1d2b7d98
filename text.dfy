/**
 * String primitives with the semantics of the JavaScript built-ins the assistant uses:
 * character classes (\w, \s), ASCII lower-casing, trim, split on one character,
 * join, indexOf/includes, and counting non-overlapping occurrences (String.match with /g).
 * Strings are sequences of characters.
 */
module Text {
  import opened Wrappers

  /** \w in a JavaScript regular expression without the u flag: [A-Za-z0-9_]. */
  predicate IsWordChar(c: char) {
    ('a' <= c <= 'z') || ('A' <= c <= 'Z') || ('0' <= c <= '9') || c == '_'
  }

  /** \s in a JavaScript regular expression, and what String.prototype.trim removes:
      the WhiteSpace and LineTerminator code points of ECMAScript. */
  predicate IsSpace(c: char) {
    c in Whitespace
  }

  const Whitespace: set<char> := {
    '\t', '\n', '\U{B}', '\U{C}', '\r', ' ', '\U{A0}', '\U{1680}',
    '\U{2000}', '\U{2001}', '\U{2002}', '\U{2003}', '\U{2004}', '\U{2005}', '\U{2006}',
    '\U{2007}', '\U{2008}', '\U{2009}', '\U{200A}',
    '\U{2028}', '\U{2029}', '\U{202F}', '\U{205F}', '\U{3000}', '\U{FEFF}'}

  predicate IsUpper(c: char) { 'A' <= c <= 'Z' }

  predicate IsLowerWordChar(c: char) { ('a' <= c <= 'z') || ('0' <= c <= '9') || c == '_' }

  function LowerChar(c: char): (r: char)
    ensures IsUpper(c) ==> r as int == c as int + 32
    ensures !IsUpper(c) ==> r == c
  {
    if IsUpper(c) then (c as int + 32) as char else c
  }

  /** String.prototype.toLowerCase restricted to the ASCII letters. */
  function Lower(s: string): (r: string)
    ensures |r| == |s|
    ensures forall i :: 0 <= i < |s| ==> r[i] == LowerChar(s[i])
  {
    seq(|s|, i requires 0 <= i < |s| => LowerChar(s[i]))
  }

  lemma LowerWordChar(c: char)
    requires IsWordChar(c)
    ensures IsLowerWordChar(LowerChar(c))
  {
  }

  // ---------------------------------------------------------------------------
  // trim

  /** String.prototype.trimStart. TrimStartAt and TrimStartHead below say which suffix it is. */
  function TrimStart(s: string): (r: string)
    ensures |r| <= |s|
    ensures r == [] || !IsSpace(r[0])
  {
    if s == [] || !IsSpace(s[0]) then s else TrimStart(s[1..])
  }

  /** String.prototype.trimEnd. TrimEndAt and TrimEndTail below say which prefix it is. */
  function TrimEnd(s: string): (r: string)
    ensures |r| <= |s|
    ensures r == [] || !IsSpace(r[|r| - 1])
  {
    if s == [] || !IsSpace(s[|s| - 1]) then s else TrimEnd(s[..|s| - 1])
  }

  /** String.prototype.trim: the longest infix with no surrounding whitespace. */
  function Trim(s: string): string {
    TrimEnd(TrimStart(s))
  }

  /** Trim removes whitespace from the ends only: the result is the infix of the input that
      starts after the leading whitespace, everything cut away is whitespace, and the result
      neither starts nor ends with whitespace. */
  lemma TrimIsInfix(s: string)
    ensures var a, r := |s| - |TrimStart(s)|, Trim(s);
      && a + |r| <= |s| && (forall i :: 0 <= i < |r| ==> r[i] == s[a + i])
      && (forall i :: 0 <= i < a ==> IsSpace(s[i]))
      && (forall i :: a + |r| <= i < |s| ==> IsSpace(s[i]))
      && (r == [] || (!IsSpace(r[0]) && !IsSpace(r[|r| - 1])))
  {
    var t := TrimStart(s);
    var a := |s| - |t|;
    var r := TrimEnd(t);
    forall i | 0 <= i < |r| ensures r[i] == s[a + i] {
      TrimAt(s, i);
    }
    forall i | a + |r| <= i < |s| ensures IsSpace(s[i]) {
      TrimTailSpace(s, i);
    }
    forall i | 0 <= i < a ensures IsSpace(s[i]) {
      TrimStartHead(s, i);
    }
    TrimBoundaries(s);
  }

  /** What TrimStart removes is whitespace. */
  lemma {:induction false} TrimStartHead(s: string, i: int)
    requires 0 <= i < |s| - |TrimStart(s)|
    ensures IsSpace(s[i])
  {
    if i > 0 {
      TrimStartHead(s[1..], i - 1);
    }
  }

  lemma TrimBoundaries(s: string)
    ensures Trim(s) == [] || (!IsSpace(Trim(s)[0]) && !IsSpace(Trim(s)[|Trim(s)| - 1]))
  {
    var t := TrimStart(s);
    if Trim(s) != [] {
      TrimEndAt(t, 0);
      TrimStartFirst(s);
    }
  }

  /** TrimEnd keeps a prefix of its input. */
  lemma {:induction false} TrimEndAt(s: string, i: int)
    requires 0 <= i < |TrimEnd(s)|
    ensures TrimEnd(s)[i] == s[i]
  {
    if s != [] && IsSpace(s[|s| - 1]) {
      TrimEndAt(s[..|s| - 1], i);
    }
  }

  lemma TrimStartKeeps(s: string)
    requires s == [] || !IsSpace(s[0])
    ensures TrimStart(s) == s
  {
  }

  lemma TrimStartFirst(s: string)
    ensures TrimStart(s) == [] || !IsSpace(TrimStart(s)[0])
  {
  }

  lemma TrimAt(s: string, i: int)
    requires 0 <= i < |Trim(s)|
    ensures Trim(s)[i] == s[|s| - |TrimStart(s)| + i]
  {
    TrimEndAt(TrimStart(s), i);
    TrimStartAt(s, i);
  }

  lemma TrimTailSpace(s: string, i: int)
    requires |s| - |TrimStart(s)| + |Trim(s)| <= i < |s|
    ensures IsSpace(s[i])
  {
    var t := TrimStart(s);
    var j := i - (|s| - |t|);
    TrimStartAt(s, j);
    TrimEndTail(t, j);
  }

  /** TrimStart keeps a suffix of its input. */
  lemma {:induction false} TrimStartAt(s: string, i: int)
    requires 0 <= i < |TrimStart(s)|
    ensures TrimStart(s)[i] == s[|s| - |TrimStart(s)| + i]
  {
    if s != [] && IsSpace(s[0]) {
      TrimStartAt(s[1..], i);
    }
  }

  /** What TrimEnd removes is whitespace. */
  lemma {:induction false} TrimEndTail(s: string, i: int)
    requires |TrimEnd(s)| <= i < |s|
    ensures IsSpace(s[i])
  {
    if i < |s| - 1 {
      TrimEndTail(s[..|s| - 1], i);
    }
  }

  /** Trimming is idempotent. */
  lemma {:induction false} TrimIdempotent(s: string)
    ensures Trim(Trim(s)) == Trim(s)
  {
    var r := Trim(s);
    TrimIsInfix(s);
    assert r == [] || !IsSpace(r[0]);
    assert TrimStart(r) == r;
    assert r == [] || !IsSpace(r[|r| - 1]);
  }

  // ---------------------------------------------------------------------------
  // occurrences, indexOf, includes

  /** pat occurs in s starting at index i. */
  predicate OccursAt(s: string, pat: string, i: int) {
    0 <= i && i + |pat| <= |s| && s[i..i + |pat|] == pat
  }

  /** String.prototype.indexOf(pat, from): the first occurrence at or after from. */
  function IndexOf(s: string, pat: string, from: nat): (r: Option<nat>)
    ensures r.Some? ==> from <= r.value && OccursAt(s, pat, r.value)
    ensures r.Some? ==> forall j :: from <= j < r.value ==> !OccursAt(s, pat, j)
    ensures r.None? ==> forall j :: from <= j ==> !OccursAt(s, pat, j)
    decreases |s| - from
  {
    if from + |pat| > |s| then None
    else if s[from..from + |pat|] == pat then Some(from)
    else IndexOf(s, pat, from + 1)
  }

  /** String.prototype.includes. */
  predicate Contains(s: string, pat: string) {
    IndexOf(s, pat, 0).Some?
  }

  lemma ContainsIff(s: string, pat: string)
    ensures Contains(s, pat) <==> exists i :: OccursAt(s, pat, i)
  {
    if !Contains(s, pat) {
      forall i ensures !OccursAt(s, pat, i) {
        if 0 <= i { assert !OccursAt(s, pat, i); }
      }
    }
  }

  /** The number of matches String.prototype.match returns for a global regular expression
      that matches the literal pat: non-overlapping occurrences, scanning left to right. */
  function CountFrom(s: string, pat: string, from: nat): (n: nat)
    requires |pat| > 0
    ensures n > 0 <==> IndexOf(s, pat, from).Some?
    decreases |s| - from
  {
    match IndexOf(s, pat, from)
    case None => 0
    case Some(i) => 1 + CountFrom(s, pat, i + |pat|)
  }

  function CountOccurrences(s: string, pat: string): (n: nat)
    requires |pat| > 0
    ensures n > 0 <==> Contains(s, pat)
  {
    CountFrom(s, pat, 0)
  }

  predicate StartsWith(s: string, pre: string) {
    |pre| <= |s| && s[..|pre|] == pre
  }

  predicate EndsWith(s: string, suf: string) {
    |suf| <= |s| && s[|s| - |suf|..] == suf
  }

  // ---------------------------------------------------------------------------
  // split and join

  /** String.prototype.split with a one-character separator: never empty, and the pieces
      hold no separator. */
  function Split(s: string, sep: char): (r: seq<string>)
    ensures |r| >= 1
    ensures forall i :: 0 <= i < |r| ==> sep !in r[i]
  {
    if s == [] then [[]]
    else if s[0] == sep then [[]] + Split(s[1..], sep)
    else
      var rest := Split(s[1..], sep);
      [[s[0]] + rest[0]] + rest[1..]
  }

  /** Array.prototype.join. */
  function Join(parts: seq<string>, sep: string): string {
    if parts == [] then []
    else if |parts| == 1 then parts[0]
    else parts[0] + sep + Join(parts[1..], sep)
  }

  lemma JoinStarts(parts: seq<string>, sep: string)
    requires |parts| >= 1
    ensures |parts[0]| <= |Join(parts, sep)| && Join(parts, sep)[..|parts[0]|] == parts[0]
  {
  }

  /** A join ends with its last part, which follows a separator when there are several parts. */
  lemma {:induction false} JoinEnds(parts: seq<string>, sep: string)
    requires |parts| >= 1
    ensures var j, l := Join(parts, sep), parts[|parts| - 1];
      && |l| <= |j| && j[|j| - |l|..] == l
      && (|parts| > 1 ==> |l| + |sep| <= |j| && j[|j| - |l| - |sep|..|j| - |l|] == sep)
  {
    if |parts| > 1 {
      var rest := parts[1..];
      JoinEnds(rest, sep);
      var j, r, l := Join(parts, sep), Join(rest, sep), parts[|parts| - 1];
      assert j == parts[0] + sep + r;
      assert rest[|rest| - 1] == l;
      assert j[|j| - |r|..] == r;
      assert j[|j| - |l|..] == r[|r| - |l|..];
      if |rest| == 1 {
        assert j[|j| - |l| - |sep|..|j| - |l|] == sep;
      } else {
        assert j[|j| - |l| - |sep|..|j| - |l|] == r[|r| - |l| - |sep|..|r| - |l|];
      }
    }
  }

  /** Joining the pieces of a split with the separator gives back the string. */
  lemma {:induction false} JoinSplit(s: string, sep: char)
    ensures Join(Split(s, sep), [sep]) == s
  {
    if s == [] {
    } else if s[0] == sep {
      JoinSplit(s[1..], sep);
      var rest := Split(s[1..], sep);
      assert Join([[]] + rest, [sep]) == [] + [sep] + Join(rest, [sep]);
    } else {
      JoinSplit(s[1..], sep);
      var rest := Split(s[1..], sep);
      if |rest| == 1 {
        assert Split(s, sep) == [[s[0]] + rest[0]];
      } else {
        assert Join(rest, [sep]) == rest[0] + [sep] + Join(rest[1..], [sep]);
        assert Split(s, sep) == [[s[0]] + rest[0]] + rest[1..];
        assert Join(Split(s, sep), [sep]) == [s[0]] + rest[0] + [sep] + Join(rest[1..], [sep]);
      }
    }
  }

  /** Splitting a join of separator-free pieces gives back the pieces. */
  lemma {:induction false} SplitJoin(parts: seq<string>, sep: char)
    requires |parts| >= 1
    requires forall i :: 0 <= i < |parts| ==> sep !in parts[i]
    ensures Split(Join(parts, [sep]), sep) == parts
  {
    if |parts| == 1 {
      SplitPiece(parts[0], [], sep, [[]]);
      assert parts[0] + [] == parts[0];
    } else {
      SplitJoin(parts[1..], sep);
      var tail := Join(parts[1..], [sep]);
      assert Join(parts, [sep]) == parts[0] + ([sep] + tail);
      assert ([sep] + tail)[0] == sep && ([sep] + tail)[1..] == tail;
      assert Split([sep] + tail, sep) == [[]] + parts[1..];
      SplitPiece(parts[0], [sep] + tail, sep, [[]] + parts[1..]);
      assert parts[0] + [] == parts[0];
      assert parts == [parts[0]] + parts[1..];
    }
  }

  /** A separator-free prefix is glued to the first piece of the rest. */
  lemma {:induction false} SplitPiece(w: string, rest: string, sep: char, pieces: seq<string>)
    requires sep !in w
    requires Split(rest, sep) == pieces
    ensures |pieces| >= 1
    ensures Split(w + rest, sep) == [w + pieces[0]] + pieces[1..]
  {
    if w != [] {
      SplitPiece(w[1..], rest, sep, pieces);
      assert (w + rest)[1..] == w[1..] + rest;
      assert (w + rest)[0] == w[0];
      assert [w[0]] + (w[1..] + pieces[0]) == w + pieces[0];
    } else {
      assert w + rest == rest;
      assert w + pieces[0] == pieces[0];
      assert pieces == [pieces[0]] + pieces[1..];
    }
  }

  /** The first piece of s.split(pat) for a multi-character pat: the text before the
      first occurrence, or the whole string. */
  function BeforeFirst(s: string, pat: string): (r: string)
    ensures StartsWith(s, r)
    ensures IndexOf(s, pat, 0).None? ==> r == s
    ensures IndexOf(s, pat, 0).Some? ==> OccursAt(s, pat, |r|) && (|pat| == 0 || !Contains(r, pat))
  {
    match IndexOf(s, pat, 0)
    case None => s
    case Some(i) =>
      NoOccurrenceInPrefix(s, pat, i);
      s[..i]
  }

  lemma NoOccurrenceInPrefix(s: string, pat: string, i: nat)
    requires i <= |s|
    requires forall j :: 0 <= j < i ==> !OccursAt(s, pat, j)
    ensures |pat| == 0 || !Contains(s[..i], pat)
  {
    if |pat| > 0 && Contains(s[..i], pat) {
      var j := IndexOf(s[..i], pat, 0).value;
      assert s[..i][j..j + |pat|] == s[j..j + |pat|];
      assert OccursAt(s, pat, j);
    }
  }

  /** String.prototype.padEnd with spaces. */
  function PadEnd(s: string, width: int): (r: string)
    ensures |s| >= width ==> r == s
    ensures |s| < width ==> |r| == width
    ensures StartsWith(r, s)
    ensures forall i :: |s| <= i < |r| ==> r[i] == ' '
  {
    if |s| >= width then s else s + Repeat(' ', width - |s|)
  }

  /** String.prototype.repeat on a one-character string. */
  function Repeat(c: char, n: nat): (r: string)
    ensures |r| == n
    ensures forall i :: 0 <= i < n ==> r[i] == c
  {
    seq(n, _ => c)
  }

  /** The number of times c occurs in s. */
  function CountChar(s: string, c: char): nat {
    if s == [] then 0 else (if s[0] == c then 1 else 0) + CountChar(s[1..], c)
  }

  /** Distinct elements: a JavaScript Set kept in insertion order. */
  predicate NoDuplicates<T(==)>(s: seq<T>) {
    forall i, j :: 0 <= i < j < |s| ==> s[i] != s[j]
  }

  /** Set.prototype.add on an insertion-ordered set. */
  function AddUnique(s: seq<string>, x: string): (r: seq<string>)
    ensures NoDuplicates(s) ==> NoDuplicates(r)
    ensures x in r
    ensures forall y :: y in r <==> y in s || y == x
    ensures |s| <= |r| && forall i :: 0 <= i < |s| ==> r[i] == s[i]
  {
    if x in s then s else s + [x]
  }

  /** Adds every element of xs, in order. */
  function AddAll(s: seq<string>, xs: seq<string>): (r: seq<string>)
    ensures NoDuplicates(s) ==> NoDuplicates(r)
    ensures forall y :: y in r <==> y in s || y in xs
    decreases |xs|
  {
    if xs == [] then s else AddAll(AddUnique(s, xs[0]), xs[1..])
  }

  /** slice(0, n). */
  function Take<T>(s: seq<T>, n: nat): (r: seq<T>)
    ensures |r| == if n < |s| then n else |s|
    ensures forall i :: 0 <= i < |r| ==> r[i] == s[i]
  {
    if n < |s| then s[..n] else s
  }

  /** The decimal digits of n, most significant first, as String(n) writes them. */
  function NatString(n: nat): (r: string)
    ensures r != [] && forall i :: 0 <= i < |r| ==> '0' <= r[i] <= '9'
    decreases n
  {
    if n < 10 then [('0' as int + n) as char]
    else NatString(n / 10) + [('0' as int + n % 10) as char]
  }

  /** String(n) for an integer n: a minus sign before the digits of a negative one. */
  function IntString(n: int): (r: string)
    ensures r != []
    ensures n < 0 <==> r[0] == '-'
  {
    if n < 0 then "-" + NatString(-n) else NatString(n)
  }
}

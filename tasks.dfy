/**
 * Tasks: the record kept for every request, the keyword heuristic that guesses a task's type
 * when the caller gives none, and the numbered menu the command line offers instead.
 */
module Tasks {
  import opened Wrappers
  import opened Text

  /** TaskStatus. PENDING exists in the enumeration, but a task is created RUNNING. */
  datatype TaskStatus = Pending | Running | Completed | Failed

  datatype TaskResult = TaskResult(code: string, explanation: string)

  datatype Task = Task(
    id: string,
    description: string,
    taskType: Option<string>,
    status: TaskStatus,
    startTime: int,
    endTime: Option<int>,
    result: Option<TaskResult>,
    error: Option<string>)

  const CREATE_COMPONENT := "Create new component"
  const MODIFY_CODE := "Modify existing code"
  const FIX_BUG := "Fix a bug"
  const IMPLEMENT_FEATURE := "Implement a feature"
  const OTHER := "Other"

  /** The menu of the command line, in its order. */
  const TaskTypes := [CREATE_COMPONENT, MODIFY_CODE, FIX_BUG, IMPLEMENT_FEATURE, OTHER]

  predicate Mentions(lower: string, a: string, b: string) {
    Contains(lower, a) || Contains(lower, b)
  }

  /** The heuristic: the first group of keywords the lower-cased description contains decides. */
  function InferTaskType(desc: string): (r: string)
    ensures r in TaskTypes
  {
    var lower := Lower(desc);
    if Mentions(lower, "create", "new component") then CREATE_COMPONENT
    else if Mentions(lower, "fix", "bug") then FIX_BUG
    else if Mentions(lower, "modify", "change") then MODIFY_CODE
    else if Mentions(lower, "implement", "feature") then IMPLEMENT_FEATURE
    else OTHER
  }

  /** Each outcome of the heuristic holds exactly when its keywords occur and those of every
      earlier group do not. */
  lemma InferTaskTypeCases(desc: string)
    ensures var l, r := Lower(desc), InferTaskType(desc);
      && (r == CREATE_COMPONENT <==> Mentions(l, "create", "new component"))
      && (r == FIX_BUG <==> !Mentions(l, "create", "new component") && Mentions(l, "fix", "bug"))
      && (r == MODIFY_CODE <==> !Mentions(l, "create", "new component") && !Mentions(l, "fix", "bug")
                                && Mentions(l, "modify", "change"))
      && (r == IMPLEMENT_FEATURE <==> !Mentions(l, "create", "new component") && !Mentions(l, "fix", "bug")
                                      && !Mentions(l, "modify", "change") && Mentions(l, "implement", "feature"))
      && (r == OTHER <==> !Mentions(l, "create", "new component") && !Mentions(l, "fix", "bug")
                          && !Mentions(l, "modify", "change") && !Mentions(l, "implement", "feature"))
  {
  }

  lemma ContainsAt(s: string, pat: string, i: nat)
    requires i + |pat| <= |s| && s[i..i + |pat|] == pat
    ensures Contains(s, pat)
  {
    ContainsIff(s, pat);
    assert OccursAt(s, pat, i);
  }

  lemma NotContainsChar(s: string, pat: string, c: char)
    requires c in pat && c !in s
    ensures !Contains(s, pat)
  {
    ContainsIff(s, pat);
  }

  lemma LoginBugLower()
    ensures Lower("Fix the login bug") == "fix the login bug"
  {
    var d := "Fix the login bug";
    var l := "fix the login bug";
    forall i | 0 <= i < |d| ensures Lower(d)[i] == l[i] {
      assert Lower(d)[i] == LowerChar(d[i]);
    }
  }

  /** A description whose lower-case form mentions "fix" and no creation keyword is a bug fix. */
  lemma InferFixVia(desc: string, l: string)
    requires Lower(desc) == l && Contains(l, "fix")
    requires !Contains(l, "create") && !Contains(l, "new component")
    ensures InferTaskType(desc) == FIX_BUG
  {
  }

  /** "Fix the login bug" is a bug fix. */
  lemma InferFixExample()
    ensures InferTaskType("Fix the login bug") == FIX_BUG
  {
    var l := "fix the login bug";
    LoginBugLower();
    ContainsAt(l, "fix", 0);
    NotContainsChar(l, "create", 'c');
    NotContainsChar(l, "new component", 'c');
    InferFixVia("Fix the login bug", l);
  }

  /** "Create a fix" is a new component: creation is checked before bug fixing. */
  lemma InferCreateExample()
    ensures InferTaskType("Create a fix") == CREATE_COMPONENT
  {
    var b := "Create a fix";
    var l := "create a fix";
    assert Lower(b) == l by {
      forall i | 0 <= i < |b| ensures Lower(b)[i] == l[i] { }
    }
    ContainsAt(l, "create", 0);
  }

  // ---------------------------------------------------------------------------
  // the command-line menu

  /** The value of a digit in bases up to 36. */
  function DigitValue(c: char): nat {
    if '0' <= c <= '9' then c as nat - '0' as nat
    else if 'a' <= c <= 'z' then c as nat - 'a' as nat + 10
    else if 'A' <= c <= 'Z' then c as nat - 'A' as nat + 10
    else 36
  }

  function DigitRun(s: string, radix: nat): (n: nat)
    ensures n <= |s|
    ensures forall k :: 0 <= k < n ==> DigitValue(s[k]) < radix
    ensures n == |s| || DigitValue(s[n]) >= radix
  {
    if s == [] || DigitValue(s[0]) >= radix then 0 else 1 + DigitRun(s[1..], radix)
  }

  /** The number the digits denote, most significant first. */
  function DigitsValue(s: string, radix: nat): nat {
    if s == [] then 0 else DigitsValue(s[..|s| - 1], radix) * radix + DigitValue(s[|s| - 1])
  }

  /** parseInt(s) with no radix: leading whitespace skipped, an optional sign, base 16 after
      "0x" or "0X", otherwise base 10, and the longest run of digits; None stands for NaN. */
  function ParseInt(s: string): (r: Option<int>)
  {
    var t := TrimStart(s);
    var negative := t != [] && t[0] == '-';
    var u := if t != [] && (t[0] == '-' || t[0] == '+') then t[1..] else t;
    var hex := |u| >= 2 && u[0] == '0' && (u[1] == 'x' || u[1] == 'X');
    var radix := if hex then 16 else 10;
    var v := if hex then u[2..] else u;
    var n := DigitRun(v, radix);
    if n == 0 then None
    else
      var value: int := DigitsValue(v[..n], radix);
      Some(if negative then -value else value)
  }

  /** The digits String(n) writes for n >= 0 denote n again. */
  lemma {:induction false} NatStringValue(n: nat)
    ensures DigitsValue(NatString(n), 10) == n
    decreases n
  {
    var r := NatString(n);
    if n >= 10 {
      NatStringValue(n / 10);
      assert r[..|r| - 1] == NatString(n / 10);
    }
  }

  /** A run of decimal digits is read whole. */
  lemma {:induction false} DigitRunAll(s: string)
    requires forall i :: 0 <= i < |s| ==> '0' <= s[i] <= '9'
    ensures DigitRun(s, 10) == |s|
    decreases |s|
  {
    if s != [] {
      DigitRunAll(s[1..]);
    }
  }

  /** A digit or a minus sign is not whitespace, so trimStart leaves the string as it is. */
  lemma NoLeadingSpace(r: string)
    requires r != [] && (r[0] == '-' || '0' <= r[0] <= '9')
    ensures TrimStart(r) == r
  {
    assert !IsSpace(r[0]);
  }

  /** parseInt of a string with no leading whitespace and no base prefix: the sign, then the
      leading decimal digits. */
  lemma ParseDecimal(r: string, u: string)
    requires TrimStart(r) == r && u != [] && '0' <= u[0] <= '9'
    requires r == u || (r != [] && r[0] == '-' && r[1..] == u)
    requires !(|u| >= 2 && u[1] == 'x') && !(|u| >= 2 && u[1] == 'X')
    requires forall i :: 0 <= i < |u| ==> '0' <= u[i] <= '9'
    ensures var v: int := DigitsValue(u, 10);
      ParseInt(r) == Some(if r[0] == '-' then -v else v)
  {
    DigitRunAll(u);
    assert u[..DigitRun(u, 10)] == u;
  }

  /** parseInt of an optional minus sign and a run of decimal digits. */
  lemma ParseSignedDigits(negative: bool, digits: string)
    requires digits != [] && forall i :: 0 <= i < |digits| ==> '0' <= digits[i] <= '9'
    ensures var v: int := DigitsValue(digits, 10);
      ParseInt(if negative then "-" + digits else digits) == Some(if negative then -v else v)
  {
    var r := if negative then "-" + digits else digits;
    NoLeadingSpace(r);
    if negative {
      assert r[1..] == digits;
    }
    ParseDecimal(r, digits);
  }

  /** parseInt reads back what String writes: parseInt(String(n)) == n for every integer. */
  lemma ParseIntString(n: int)
    ensures ParseInt(IntString(n)) == Some(n)
  {
    var m: nat := if n < 0 then -n else n;
    ParseSignedDigits(n < 0, NatString(m));
    NatStringValue(m);
  }

  /** The answer to the menu: entries 1 to 5 select that entry, anything else the first. */
  function ChooseTaskType(answer: string): (r: string)
    ensures r in TaskTypes
    ensures match ParseInt(answer)
      case Some(n) => 1 <= n <= 5 ==> r == TaskTypes[n - 1]
      case None => r == CREATE_COMPONENT
    ensures (ParseInt(answer).None? || !(1 <= ParseInt(answer).value <= 5)) ==> r == CREATE_COMPONENT
  {
    match ParseInt(answer)
    case Some(n) => if 1 <= n <= |TaskTypes| then TaskTypes[n - 1] else TaskTypes[0]
    case None => TaskTypes[0]
  }

  /** A non-zero decimal digit followed by anything but another digit parses as that digit. */
  lemma ParseDigit(d: char, rest: string)
    requires '1' <= d <= '9'
    requires rest == [] || !('0' <= rest[0] <= '9')
    ensures ParseInt([d] + rest) == Some(d as int - '0' as int)
  {
    var s := [d] + rest;
    TrimStartKeeps(s);
    ParseUnsignedDecimal(s);
    DigitRunOne(d, rest);
    assert s[..1] == [d];
    DigitsValueOne(d);
  }

  lemma DigitRunOne(d: char, rest: string)
    requires '0' <= d <= '9'
    requires rest == [] || !('0' <= rest[0] <= '9')
    ensures DigitRun([d] + rest, 10) == 1
  {
    assert ([d] + rest)[1..] == rest;
    assert rest == [] || DigitValue(rest[0]) >= 10;
  }

  lemma DigitsValueOne(d: char)
    requires '0' <= d <= '9'
    ensures DigitsValue([d], 10) == d as int - '0' as int
  {
    assert [d][..0] == [];
  }

  /** Without leading whitespace, a sign or a 0x prefix, parseInt reads decimal digits. */
  lemma ParseUnsignedDecimal(s: string)
    requires TrimStart(s) == s && s != [] && '1' <= s[0] <= '9'
    ensures var n := DigitRun(s, 10);
      ParseInt(s) == if n == 0 then None else Some(DigitsValue(s[..n], 10))
  {
  }


  /** Answering with a digit from 1 to 5 selects that entry of the menu. */
  lemma ChooseByDigit(d: char, rest: string)
    requires '1' <= d <= '5'
    requires rest == [] || !('0' <= rest[0] <= '9')
    ensures ChooseTaskType([d] + rest) == TaskTypes[d as int - '1' as int]
  {
    ParseDigit(d, rest);
  }
}

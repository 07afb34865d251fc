/**
 simpleDiff (cmd/di.go:226-278): a longest-common-subsequence table filled from the end, a traceback that
 builds the edit script, and a context window of three lines around every change.
 */
module Diff {
  const CONTEXT_LINES := 3

  datatype Change = Equal | Add | Remove

  datatype DiffLine = DiffLine(op: Change, line: string)

  // ---------------------------------------------------------------- what a script means

  /** The lines of the old file a script goes through. */
  function OldLines(s: seq<DiffLine>): seq<string> {
    if s == [] then []
    else (if s[0].op == Add then [] else [s[0].line]) + OldLines(s[1..])
  }

  /** The lines of the new file a script goes through. */
  function NewLines(s: seq<DiffLine>): seq<string> {
    if s == [] then []
    else (if s[0].op == Remove then [] else [s[0].line]) + NewLines(s[1..])
  }

  function EqualCount(s: seq<DiffLine>): nat {
    if s == [] then 0 else (if s[0].op == Equal then 1 else 0) + EqualCount(s[1..])
  }

  lemma {:induction false} Append(s: seq<DiffLine>, d: DiffLine)
    ensures OldLines(s + [d]) == OldLines(s) + (if d.op == Add then [] else [d.line])
    ensures NewLines(s + [d]) == NewLines(s) + (if d.op == Remove then [] else [d.line])
    ensures EqualCount(s + [d]) == EqualCount(s) + (if d.op == Equal then 1 else 0)
  {
    if s != [] {
      Append(s[1..], d);
      assert (s + [d])[1..] == s[1..] + [d];
    } else {
      assert (s + [d])[1..] == [];
    }
  }

  /** c can be obtained from s by deleting lines. */
  predicate Subsequence(c: seq<string>, s: seq<string>) {
    if c == [] then true
    else if s == [] then false
    else if c[0] == s[0] && Subsequence(c[1..], s[1..]) then true
    else Subsequence(c, s[1..])
  }

  // ---------------------------------------------------------------- the table

  /** The value of the table at (i, j): computed over the suffixes a[i..] and b[j..]. */
  function Lcs(a: seq<string>, b: seq<string>): nat
    decreases |a| + |b|
  {
    if a == [] || b == [] then 0
    else if a[0] == b[0] then Lcs(a[1..], b[1..]) + 1
    else
      var down, right := Lcs(a[1..], b), Lcs(a, b[1..]);
      if down >= right then down else right
  }

  lemma {:induction false} SubsequenceTail(c: seq<string>, s: seq<string>)
    requires c != [] && Subsequence(c, s)
    ensures Subsequence(c[1..], s)
    ensures s != [] ==> Subsequence(c[1..], s[1..])
    decreases |s|
  {
    if c[0] == s[0] && Subsequence(c[1..], s[1..]) {
      SubsequenceSkip(c[1..], s);
    } else {
      SubsequenceTail(c, s[1..]);
      SubsequenceSkip(c[1..], s);
    }
  }

  lemma {:induction false} SubsequenceSkip(c: seq<string>, s: seq<string>)
    requires s != [] && Subsequence(c, s[1..])
    ensures Subsequence(c, s)
  {}

  /** No common subsequence is longer than the table value. */
  lemma {:induction false} LcsIsMaximal(c: seq<string>, a: seq<string>, b: seq<string>)
    requires Subsequence(c, a) && Subsequence(c, b)
    ensures |c| <= Lcs(a, b)
    decreases |a| + |b|
  {
    if c != [] {
      if a[0] == b[0] {
        SubsequenceTail(c, a);
        SubsequenceTail(c, b);
        LcsIsMaximal(c[1..], a[1..], b[1..]);
      } else if c[0] == a[0] {
        LcsIsMaximal(c, a, b[1..]);
      } else {
        LcsIsMaximal(c, a[1..], b);
      }
    }
  }

  /** The equal lines of a script are a common subsequence of both files. */
  function Common(s: seq<DiffLine>): seq<string> {
    if s == [] then [] else (if s[0].op == Equal then [s[0].line] else []) + Common(s[1..])
  }

  lemma {:induction false} CommonIsCommon(s: seq<DiffLine>)
    ensures |Common(s)| == EqualCount(s)
    ensures Subsequence(Common(s), OldLines(s)) && Subsequence(Common(s), NewLines(s))
  {
    if s != [] {
      CommonIsCommon(s[1..]);
      var c, a, b := Common(s[1..]), OldLines(s[1..]), NewLines(s[1..]);
      var l := s[0].line;
      assert [] + c == c && [] + a == a && [] + b == b;
      match s[0].op
      case Equal =>
        assert ([l] + c)[1..] == c && ([l] + a)[1..] == a && ([l] + b)[1..] == b;
      case Add =>
        assert ([l] + b)[1..] == b;
        SubsequenceSkip(c, [l] + b);
      case Remove =>
        assert ([l] + a)[1..] == a;
        SubsequenceSkip(c, [l] + a);
    }
  }

  /** The program's table. */
  method FillTable(a: seq<string>, b: seq<string>) returns (lcs: array2<nat>)
    ensures fresh(lcs) && lcs.Length0 == |a| + 1 && lcs.Length1 == |b| + 1
    ensures forall i, j :: 0 <= i <= |a| && 0 <= j <= |b| ==> lcs[i, j] == Lcs(a[i..], b[j..])
  {
    lcs := new nat[|a| + 1, |b| + 1]((i, j) => 0);
    var i := |a|;
    while i > 0
      invariant 0 <= i <= |a|
      invariant forall p, q :: i <= p <= |a| && 0 <= q <= |b| ==> lcs[p, q] == Lcs(a[p..], b[q..])
      invariant forall p, q :: 0 <= p < i && 0 <= q <= |b| ==> lcs[p, q] == 0
    {
      i := i - 1;
      var j := |b|;
      while j > 0
        invariant 0 <= j <= |b|
        invariant forall p, q :: i < p <= |a| && 0 <= q <= |b| ==> lcs[p, q] == Lcs(a[p..], b[q..])
        invariant forall q :: j <= q <= |b| ==> lcs[i, q] == Lcs(a[i..], b[q..])
        invariant forall p, q :: 0 <= p < i && 0 <= q <= |b| ==> lcs[p, q] == 0
      {
        j := j - 1;
        assert a[i..][1..] == a[i + 1..] && b[j..][1..] == b[j + 1..];
        if a[i] == b[j] {
          lcs[i, j] := lcs[i + 1, j + 1] + 1;
        } else if lcs[i + 1, j] >= lcs[i, j + 1] {
          lcs[i, j] := lcs[i + 1, j];
        } else {
          lcs[i, j] := lcs[i, j + 1];
        }
      }
    }
  }

  /**
   The script decides each line by what is left of both files: equal lines stay; otherwise a line is added, unless
   adding it first would cost a common line or none is left to add.
   */
  ghost predicate Steps(a: seq<string>, b: seq<string>, all: seq<DiffLine>) {
    forall p :: 0 <= p < |all| ==> StepAt(a, b, |OldLines(all[..p])|, |NewLines(all[..p])|, all[p])
  }

  ghost predicate StepAt(a: seq<string>, b: seq<string>, i: nat, j: nat, d: DiffLine) {
    && i <= |a| && j <= |b|
    && (d.op == Equal <==> i < |a| && j < |b| && a[i] == b[j])
    && (d.op == Remove <==>
          i < |a| && (j == |b| || (a[i] != b[j] && Lcs(a[i..], b[j + 1..]) < Lcs(a[i + 1..], b[j..]))))
    && (if d.op == Add then j < |b| && d.line == b[j] else i < |a| && d.line == a[i])
  }

  lemma {:induction false} StepsOn(a: seq<string>, b: seq<string>, all: seq<DiffLine>, d: DiffLine)
    requires Steps(a, b, all) && StepAt(a, b, |OldLines(all)|, |NewLines(all)|, d)
    ensures Steps(a, b, all + [d])
  {
    var more := all + [d];
    forall p | 0 <= p < |more| ensures StepAt(a, b, |OldLines(more[..p])|, |NewLines(more[..p])|, more[p]) {
      assert more[..p] == if p == |all| then all else all[..p];
    }
  }

  /** The traceback has come to line i of the old file and line j of the new one. */
  ghost predicate Tracing(a: seq<string>, b: seq<string>, all: seq<DiffLine>, i: nat, j: nat) {
    && i <= |a| && j <= |b| && OldLines(all) == a[..i] && NewLines(all) == b[..j] && Steps(a, b, all)
    && EqualCount(all) + Lcs(a[i..], b[j..]) == Lcs(a, b)
  }

  lemma {:induction false} TraceStep(a: seq<string>, b: seq<string>, all: seq<DiffLine>, i: nat, j: nat, d: DiffLine)
    requires Tracing(a, b, all, i, j) && (i < |a| || j < |b|) && StepAt(a, b, i, j, d)
    ensures Tracing(a, b, all + [d], if d.op == Add then i else i + 1, if d.op == Remove then j else j + 1)
  {
    assert i < |a| ==> a[i..][1..] == a[i + 1..] && a[..i + 1] == a[..i] + [a[i]];
    assert j < |b| ==> b[j..][1..] == b[j + 1..] && b[..j + 1] == b[..j] + [b[j]];
    Append(all, d);
    StepsOn(a, b, all, d);
  }

  /** The traceback. */
  method Traceback(a: seq<string>, b: seq<string>, lcs: array2<nat>) returns (all: seq<DiffLine>)
    requires lcs.Length0 == |a| + 1 && lcs.Length1 == |b| + 1
    requires forall i, j :: 0 <= i <= |a| && 0 <= j <= |b| ==> lcs[i, j] == Lcs(a[i..], b[j..])
    ensures OldLines(all) == a && NewLines(all) == b && EqualCount(all) == Lcs(a, b)
    ensures Steps(a, b, all)
  {
    all := [];
    var i, j := 0, 0;
    while i < |a| || j < |b|
      invariant Tracing(a, b, all, i, j)
      decreases |a| - i + |b| - j
    {
      ghost var before, p, q := all, i, j;
      if i < |a| && j < |b| && a[i] == b[j] {
        all := all + [DiffLine(Equal, a[i])];
        i, j := i + 1, j + 1;
      } else if j < |b| && (i >= |a| || lcs[i, j + 1] >= lcs[i + 1, j]) {
        all := all + [DiffLine(Add, b[j])];
        j := j + 1;
      } else {
        all := all + [DiffLine(Remove, a[i])];
        i := i + 1;
      }
      TraceStep(a, b, before, p, q, all[|before|]);
    }
    assert a[..i] == a && b[..j] == b;
  }

  // ---------------------------------------------------------------- the context window

  /** A changed line within three lines of position c. */
  ghost predicate NearChange(all: seq<DiffLine>, c: int) {
    exists i :: 0 <= i < |all| && all[i].op != Equal && i - CONTEXT_LINES <= c <= i + CONTEXT_LINES
  }

  /** The lines of a script that are shown. */
  function Shown(all: seq<DiffLine>, show: seq<bool>): seq<DiffLine>
    requires |show| == |all|
  {
    if all == [] then []
    else Shown(all[..|all| - 1], show[..|all| - 1]) + (if show[|all| - 1] then [all[|all| - 1]] else [])
  }

  lemma {:induction false} ShownNothing(all: seq<DiffLine>, show: seq<bool>)
    requires |show| == |all|
    ensures Shown(all, show) == [] <==> forall i :: 0 <= i < |all| ==> !show[i]
  {
    if all != [] { ShownNothing(all[..|all| - 1], show[..|all| - 1]); }
  }

  function Marked(show: seq<bool>): nat {
    if show == [] then 0 else Marked(show[..|show| - 1]) + if show[|show| - 1] then 1 else 0
  }

  /** The shown lines are the marked ones, each once, in order. */
  lemma {:induction false} ShownAt(all: seq<DiffLine>, show: seq<bool>, i: nat)
    requires |show| == |all| && i < |all|
    ensures |Shown(all, show)| == Marked(show)
    ensures Marked(show[..i]) <= Marked(show)
    ensures show[i] ==> Marked(show[..i]) < Marked(show) && Shown(all, show)[Marked(show[..i])] == all[i]
  {
    var n := |all| - 1;
    if i < n {
      ShownAt(all[..n], show[..n], i);
      assert show[..n][..i] == show[..i];
    } else if n > 0 {
      ShownAt(all[..n], show[..n], n - 1);
    }
  }

  method MarkContext(all: seq<DiffLine>) returns (show: array<bool>)
    ensures fresh(show) && show.Length == |all|
    ensures forall c :: 0 <= c < |all| ==> (show[c] <==> NearChange(all, c))
  {
    show := new bool[|all|](i => false);
    var idx := 0;
    while idx < |all|
      invariant 0 <= idx <= |all|
      invariant forall c :: 0 <= c < |all| ==> (show[c] <==> NearChangeBefore(all, c, idx))
    {
      if all[idx].op != Equal {
        var lo := if idx < CONTEXT_LINES then 0 else idx - CONTEXT_LINES;
        var hi := if idx + CONTEXT_LINES < |all| then idx + CONTEXT_LINES + 1 else |all|;
        var c := lo;
        while c < hi
          invariant lo <= c <= hi
          invariant forall p :: 0 <= p < |all| ==> (show[p] <==> NearChangeBefore(all, p, idx) || lo <= p < c)
        {
          show[c] := true;
          c := c + 1;
        }
      }
      idx := idx + 1;
    }
  }

  ghost predicate NearChangeBefore(all: seq<DiffLine>, c: int, idx: int) {
    exists i :: 0 <= i < idx && i < |all| && all[i].op != Equal && i - CONTEXT_LINES <= c <= i + CONTEXT_LINES
  }

  /** A script without changes goes through the same lines on both sides. */
  lemma {:induction false} UnchangedScript(all: seq<DiffLine>)
    requires forall i :: 0 <= i < |all| ==> all[i].op == Equal
    ensures OldLines(all) == NewLines(all) && EqualCount(all) == |all|
  {
    if all != [] { UnchangedScript(all[1..]); }
  }

  /** The number of old lines, and of new lines, splits into equal and changed lines. */
  lemma {:induction false} EqualCountBound(all: seq<DiffLine>)
    ensures EqualCount(all) <= |OldLines(all)| && EqualCount(all) <= |NewLines(all)|
    ensures EqualCount(all) == |OldLines(all)| == |NewLines(all)| ==> forall i :: 0 <= i < |all| ==> all[i].op == Equal
  {
    if all != [] { EqualCountBound(all[1..]); }
  }

  lemma {:induction false} LcsOfSame(a: seq<string>)
    ensures Lcs(a, a) == |a|
  {
    if a != [] { LcsOfSame(a[1..]); }
  }

  /** A script over both files with as many equal lines as the table says is a best one. */
  lemma {:induction false} ScriptIsOptimal(a: seq<string>, b: seq<string>, all: seq<DiffLine>)
    requires OldLines(all) == a && NewLines(all) == b && EqualCount(all) == Lcs(a, b)
    ensures Subsequence(Common(all), a) && Subsequence(Common(all), b)
    ensures forall c :: Subsequence(c, a) && Subsequence(c, b) ==> |c| <= |Common(all)|
  {
    CommonIsCommon(all);
    forall c | Subsequence(c, a) && Subsequence(c, b) ensures |c| <= |Common(all)| { LcsIsMaximal(c, a, b); }
  }

  /** Which lines of a script are shown. */
  ghost predicate ContextMarks(all: seq<DiffLine>, show: seq<bool>) {
    |show| == |all| && forall i :: 0 <= i < |all| ==> (show[i] <==> NearChange(all, i))
  }

  /** Nothing is shown exactly when the files are equal. */
  lemma {:induction false} ShownEmptyIffEqual(a: seq<string>, b: seq<string>, all: seq<DiffLine>, show: seq<bool>)
    requires OldLines(all) == a && NewLines(all) == b && EqualCount(all) == Lcs(a, b)
    requires ContextMarks(all, show)
    ensures Shown(all, show) == [] <==> a == b
  {
    ShownNothing(all, show);
    if Shown(all, show) == [] {
      forall i | 0 <= i < |all| ensures all[i].op == Equal {
        assert !show[i] && !NearChange(all, i);
      }
      UnchangedScript(all);
    }
    if a == b {
      LcsOfSame(a);
      EqualCountBound(all);
    }
  }

  method FilterShown(all: seq<DiffLine>, show: array<bool>) returns (result: seq<DiffLine>)
    requires show.Length == |all|
    ensures result == Shown(all, show[..])
  {
    result := [];
    var idx := 0;
    while idx < |all|
      invariant 0 <= idx <= |all|
      invariant result == Shown(all[..idx], show[..idx])
    {
      assert all[..idx + 1][..idx] == all[..idx] && show[..idx + 1][..idx] == show[..idx];
      if show[idx] { result := result + [all[idx]]; }
      idx := idx + 1;
    }
    assert all[..idx] == all && show[..idx] == show[..];
  }

  /**
   simpleDiff.  The unfiltered script goes through exactly the old lines and exactly the new lines, keeps as
   many lines as any common subsequence could, and the result is the part near a change; nothing is
   shown exactly when the files are equal.
   */
  method SimpleDiff(a: seq<string>, b: seq<string>) returns (result: seq<DiffLine>, all: seq<DiffLine>)
    ensures OldLines(all) == a && NewLines(all) == b && Steps(a, b, all)
    ensures Subsequence(Common(all), a) && Subsequence(Common(all), b)
    ensures forall c :: Subsequence(c, a) && Subsequence(c, b) ==> |c| <= |Common(all)|
    ensures exists show :: ContextMarks(all, show) && result == Shown(all, show)
    ensures result == [] <==> a == b
  {
    var lcs := FillTable(a, b);
    all := Traceback(a, b, lcs);
    var show := MarkContext(all);
    result := FilterShown(all, show);
    assert ContextMarks(all, show[..]);
    ScriptIsOptimal(a, b, all);
    ShownEmptyIffEqual(a, b, all, show[..]);
  }
}

/**
 Edit distance: the table filled by edit_distance and levenshtein_score, the edit
 scripts it is meant to minimise over, and the two similarity scores built on it.
 */
module Levenshtein {
  import opened Common

  /** One position of an edit script; a script lists its edits from left to right. */
  datatype Edit = Keep | Replace(c: char) | Insert(c: char) | Delete

  function Init<T>(s: seq<T>): seq<T>
    requires s != []
  {
    s[..|s| - 1]
  }

  function Last<T>(s: seq<T>): T
    requires s != []
  {
    s[|s| - 1]
  }

  function Cost(es: seq<Edit>): nat {
    if es == [] then 0 else Cost(Init(es)) + (if Last(es).Keep? then 0 else 1)
  }

  /** The string that script `es` turns `s` into, if the script fits `s`. */
  function Apply(es: seq<Edit>, s: string): Option<string> {
    if es == [] then
      if s == [] then Some([]) else None
    else if Last(es).Insert? then
      Then(Apply(Init(es), s), [Last(es).c])
    else if s == [] then
      None
    else
      match Last(es)
      case Keep => Then(Apply(Init(es), Init(s)), [Last(s)])
      case Replace(c) => Then(Apply(Init(es), Init(s)), [c])
      case Delete => Apply(Init(es), Init(s))
  }

  function Then(o: Option<string>, tail: string): Option<string> {
    match o
    case None => None
    case Some(s) => Some(s + tail)
  }

  function Min3(x: nat, y: nat, z: nat): nat {
    if x <= y && x <= z then x else if y <= z then y else z
  }

  /** The recurrence of the table: entry (|a|, |b|). */
  function Distance(a: string, b: string): nat
    decreases |a| + |b|
  {
    if a == [] then |b|
    else if b == [] then |a|
    else
      Min3(Distance(Init(a), b) + 1,
           Distance(a, Init(b)) + 1,
           Distance(Init(a), Init(b)) + if Last(a) == Last(b) then 0 else 1)
  }

  lemma ScriptSnoc(es: seq<Edit>, e: Edit)
    ensures Cost(es + [e]) == Cost(es) + if e.Keep? then 0 else 1
    ensures Init(es + [e]) == es && Last(es + [e]) == e
  {
    assert Init(es + [e]) == es;
  }

  /** Some script reaches the table entry. */
  lemma {:induction false} BestScript(a: string, b: string) returns (es: seq<Edit>)
    ensures Apply(es, a) == Some(b) && Cost(es) == Distance(a, b)
    decreases |a| + |b|
  {
    if a == [] && b == [] {
      es := [];
    } else if a == [] || (b != [] && Distance(a, b) == Distance(a, Init(b)) + 1) {
      var fs := BestScript(a, Init(b));
      es := fs + [Insert(Last(b))];
      ScriptSnoc(fs, Insert(Last(b)));
      assert Init(b) + [Last(b)] == b;
    } else if b == [] || Distance(a, b) == Distance(Init(a), b) + 1 {
      var fs := BestScript(Init(a), b);
      es := fs + [Delete];
      ScriptSnoc(fs, Delete);
    } else {
      var e := if Last(a) == Last(b) then Keep else Replace(Last(b));
      var fs := BestScript(Init(a), Init(b));
      es := fs + [e];
      ScriptSnoc(fs, e);
      assert Init(b) + [Last(b)] == b;
    }
  }

  /** One more edit lengthens the distance by at most its cost. */
  lemma DistanceSteps(a: string, b: string)
    ensures b != [] ==> Distance(a, b) <= Distance(a, Init(b)) + 1
    ensures a != [] ==> Distance(a, b) <= Distance(Init(a), b) + 1
    ensures a != [] && b != [] ==>
              Distance(a, b) <= Distance(Init(a), Init(b)) + if Last(a) == Last(b) then 0 else 1
  {
    if a != [] { DistanceBounds(Init(a), b); }
    if b != [] { DistanceBounds(a, Init(b)); }
  }

  /** What the last edit of a script leaves for the others to do. */
  lemma LastEdit(es: seq<Edit>, a: string, b: string)
    requires es != [] && Apply(es, a) == Some(b)
    ensures !Last(es).Insert? ==> a != []
    ensures !Last(es).Delete? ==> b != []
    ensures Apply(Init(es), if Last(es).Insert? then a else Init(a)) ==
            Some(if Last(es).Delete? then b else Init(b))
    ensures Last(es).Keep? ==> Last(a) == Last(b)
  {
    hide Cost;
    var o := Apply(Init(es), if Last(es).Insert? then a else Init(a));
    if !Last(es).Delete? { assert Init(b) == o.value; }
  }

  /** No script beats the table entry. */
  lemma {:induction false} NoCheaperScript(es: seq<Edit>, a: string, b: string)
    requires Apply(es, a) == Some(b)
    ensures Distance(a, b) <= Cost(es)
    decreases |es|
  {
    if es != [] {
      hide Apply, Distance;
      LastEdit(es, a, b);
      NoCheaperScript(Init(es), if Last(es).Insert? then a else Init(a), if Last(es).Delete? then b else Init(b));
      DistanceSteps(a, b);
    }
  }

  /** The distance is the least cost of any script between the two strings. */
  lemma DistanceIsLeastCost(a: string, b: string)
    ensures exists es :: Apply(es, a) == Some(b) && Cost(es) == Distance(a, b)
    ensures forall es | Apply(es, a) == Some(b) :: Distance(a, b) <= Cost(es)
  {
    var es := BestScript(a, b);
    forall fs | Apply(fs, a) == Some(b) ensures Distance(a, b) <= Cost(fs) {
      NoCheaperScript(fs, a, b);
    }
  }

  /** The distance is between the length difference and the longer length. */
  lemma {:induction false} DistanceBounds(a: string, b: string)
    ensures |a| - |b| <= Distance(a, b) && |b| - |a| <= Distance(a, b)
    ensures Distance(a, b) <= if |a| <= |b| then |b| else |a|
    decreases |a| + |b|
  {
    if a != [] && b != [] {
      DistanceBounds(Init(a), b);
      DistanceBounds(a, Init(b));
      DistanceBounds(Init(a), Init(b));
    }
  }

  lemma {:induction false} DistanceSymmetric(a: string, b: string)
    ensures Distance(a, b) == Distance(b, a)
    decreases |a| + |b|
  {
    if a != [] && b != [] {
      DistanceSymmetric(Init(a), b);
      DistanceSymmetric(a, Init(b));
      DistanceSymmetric(Init(a), Init(b));
    }
  }

  lemma {:induction false} ZeroIffEqual(a: string, b: string)
    ensures Distance(a, b) == 0 <==> a == b
    decreases |a| + |b|
  {
    if a != [] && b != [] {
      ZeroIffEqual(Init(a), Init(b));
      assert a == Init(a) + [Last(a)] && b == Init(b) + [Last(b)];
    }
  }

  /** Doing one script after the other can be done by one script that costs no more. */
  lemma {:induction false} Compose(es: seq<Edit>, fs: seq<Edit>, a: string, b: string, c: string)
    returns (gs: seq<Edit>)
    requires Apply(es, a) == Some(b) && Apply(fs, b) == Some(c)
    ensures Apply(gs, a) == Some(c) && Cost(gs) <= Cost(es) + Cost(fs)
    decreases |es| + |fs|
  {
    if es != [] && Last(es).Delete? {
      var hs := Compose(Init(es), fs, Init(a), b, c);
      gs := hs + [Delete];
      ScriptSnoc(hs, Delete);
    } else if fs != [] && Last(fs).Insert? {
      var hs := Compose(es, Init(fs), a, b, Apply(Init(fs), b).value);
      gs := hs + [Last(fs)];
      ScriptSnoc(hs, Last(fs));
    } else if es == [] {
      gs := [];
    } else {
      var e, f := Last(es), Last(fs);
      var a' := if e.Insert? then a else Init(a);
      var b' := Apply(Init(es), a').value;
      assert Init(b) == b';
      var c' := Apply(Init(fs), b').value;
      var hs := Compose(Init(es), Init(fs), a', b', c');
      if e.Insert? && f.Delete? {
        gs := hs;
      } else {
        var g := if f.Delete? then Delete
                 else if e.Insert? then Insert(Last(c))
                 else if e.Keep? && f.Keep? then Keep
                 else Replace(Last(c));
        gs := hs + [g];
        ScriptSnoc(hs, g);
      }
    }
  }

  lemma TriangleInequality(a: string, b: string, c: string)
    ensures Distance(a, c) <= Distance(a, b) + Distance(b, c)
  {
    var es := BestScript(a, b);
    var fs := BestScript(b, c);
    var gs := Compose(es, fs, a, b, c);
    NoCheaperScript(gs, a, c);
  }

  // ---- The table -------------------------------------------------------------

  /** std::tolower in the "C" locale. */
  function ToLower(c: char): char {
    if 'A' <= c <= 'Z' then c - 'A' + 'a' else c
  }

  /** Folding leaves exactly the difference between the two cases of a letter out of account. */
  lemma SameLetterIff(c: char, d: char)
    ensures ToLower(c) == ToLower(d) <==>
            c == d || ('a' <= c <= 'z' && d as int == c as int - 32) || ('A' <= c <= 'Z' && d as int == c as int + 32)
  {}

  function Same(c: char): char { c }

  function Fold(fold: char -> char, s: string): (r: string)
    ensures |r| == |s|
  {
    seq(|s|, i requires 0 <= i < |s| => fold(s[i]))
  }

  lemma FoldSame(s: string)
    ensures Fold(Same, s) == s
  {
    var r := Fold(Same, s);
    assert forall i | 0 <= i < |s| :: r[i] == s[i];
  }

  /** What table entry (i, j) has to be. */
  ghost function Entry(x: string, y: string, i: nat, j: nat): nat
    requires i <= |x| && j <= |y|
  {
    Distance(x[..i], y[..j])
  }

  lemma EntryFromNeighbours(x: string, y: string, i: nat, j: nat)
    requires i <= |x| && j <= |y|
    ensures i == 0 ==> Entry(x, y, i, j) == j
    ensures j == 0 ==> Entry(x, y, i, j) == i
    ensures i > 0 && j > 0 ==>
              Entry(x, y, i, j) ==
              Min3(Entry(x, y, i - 1, j) + 1,
                   Entry(x, y, i, j - 1) + 1,
                   Entry(x, y, i - 1, j - 1) + if x[i - 1] == y[j - 1] then 0 else 1)
  {
    if i > 0 && j > 0 {
      assert Init(x[..i]) == x[..i - 1] && Init(y[..j]) == y[..j - 1];
    }
  }

  /** Row 0 and column 0 hold their own index. */
  method FillBorders(dp: array2<nat>)
    requires dp.Length0 > 0 && dp.Length1 > 0
    modifies dp
    ensures forall k | 0 <= k < dp.Length0 :: dp[k, 0] == k
    ensures forall l | 0 <= l < dp.Length1 :: dp[0, l] == l
  {
    for i := 0 to dp.Length0
      invariant forall k | 0 <= k < i :: dp[k, 0] == k
    {
      dp[i, 0] := i;
    }
    for j := 0 to dp.Length1
      invariant forall k | 0 <= k < dp.Length0 :: dp[k, 0] == k
      invariant forall l | 0 <= l < j :: dp[0, l] == l
    {
      dp[0, j] := j;
    }
  }

  /** The inner loop; `x` and `y` are `a` and `b` as they are compared. */
  method FillRow(dp: array2<nat>, a: string, b: string, fold: char -> char, i: nat, ghost x: string, ghost y: string)
    requires 0 < i <= |a| && dp.Length0 == |a| + 1 && dp.Length1 == |b| + 1
    requires x == Fold(fold, a) && y == Fold(fold, b)
    requires forall k, l | i - 1 <= k < i && 0 <= l <= |b| :: dp[k, l] == Entry(x, y, k, l)
    requires dp[i, 0] == i
    modifies dp
    ensures forall l | 0 <= l <= |b| :: dp[i, l] == Entry(x, y, i, l)
    ensures forall k, l | 0 <= k <= |a| && k != i && 0 <= l <= |b| :: dp[k, l] == old(dp[k, l])
  {
    EntryFromNeighbours(x, y, i, 0);
    for j := 1 to |b| + 1
      invariant forall l | 0 <= l < j :: dp[i, l] == Entry(x, y, i, l)
      invariant forall k, l | 0 <= k <= |a| && k != i && 0 <= l <= |b| :: dp[k, l] == old(dp[k, l])
    {
      var cost := if fold(a[i - 1]) == fold(b[j - 1]) then 0 else 1;
      EntryFromNeighbours(x, y, i, j);
      dp[i, j] := Min3(dp[i - 1, j] + 1, dp[i, j - 1] + 1, dp[i - 1, j - 1] + cost);
    }
  }

  /** The whole table; `fold` is applied to characters before they are compared. */
  method FillTable(a: string, b: string, fold: char -> char) returns (d: nat)
    ensures d == Distance(Fold(fold, a), Fold(fold, b))
  {
    var m, n := |a|, |b|;
    ghost var x, y := Fold(fold, a), Fold(fold, b);
    var dp := new nat[m + 1, n + 1]((i, j) => 0);
    FillBorders(dp);
    forall l | 0 <= l <= n ensures dp[0, l] == Entry(x, y, 0, l) {
      EntryFromNeighbours(x, y, 0, l);
    }
    for i := 1 to m + 1
      invariant forall k | 0 <= k <= m :: dp[k, 0] == k
      invariant forall k, l | i - 1 <= k < i && 0 <= l <= n :: dp[k, l] == Entry(x, y, k, l)
    {
      FillRow(dp, a, b, fold, i, x, y);
      EntryFromNeighbours(x, y, i, 0);
    }
    assert x[..m] == x && y[..n] == y;
    d := dp[m, n];
  }

  method EditDistance(a: string, b: string) returns (d: nat)
    ensures d == Distance(Fold(ToLower, a), Fold(ToLower, b))
  {
    d := FillTable(a, b, ToLower);
  }

  function MaxLength(a: string, b: string): nat {
    if |a| <= |b| then |b| else |a|
  }

  function Score(d: nat, n: nat): real
    requires n > 0
  {
    1.0 - d as real / n as real
  }

  /** The score lies in [0,1], is 1 only at distance 0 and 0 only at the greatest distance. */
  lemma ScoreRange(d: nat, n: nat)
    requires d <= n && n > 0
    ensures 0.0 <= Score(d, n) <= 1.0
    ensures Score(d, n) == 1.0 <==> d == 0
    ensures Score(d, n) == 0.0 <==> d == n
    ensures Score(d, n) * n as real == (n - d) as real
  {
    var nr, q := n as real, d as real / n as real;
    assert q * nr == d as real;
    assert (1.0 - q) * nr == nr - q * nr;
  }

  /** The case-insensitive score of a file name; an empty target scores 0 against everything. */
  method FilenameScore(candidate: string, target: string) returns (score: real)
    ensures 0.0 <= score <= 1.0
    ensures score == 1.0 <==> target != [] && Fold(ToLower, candidate) == Fold(ToLower, target)
    ensures target != [] && |candidate| <= |target| ==>
              score == 1.0 - Distance(Fold(ToLower, candidate), Fold(ToLower, target)) as real / |target| as real
    ensures target != [] && |candidate| > |target| ==>
              score == 1.0 - Distance(Fold(ToLower, candidate), Fold(ToLower, target)) as real / |candidate| as real
    ensures target == [] ==> score == 0.0
  {
    if target == [] { return 0.0; }
    var d := EditDistance(candidate, target);
    score := Score(d, MaxLength(candidate, target));
    ghost var x, y := Fold(ToLower, candidate), Fold(ToLower, target);
    DistanceBounds(x, y);
    ZeroIffEqual(x, y);
    ScoreRange(d, MaxLength(candidate, target));
  }

  /** The case-sensitive score of a skill name; two empty names score 1. */
  method LevenshteinScore(a: string, b: string) returns (score: real)
    ensures 0.0 <= score <= 1.0
    ensures score == 1.0 <==> a == b
    ensures b != [] && |a| <= |b| ==> score == 1.0 - Distance(a, b) as real / |b| as real
    ensures |a| > |b| ==> score == 1.0 - Distance(a, b) as real / |a| as real
  {
    if MaxLength(a, b) == 0 { return 1.0; }
    var d := FillTable(a, b, Same);
    score := Score(d, MaxLength(a, b));
    FoldSame(a);
    FoldSame(b);
    DistanceBounds(a, b);
    ZeroIffEqual(a, b);
    ScoreRange(d, MaxLength(a, b));
  }
}

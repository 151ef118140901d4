/** The distance behind auto-match confidence (backend/internal/matching/confidence.go). */
module EditDistance {
  import opened Wrappers

  // `Distance` is the recurrence; an independent definition, edit scripts, gives it its meaning. The pooled two-row
  // loop is proved to return exactly `Distance`.

  function Min(x: int, y: int): int { if x <= y then x else y }

  function Max(x: int, y: int): int { if x >= y then x else y }

  // ----- Edit scripts: what a distance counts

  datatype Edit = Keep(c: byte) | Substitute(from: byte, to: byte) | Insert(c: byte) | Delete(c: byte) {
    function Reads(): seq<byte> {
      match this
      case Keep(c) => [c]
      case Substitute(from, _) => [from]
      case Insert(_) => []
      case Delete(c) => [c]
    }

    function Writes(): seq<byte> {
      match this
      case Keep(c) => [c]
      case Substitute(_, to) => [to]
      case Insert(c) => [c]
      case Delete(_) => []
    }
  }

  datatype Script = Empty | Then(rest: Script, last: Edit)

  /** The string a script reads. */
  function Source(script: Script): seq<byte> {
    if script.Empty? then [] else Source(script.rest) + script.last.Reads()
  }

  /** The string a script writes. */
  function Target(script: Script): seq<byte> {
    if script.Empty? then [] else Target(script.rest) + script.last.Writes()
  }

  function Cost(script: Script): nat {
    if script.Empty? then 0 else Cost(script.rest) + if script.last.Keep? then 0 else 1
  }

  ghost predicate Rewrites(script: Script, a: seq<byte>, b: seq<byte>) {
    Source(script) == a && Target(script) == b
  }

  // ----- The recurrence

  /** Distance between the first i bytes of a and the first j bytes of b. */
  function PrefixDistance(a: seq<byte>, b: seq<byte>, i: nat, j: nat): nat
    requires i <= |a| && j <= |b|
  {
    if i == 0 then j
    else if j == 0 then i
    else
      Min(Min(PrefixDistance(a, b, i, j - 1) + 1, PrefixDistance(a, b, i - 1, j) + 1),
          PrefixDistance(a, b, i - 1, j - 1) + if a[i - 1] == b[j - 1] then 0 else 1)
  }

  function Distance(a: seq<byte>, b: seq<byte>): nat {
    PrefixDistance(a, b, |a|, |b|)
  }

  // ----- Distance is the cost of a cheapest script

  lemma Extend(rest: Script, e: Edit, a: seq<byte>, b: seq<byte>, i: nat, j: nat)
    requires i <= |a| && j <= |b|
    requires !e.Insert? ==> i > 0 && e.Reads() == [a[i - 1]]
    requires !e.Delete? ==> j > 0 && e.Writes() == [b[j - 1]]
    requires Rewrites(rest, a[..if e.Insert? then i else i - 1], b[..if e.Delete? then j else j - 1])
    ensures Rewrites(Then(rest, e), a[..i], b[..j])
  {
  }

  /** A script that attains the distance. */
  lemma {:induction false} CheapestScript(a: seq<byte>, b: seq<byte>, i: nat, j: nat) returns (script: Script)
    requires i <= |a| && j <= |b|
    ensures Rewrites(script, a[..i], b[..j]) && Cost(script) == PrefixDistance(a, b, i, j)
    decreases i + j
  {
    if i == 0 && j == 0 {
      script := Empty;
      return;
    }
    var e: Edit;
    if i == 0 || (j > 0 && PrefixDistance(a, b, i, j) == PrefixDistance(a, b, i, j - 1) + 1) {
      script := CheapestScript(a, b, i, j - 1);
      e := Insert(b[j - 1]);
    } else if j == 0 || PrefixDistance(a, b, i, j) == PrefixDistance(a, b, i - 1, j) + 1 {
      script := CheapestScript(a, b, i - 1, j);
      e := Delete(a[i - 1]);
    } else {
      script := CheapestScript(a, b, i - 1, j - 1);
      e := if a[i - 1] == b[j - 1] then Keep(a[i - 1]) else Substitute(a[i - 1], b[j - 1]);
    }
    Extend(script, e, a, b, i, j);
    script := Then(script, e);
  }

  /** No script is cheaper than the distance. */
  lemma {:induction false} NoCheaperScript(script: Script, a: seq<byte>, b: seq<byte>, i: nat, j: nat)
    requires i <= |a| && j <= |b|
    requires Rewrites(script, a[..i], b[..j])
    ensures PrefixDistance(a, b, i, j) <= Cost(script)
  {
    if script.Then? {
      var i' := if script.last.Insert? then i else i - 1;
      var j' := if script.last.Delete? then j else j - 1;
      DropLast(Source(script.rest), script.last.Reads(), a, i);
      DropLast(Target(script.rest), script.last.Writes(), b, j);
      NoCheaperScript(script.rest, a, b, i', j');
      PrefixStep(a, b, i, j);
    }
  }

  lemma DropLast(init: seq<byte>, last: seq<byte>, s: seq<byte>, n: nat)
    requires n <= |s| && |last| <= 1 && s[..n] == init + last
    ensures |last| <= n && init == s[..n - |last|] && (last != [] ==> last[0] == s[n - 1])
  {
    assert |s[..n]| == |init| + |last|;
    assert init == s[..n][..n - |last|];
  }

  /** Neighbouring cells differ by at most one, and a match costs nothing. */
  lemma PrefixStep(a: seq<byte>, b: seq<byte>, i: nat, j: nat)
    requires i <= |a| && j <= |b|
    ensures i > 0 ==> PrefixDistance(a, b, i, j) <= PrefixDistance(a, b, i - 1, j) + 1
    ensures j > 0 ==> PrefixDistance(a, b, i, j) <= PrefixDistance(a, b, i, j - 1) + 1
    ensures i > 0 && j > 0 ==>
              PrefixDistance(a, b, i, j) <= PrefixDistance(a, b, i - 1, j - 1) + if a[i - 1] == b[j - 1] then 0 else 1
  {
  }

  /** The distance is the length of a shortest insert/delete/substitute script. */
  lemma DistanceIsShortestScript(a: seq<byte>, b: seq<byte>)
    ensures exists script :: Rewrites(script, a, b) && Cost(script) == Distance(a, b)
    ensures forall script :: Rewrites(script, a, b) ==> Distance(a, b) <= Cost(script)
  {
    assert a[..|a|] == a && b[..|b|] == b;
    var script := CheapestScript(a, b, |a|, |b|);
    forall script | Rewrites(script, a, b) ensures Distance(a, b) <= Cost(script) {
      NoCheaperScript(script, a, b, |a|, |b|);
    }
  }

  // ----- A metric

  lemma {:induction false} FreeScriptKeeps(script: Script)
    requires Cost(script) == 0
    ensures Source(script) == Target(script)
  {
    if script.Then? { FreeScriptKeeps(script.rest); }
  }

  lemma {:induction false} PrefixIdentity(a: seq<byte>, i: nat)
    requires i <= |a|
    ensures PrefixDistance(a, a, i, i) == 0
  {
    if i > 0 { PrefixIdentity(a, i - 1); }
  }

  /** Distance zero exactly on equal strings. */
  lemma DistanceIdentity(a: seq<byte>, b: seq<byte>)
    ensures Distance(a, b) == 0 <==> a == b
  {
    PrefixIdentity(a, |a|);
    assert a[..|a|] == a && b[..|b|] == b;
    var script := CheapestScript(a, b, |a|, |b|);
    if Distance(a, b) == 0 { FreeScriptKeeps(script); }
  }

  /** The defining equation, for proofs that keep the function itself folded. */
  lemma Recurrence(a: seq<byte>, b: seq<byte>, i: nat, j: nat)
    requires i <= |a| && j <= |b|
    ensures PrefixDistance(a, b, i, j) ==
              if i == 0 then j else if j == 0 then i
              else
                Min(Min(PrefixDistance(a, b, i, j - 1) + 1, PrefixDistance(a, b, i - 1, j) + 1),
                    PrefixDistance(a, b, i - 1, j - 1) + if a[i - 1] == b[j - 1] then 0 else 1)
  {
  }

  lemma {:induction false} PrefixSymmetry(a: seq<byte>, b: seq<byte>, i: nat, j: nat)
    requires i <= |a| && j <= |b|
    ensures PrefixDistance(a, b, i, j) == PrefixDistance(b, a, j, i)
    decreases i + j
  {
    hide PrefixDistance;
    Recurrence(a, b, i, j);
    Recurrence(b, a, j, i);
    if i > 0 && j > 0 {
      PrefixSymmetry(a, b, i - 1, j);
      PrefixSymmetry(a, b, i, j - 1);
      PrefixSymmetry(a, b, i - 1, j - 1);
    }
  }

  lemma DistanceSymmetry(a: seq<byte>, b: seq<byte>)
    ensures Distance(a, b) == Distance(b, a)
  {
    PrefixSymmetry(a, b, |a|, |b|);
  }

  /** Two scripts that meet in the middle compose into one that costs no more than both. */
  lemma {:induction false} Compose(s: Script, t: Script) returns (st: Script)
    requires Target(s) == Source(t)
    ensures Rewrites(st, Source(s), Target(t)) && Cost(st) <= Cost(s) + Cost(t)
    decreases s, t
  {
    if s.Then? && s.last.Delete? {
      var rest := Compose(s.rest, t);
      st := Then(rest, s.last);
    } else if t.Then? && t.last.Insert? {
      var rest := Compose(s, t.rest);
      st := Then(rest, t.last);
    } else if s.Empty? || t.Empty? {
      st := Empty;
    } else {
      SameLast(Target(s.rest), s.last.Writes(), Source(t.rest), t.last.Reads());
      var rest := Compose(s.rest, t.rest);
      st := Fuse(rest, s.last, t.last);
    }
  }

  lemma SameLast(init: seq<byte>, last: seq<byte>, init': seq<byte>, last': seq<byte>)
    requires |last| == |last'| == 1 && init + last == init' + last'
    ensures init == init' && last == last'
  {
    assert (init + last)[|init|] == (init' + last')[|init'|];
    assert init == (init + last)[..|init|] == (init' + last')[..|init'|] == init';
  }

  /** The edits e and f share one byte of the middle string; their fusion skips it. */
  lemma Fuse(rest: Script, e: Edit, f: Edit) returns (st: Script)
    requires !e.Delete? && !f.Insert? && e.Writes() == f.Reads()
    ensures Rewrites(st, Source(rest) + e.Reads(), Target(rest) + f.Writes())
    ensures Cost(st) <= Cost(rest) + (if e.Keep? then 0 else 1) + if f.Keep? then 0 else 1
  {
    if e.Insert? && f.Delete? {
      st := rest;
    } else if e.Insert? {
      st := Then(rest, Insert(f.Writes()[0]));
    } else if f.Delete? {
      st := Then(rest, Delete(e.Reads()[0]));
    } else if e.Keep? {
      st := Then(rest, f);
    } else {
      st := Then(rest, Substitute(e.from, f.Writes()[0]));
    }
  }

  lemma TriangleInequality(a: seq<byte>, b: seq<byte>, c: seq<byte>)
    ensures Distance(a, c) <= Distance(a, b) + Distance(b, c)
  {
    assert a[..|a|] == a && b[..|b|] == b && c[..|c|] == c;
    var s := CheapestScript(a, b, |a|, |b|);
    var t := CheapestScript(b, c, |b|, |c|);
    var st := Compose(s, t);
    NoCheaperScript(st, a, c, |a|, |c|);
  }

  lemma {:induction false} PrefixBounds(a: seq<byte>, b: seq<byte>, i: nat, j: nat)
    requires i <= |a| && j <= |b|
    ensures i - j <= PrefixDistance(a, b, i, j) && j - i <= PrefixDistance(a, b, i, j) <= Max(i, j)
    decreases i + j
  {
    hide PrefixDistance;
    Recurrence(a, b, i, j);
    if i > 0 && j > 0 {
      PrefixBounds(a, b, i - 1, j);
      PrefixBounds(a, b, i, j - 1);
      PrefixBounds(a, b, i - 1, j - 1);
    }
  }

  lemma DistanceBounds(a: seq<byte>, b: seq<byte>)
    ensures |a| - |b| <= Distance(a, b) && |b| - |a| <= Distance(a, b) <= if |a| >= |b| then |a| else |b|
  {
    PrefixBounds(a, b, |a|, |b|);
  }

  // ----- The two-row loop over a recycled buffer

  /** A finished stretch of row i of the distance table. */
  ghost predicate HoldsRow(row: seq<int>, a: seq<byte>, b: seq<byte>, i: nat)
    requires i <= |a| && |row| <= |b| + 1
  {
    forall k :: 0 <= k < |row| ==> row[k] == PrefixDistance(a, b, i, k)
  }

  lemma FirstRow(row: seq<int>, a: seq<byte>, b: seq<byte>)
    requires |row| <= |b| + 1 && forall k :: 0 <= k < |row| ==> row[k] == k
    ensures HoldsRow(row, a, b, 0)
  {
  }

  /** The next cell of row i, from its left neighbour and the two above. */
  lemma CellValue(a: seq<byte>, b: seq<byte>, i: nat, j: nat, above: seq<int>, done: seq<int>)
    requires 0 < i <= |a| && 0 < j <= |b| && |above| == |b| + 1 && |done| == j
    requires HoldsRow(above, a, b, i - 1) && HoldsRow(done, a, b, i)
    ensures var cost := if a[i - 1] == b[j - 1] then 0 else 1;
            HoldsRow(done + [Min(Min(done[j - 1] + 1, above[j] + 1), above[j - 1] + cost)], a, b, i)
  {
  }

  /** Row i at offset curr, computed from row i - 1 at offset prev. */
  method FillRow(rows: array<int>, prev: nat, curr: nat, a: seq<byte>, b: seq<byte>, i: nat)
    requires 0 < i <= |a|
    requires prev + |b| < rows.Length && curr + |b| < rows.Length
    requires prev + |b| < curr || curr + |b| < prev
    requires HoldsRow(rows[prev..prev + |b| + 1], a, b, i - 1)
    modifies rows
    ensures HoldsRow(rows[curr..curr + |b| + 1], a, b, i)
  {
    ghost var above := rows[prev..prev + |b| + 1];
    rows[curr] := i;
    ghost var done := [i];
    assert HoldsRow(done, a, b, i);
    hide HoldsRow, PrefixDistance, Min;
    for j := 1 to |b| + 1
      invariant |done| == j && HoldsRow(done, a, b, i)
      invariant forall k :: 0 <= k < j ==> rows[curr + k] == done[k]
      invariant forall k :: 0 <= k <= |b| ==> rows[prev + k] == above[k]
    {
      var cost := if a[i - 1] == b[j - 1] then 0 else 1;
      CellValue(a, b, i, j, above, done);
      var cell := Min(Min(rows[curr + j - 1] + 1, rows[prev + j] + 1), rows[prev + j - 1] + cost);
      rows[curr + j] := cell;
      done := done + [cell];
    }
    assert rows[curr..curr + |b| + 1] == done;
  }

  /** The recycled buffer: its contents between calls are arbitrary. */
  class RowPool {
    var buf: array<int>

    constructor ()
      ensures fresh(buf)
    {
      buf := new int[128];
    }

    /** Both rows live in one buffer; `prev` and `curr` are the offsets that the loop swaps. */
    method Levenshtein(a: seq<byte>, b: seq<byte>) returns (result: int)
      modifies this, buf
      ensures result == Distance(a, b)
      ensures buf == old(buf) || fresh(buf)
      ensures buf.Length >= old(buf.Length)
    {
      var la, lb := |a|, |b|;
      if la == 0 { return lb; }
      if lb == 0 { return la; }
      var need := 2 * (lb + 1);
      if buf.Length < need {
        buf := new int[need];
      }
      var rows := buf;
      var prev, curr := 0, lb + 1;
      for j := 0 to lb + 1
        invariant buf == rows
        invariant forall k :: 0 <= k < j ==> rows[k] == k
      {
        rows[j] := j;
      }
      FirstRow(rows[prev..prev + lb + 1], a, b);
      for i := 1 to la + 1
        invariant buf == rows && rows.Length >= need
        invariant rows == old(buf) || fresh(rows)
        invariant (prev == 0 && curr == lb + 1) || (prev == lb + 1 && curr == 0)
        invariant HoldsRow(rows[prev..prev + lb + 1], a, b, i - 1)
      {
        FillRow(rows, prev, curr, a, b, i);
        prev, curr := curr, prev;
      }
      assert rows[prev + lb] == rows[prev..prev + lb + 1][lb];
      result := rows[prev + lb];
    }
  }

  // ----- Confidence

  const AUTO_MATCH_THRESHOLD := 0.8

  function TitleSimilarity(item: seq<byte>, candidate: seq<byte>): real {
    1.0 - Distance(item, candidate) as real / Max(Max(|item|, |candidate|), 1) as real
  }

  /** Confidence of two normalized titles and their optional years. */
  function Score(item: seq<byte>, itemYear: Option<int>, candidate: seq<byte>, candidateYear: Option<int>): real {
    Weigh(TitleSimilarity(item, candidate), itemYear, candidateYear)
  }

  function Weigh(titleSim: real, itemYear: Option<int>, candidateYear: Option<int>): real {
    if itemYear.None? || candidateYear.None? then titleSim
    else
      var diff := Abs(itemYear.value - candidateYear.value);
      var yearSim := if diff == 0 then 1.0 else if diff == 1 then 0.5 else 0.0;
      titleSim * 0.7 + yearSim * 0.3
  }

  function Abs(x: int): int { if x < 0 then -x else x }

  predicate AutoMatched(item: seq<byte>, itemYear: Option<int>, candidate: seq<byte>, candidateYear: Option<int>) {
    !(Score(item, itemYear, candidate, candidateYear) < AUTO_MATCH_THRESHOLD)
  }

  lemma SimilarityRange(item: seq<byte>, candidate: seq<byte>)
    ensures 0.0 <= TitleSimilarity(item, candidate) <= 1.0
    ensures TitleSimilarity(item, candidate) == 1.0 <==> item == candidate
  {
    DistanceBounds(item, candidate);
    DistanceIdentity(item, candidate);
    Ratio(Distance(item, candidate), Max(Max(|item|, |candidate|), 1));
  }

  lemma Ratio(d: nat, m: nat)
    requires d <= m && m > 0
    ensures 0.0 <= d as real / m as real <= 1.0 && (d as real / m as real) * m as real == d as real
    ensures d as real / m as real == 0.0 <==> d == 0
  {
    var q := d as real / m as real;
    assert q * m as real == d as real;
  }

  /** A score is a proportion, and it is perfect exactly for equal titles whose known years agree. */
  lemma ScoreRange(item: seq<byte>, itemYear: Option<int>, candidate: seq<byte>, candidateYear: Option<int>)
    ensures 0.0 <= Score(item, itemYear, candidate, candidateYear) <= 1.0
    ensures Score(item, itemYear, candidate, candidateYear) == 1.0 <==>
              item == candidate && (itemYear.Some? && candidateYear.Some? ==> itemYear == candidateYear)
  {
    SimilarityRange(item, candidate);
  }

  /** A score that is the share of m that needs no edit; with both years known that weighs 0.7, and equal years are worth 0.3,
      neighbouring ones half of that. */
  ghost predicate IsScore(score: real, d: real, m: real, itemYear: Option<int>, candidateYear: Option<int>) {
    if itemYear.None? || candidateYear.None? then score * m == m - d
    else if itemYear == candidateYear then score * m == 0.7 * (m - d) + 0.3 * m
    else if itemYear.value - candidateYear.value in {-1, 1} then score * m == 0.7 * (m - d) + 0.15 * m
    else score * m == 0.7 * (m - d)
  }

  /** The score of two titles, not both empty, in terms of the edits between them and the length of the longer one. */
  lemma ScoreExactly(item: seq<byte>, itemYear: Option<int>, candidate: seq<byte>, candidateYear: Option<int>)
    requires item != [] || candidate != []
    ensures IsScore(Score(item, itemYear, candidate, candidateYear), Distance(item, candidate) as real,
                    (if |item| >= |candidate| then |item| else |candidate|) as real, itemYear, candidateYear)
  {
    hide TitleSimilarity, Distance, Weigh, IsScore;
    SimilarityTimes(item, candidate);
    WeighedScore(TitleSimilarity(item, candidate), Distance(item, candidate) as real,
                 (if |item| >= |candidate| then |item| else |candidate|) as real, itemYear, candidateYear);
  }

  lemma SimilarityTimes(item: seq<byte>, candidate: seq<byte>)
    requires item != [] || candidate != []
    ensures var m := (if |item| >= |candidate| then |item| else |candidate|) as real;
            TitleSimilarity(item, candidate) * m == m - Distance(item, candidate) as real
  {
    hide Distance;
    var m := if |item| >= |candidate| then |item| else |candidate|;
    DistanceBounds(item, candidate);
    Ratio(Distance(item, candidate), m);
  }

  lemma WeighedScore(similarity: real, d: real, m: real, itemYear: Option<int>, candidateYear: Option<int>)
    requires similarity * m == m - d
    ensures IsScore(Weigh(similarity, itemYear, candidateYear), d, m, itemYear, candidateYear)
  {
    assert (similarity * 0.7) * m == 0.7 * (m - d);
  }

  /** With m the longer title's length, the threshold in whole numbers: at most m/5 edits without years,
      2m/7 with equal years, m/14 a year apart, and never two or more years apart. */
  lemma AutoMatchExactly(item: seq<byte>, itemYear: Option<int>, candidate: seq<byte>, candidateYear: Option<int>)
    ensures var d, m := Distance(item, candidate), if |item| >= |candidate| then |item| else |candidate|;
            AutoMatched(item, itemYear, candidate, candidateYear) <==>
              if itemYear.None? || candidateYear.None? then 5 * d <= m
              else if itemYear.value == candidateYear.value then 7 * d <= 2 * m
              else if itemYear.value - candidateYear.value in {-1, 1} then 14 * d <= m
              else false
  {
    var d, m := Distance(item, candidate), Max(Max(|item|, |candidate|), 1);
    DistanceBounds(item, candidate);
    Ratio(d, m);
    WholeNumberThreshold(d as real / m as real, d, m, itemYear, candidateYear);
  }

  lemma WholeNumberThreshold(q: real, d: nat, m: nat, itemYear: Option<int>, candidateYear: Option<int>)
    requires m > 0 && 0.0 <= q && q * m as real == d as real
    ensures !(Weigh(1.0 - q, itemYear, candidateYear) < AUTO_MATCH_THRESHOLD) <==>
              if itemYear.None? || candidateYear.None? then 5 * d <= m
              else if itemYear.value == candidateYear.value then 7 * d <= 2 * m
              else if Abs(itemYear.value - candidateYear.value) == 1 then 14 * d <= m
              else false
  {
    if itemYear.None? || candidateYear.None? {
      Scaled(q, d, m, 5, 1);
    } else if itemYear.value == candidateYear.value {
      Scaled(q, d, m, 7, 2);
    } else if Abs(itemYear.value - candidateYear.value) == 1 {
      Scaled(q, d, m, 14, 1);
    }
  }

  lemma Scaled(q: real, d: nat, m: nat, k: nat, n: nat)
    requires m > 0 && q * m as real == d as real
    ensures q * k as real <= n as real <==> k * d <= n * m
  {
    var x, y := k as real, m as real;
    assert (q * x) * y == x * (q * y);
    if q * x <= n as real {
      assert (q * x) * y <= n as real * y;
    } else {
      assert (q * x) * y > n as real * y;
    }
    assert x * (d as real) == (k * d) as real;
    assert n as real * y == (n * m) as real;
  }

  /** A candidate whose known year is off by two or more scores at most 0.7 and is never auto-matched. */
  lemma WrongYearNeverMatches(item: seq<byte>, itemYear: int, candidate: seq<byte>, candidateYear: int)
    requires itemYear - candidateYear !in {-1, 0, 1}
    ensures Score(item, Some(itemYear), candidate, Some(candidateYear)) <= 0.7
    ensures !AutoMatched(item, Some(itemYear), candidate, Some(candidateYear))
  {
    SimilarityRange(item, candidate);
  }
}

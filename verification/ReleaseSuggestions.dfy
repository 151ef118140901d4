/**
 Ranking saved release names against what a user has typed (backend/internal/fileparse/release_suggestions.go). Both strings
 are already trimmed and in lower case; a character stands for a rune.
 */
module ReleaseSuggestions {

  // ----- One edit

  function Without(s: string, i: nat): string
    requires i < |s|
  {
    s[..i] + s[i + 1..]
  }

  function Swapped(s: string, i: nat): string
    requires i + 1 < |s|
  {
    s[..i] + [s[i + 1], s[i]] + s[i + 2..]
  }

  /** At most one insertion, deletion, substitution or swap of neighbours. */
  ghost predicate OneEdit(a: string, b: string) {
    a == b ||
    (exists i :: 0 <= i < |b| && a == Without(b, i)) ||
    (exists i :: 0 <= i < |a| && b == Without(a, i)) ||
    (|a| == |b| && exists i :: 0 <= i < |a| && Without(a, i) == Without(b, i)) ||
    (exists i :: 0 <= i && i + 1 < |a| && b == Swapped(a, i))
  }

  function Min(a: nat, b: nat): nat { if a <= b then a else b }
  function Max(a: int, b: int): int { if a >= b then a else b }

  /** The strings agree up to i and no further. */
  predicate Agree(a: string, b: string, i: nat) {
    i <= |a| && i <= |b| && a[..i] == b[..i] && (i < |a| && i < |b| ==> a[i] != b[i])
  }

  method OneReleaseEdit(a: string, b: string) returns (r: bool)
    requires -1 <= |a| - |b| <= 1
    ensures r <==> OneEdit(a, b)
  {
    hide OneEdit;
    var i := 0;
    while i < Min(|a|, |b|) && a[i] == b[i]
      invariant i <= Min(|a|, |b|) && a[..i] == b[..i]
    {
      i := i + 1;
    }
    EditAtDisagreement(a, b, i);
    if i == Min(|a|, |b|) { return true; }
    if |a| < |b| { return a[i..] == b[i + 1..]; }
    if |a| > |b| { return a[i + 1..] == b[i..]; }
    if a[i + 1..] == b[i + 1..] { return true; }
    return i + 1 < |a| && a[i] == b[i + 1] && a[i + 1] == b[i] && a[i + 2..] == b[i + 2..];
  }

  /** The edit, if there is one, can be made where the strings first disagree. */
  ghost predicate EditableAt(a: string, b: string, i: nat)
    requires Agree(a, b, i)
  {
    if i == Min(|a|, |b|) then true
    else if |a| < |b| then a[i..] == b[i + 1..]
    else if |a| > |b| then a[i + 1..] == b[i..]
    else a[i + 1..] == b[i + 1..] || (i + 1 < |a| && a[i] == b[i + 1] && a[i + 1] == b[i] && a[i + 2..] == b[i + 2..])
  }

  lemma WithoutAt(s: string, i: nat, k: nat)
    requires i < |s| && k < |s| - 1
    ensures Without(s, i)[k] == if k < i then s[k] else s[k + 1]
  {
  }

  lemma EditAtDisagreement(a: string, b: string, i: nat)
    requires Agree(a, b, i) && -1 <= |a| - |b| <= 1
    ensures EditableAt(a, b, i) <==> OneEdit(a, b)
  {
    if EditableAt(a, b, i) { EditExists(a, b, i); }
    hide EditableAt;
    if a == b { Unedited(a, b, i); }
    if j: int :| 0 <= j < |b| && a == Without(b, j) { InsertionMoves(a, b, i, j); }
    if j: int :| 0 <= j < |a| && b == Without(a, j) { DeletionMoves(a, b, i, j); }
    if j: int :| |a| == |b| && 0 <= j < |a| && Without(a, j) == Without(b, j) { SubstitutionMoves(a, b, i, j); }
    if j: int :| 0 <= j && j + 1 < |a| && b == Swapped(a, j) { SwapMoves(a, b, i, j); }
  }

  lemma Unedited(a: string, b: string, i: nat)
    requires Agree(a, b, i) && a == b
    ensures EditableAt(a, b, i)
  {
    assert i == |a|;
  }

  lemma InsertionMoves(a: string, b: string, i: nat, j: nat)
    requires Agree(a, b, i) && j < |b| && a == Without(b, j)
    ensures EditableAt(a, b, i)
  {
    assert forall k :: 0 <= k < j ==> a[k] == b[k];
    assert forall k :: j <= k < |a| ==> a[k] == b[k + 1];
  }

  lemma DeletionMoves(a: string, b: string, i: nat, j: nat)
    requires Agree(a, b, i) && j < |a| && b == Without(a, j)
    ensures EditableAt(a, b, i)
  {
    assert forall k :: 0 <= k < j ==> b[k] == a[k];
    assert forall k :: j <= k < |b| ==> b[k] == a[k + 1];
  }

  lemma EditExists(a: string, b: string, i: nat)
    requires Agree(a, b, i) && -1 <= |a| - |b| <= 1 && EditableAt(a, b, i)
    ensures OneEdit(a, b)
  {
    if i == Min(|a|, |b|) {
      if |a| < |b| {
        assert a == Without(b, i);
      } else if |a| > |b| {
        assert b == Without(a, i);
      } else {
        assert a == b;
      }
    } else if |a| < |b| {
      assert a == a[..i] + a[i..] == Without(b, i);
    } else if |a| > |b| {
      assert b == b[..i] + b[i..] == Without(a, i);
    } else if a[i + 1..] == b[i + 1..] {
      assert Without(a, i) == Without(b, i);
    } else {
      assert b == b[..i] + [b[i], b[i + 1]] + b[i + 2..] == Swapped(a, i);
    }
  }

  lemma SubstitutionMoves(a: string, b: string, i: nat, j: nat)
    requires Agree(a, b, i) && |a| == |b| && j < |a| && Without(a, j) == Without(b, j)
    ensures EditableAt(a, b, i)
  {
    forall k | 0 <= k < |a| && k != j ensures a[k] == b[k] {
      var m := if k < j then k else k - 1;
      WithoutAt(a, j, m);
      WithoutAt(b, j, m);
    }
  }

  lemma SwapMoves(a: string, b: string, i: nat, j: nat)
    requires Agree(a, b, i) && j + 1 < |a| && b == Swapped(a, j)
    ensures EditableAt(a, b, i)
  {
    assert |b| == |a| && b[j] == a[j + 1] && b[j + 1] == a[j];
    assert forall k :: 0 <= k < j ==> b[k] == a[k];
    assert forall k :: j + 2 <= k < |a| ==> b[k] == a[k];
    if i > j {
      assert a[..i][j] == b[..i][j];
      assert forall k :: 0 <= k < |a| ==> a[k] == b[k];
    }
  }

  // ----- Ordered subsequences

  /** Positions of `name`, one per character of `typed`, in ascending order. */
  predicate Embedding(typed: string, name: string, at: seq<nat>) {
    |at| == |typed| && (forall k :: 0 <= k < |at| ==> at[k] < |name| && name[at[k]] == typed[k]) &&
    forall j, k :: 0 <= j < k < |at| ==> at[j] < at[k]
  }

  ghost predicate Embeds(typed: string, name: string) { exists at :: Embedding(typed, name, at) }

  lemma EmbedsNothing(name: string)
    ensures Embeds("", name)
  {
    assert Embedding("", name, []);
  }

  /** One more character of the name is used for the next typed character or passed over. */
  lemma EmbedsStep(typed: string, m: nat, name: string, i: nat)
    requires m < |typed| && i < |name|
    ensures name[i] == typed[m] && Embeds(typed[..m], name[..i]) ==> Embeds(typed[..m + 1], name[..i + 1])
    ensures Embeds(typed[..m], name[..i]) ==> Embeds(typed[..m], name[..i + 1])
    ensures name[i] != typed[m] && Embeds(typed[..m + 1], name[..i + 1]) ==> Embeds(typed[..m + 1], name[..i])
    ensures Embeds(typed[..m + 1], name[..i + 1]) ==> Embeds(typed[..m], name[..i])
  {
    if Embeds(typed[..m], name[..i]) {
      var at :| Embedding(typed[..m], name[..i], at);
      assert Embedding(typed[..m], name[..i + 1], at);
      if name[i] == typed[m] { assert Embedding(typed[..m + 1], name[..i + 1], at + [i]); }
    }
    if Embeds(typed[..m + 1], name[..i + 1]) {
      var at :| Embedding(typed[..m + 1], name[..i + 1], at);
      var most := at[..m];
      assert forall k :: 0 <= k < m ==> most[k] == at[k] && at[k] < at[m];
      assert Embedding(typed[..m], name[..i], most);
      if name[i] != typed[m] {
        assert name[..i + 1][at[m]] == typed[..m + 1][m];
        assert Embedding(typed[..m + 1], name[..i], at);
      }
    }
  }

  /** The scan consumes as little of the name as possible, and fails only if there is no embedding at all. */
  method ScanInOrder(typed: string, name: string) returns (found: bool, end: nat)
    requires typed != ""
    ensures found <==> Embeds(typed, name)
    ensures found ==> 0 < end <= |name| && Embeds(typed, name[..end]) && !Embeds(typed, name[..end - 1])
  {
    var matched := 0;
    assert typed[..0] == "" && name[..0] == "";
    EmbedsNothing("");
    NoRoom(typed);
    for i := 0 to |name|
      invariant matched < |typed| && Embeds(typed[..matched], name[..i]) && !Embeds(typed[..matched + 1], name[..i])
      invariant !Embeds(typed, name[..i])
    {
      EmbedsStep(typed, matched, name, i);
      if matched + 1 < |typed| { EmbedsStep(typed, matched + 1, name, i); }
      WholeNeedsParts(typed, matched + 1, name[..i + 1]);
      hide Embeds;
      if name[i] == typed[matched] {
        matched := matched + 1;
        if matched == |typed| {
          assert typed[..|typed|] == typed;
          EmbedsInMore(typed, name, i + 1);
          return true, i + 1;
        }
      }
      WholeNeedsParts(typed, matched + 1, name[..i + 1]);
    }
    assert name[..|name|] == name;
    return false, 0;
  }

  lemma NoRoom(typed: string)
    requires typed != ""
    ensures !Embeds(typed[..1], "") && !Embeds(typed, "")
  {
    assert forall at :: Embedding(typed, "", at) ==> at[0] < 0;
    assert forall at :: Embedding(typed[..1], "", at) ==> at[0] < 0;
  }

  lemma WholeNeedsParts(typed: string, m: nat, name: string)
    requires m <= |typed|
    ensures Embeds(typed, name) ==> Embeds(typed[..m], name)
  {
    if Embeds(typed, name) {
      var at :| Embedding(typed, name, at);
      assert Embedding(typed[..m], name, at[..m]);
    }
  }

  lemma EmbedsInMore(typed: string, name: string, end: nat)
    requires end <= |name| && Embeds(typed, name[..end])
    ensures Embeds(typed, name)
  {
    var at :| Embedding(typed, name[..end], at);
    assert Embedding(typed, name, at);
  }

  // ----- The score

  predicate OccursAt(keyword: string, query: string, i: nat) {
    i + |query| <= |keyword| && keyword[i..i + |query|] == query
  }

  /** strings.Index. */
  method Index(keyword: string, query: string) returns (index: int)
    ensures index < 0 ==> forall i: nat :: !OccursAt(keyword, query, i)
    ensures index >= 0 ==> OccursAt(keyword, query, index) && forall i: nat :: i < index ==> !OccursAt(keyword, query, i)
  {
    index := 0;
    while index + |query| <= |keyword|
      invariant index >= 0 && forall i: nat :: i < index ==> !OccursAt(keyword, query, i)
    {
      if keyword[index..index + |query|] == query { return; }
      index := index + 1;
    }
    index := -1;
  }

  /** Exact, prefix, substring, ordered subsequence, one typo in the typed prefix, nothing. */
  datatype Tier = Exact | Prefix | Substring | Subsequence | Typo | NoMatch

  ghost predicate TypoOf(keyword: string, query: string) {
    |query| >= 3 && exists n :: Max(1, |query| - 1) <= n <= Min(|keyword|, |query| + 1) && OneEdit(query, keyword[..n])
  }

  ghost function TierOf(keyword: string, query: string): Tier {
    if keyword == "" || query == "" then NoMatch
    else if keyword == query then Exact
    else if query <= keyword then Prefix
    else if exists i: nat :: OccursAt(keyword, query, i) then Substring
    else if Embeds(query, keyword) then Subsequence
    else if TypoOf(keyword, query) then Typo
    else NoMatch
  }

  /** Within a tier, the earlier the match and the fewer the other characters the better. */
  ghost predicate Scored(keyword: string, query: string, score: int) {
    var extra := |keyword| - |query|;
    match TierOf(keyword, query)
    case NoMatch => score == -1
    case Exact => score == 0
    case Prefix => score == 1000 + extra
    case Substring =>
      exists i: nat :: OccursAt(keyword, query, i) && (forall j: nat :: j < i ==> !OccursAt(keyword, query, j)) && score == 2000 + i + extra
    case Subsequence =>
      exists end: nat :: 0 < end <= |keyword| && Embeds(query, keyword[..end]) && !Embeds(query, keyword[..end - 1]) &&
        score == 3000 + extra + (end - |query|)
    case Typo => score == 4000 + Max(extra, -extra)
  }

  method ReleaseSuggestionScore(keyword: string, query: string) returns (score: int)
    ensures Scored(keyword, query, score)
  {
    if keyword == "" || query == "" { return -1; }
    if keyword == query { return 0; }
    if query <= keyword { return 1000 + |keyword| - |query|; }
    var index := Index(keyword, query);
    if index >= 0 {
      assert OccursAt(keyword, query, index);
      return 2000 + index + |keyword| - |query|;
    }
    var found, end := ScanInOrder(query, keyword);
    hide Embeds;
    if found {
      var extra, skipped := |keyword| - |query|, end - |query|;
      return 3000 + extra + skipped;
    }
    if |query| < 3 { return -1; }
    var n := Max(1, |query| - 1);
    while n <= Min(|keyword|, |query| + 1)
      invariant Max(1, |query| - 1) <= n
      invariant forall m :: Max(1, |query| - 1) <= m < n && m <= Min(|keyword|, |query| + 1) ==> !OneEdit(query, keyword[..m])
    {
      var edit := OneReleaseEdit(query, keyword[..n]);
      if edit { return 4000 + Max(|keyword| - |query|, |query| - |keyword|); }
      hide OneEdit;
      n := n + 1;
    }
    return -1;
  }

  /** `end` is where the typed characters are first found, in order. */
  ghost predicate FoundInOrder(query: string, keyword: string, end: nat) {
    end <= |keyword| && Embeds(query, keyword[..end]) && forall e: nat :: e < end ==> !Embeds(query, keyword[..e])
  }

  /** A prefix of the name, as long as what was typed or one character more or less, is one edit away from it. */
  ghost predicate AlmostTyped(query: string, keyword: string) {
    |query| >= 3 && exists n: nat :: n <= |keyword| && n in {|query| - 1, |query|, |query| + 1} && OneEdit(query, keyword[..n])
  }

  /** The scores, told in the order in which they are tried. */
  lemma ScoreExactly(keyword: string, query: string, score: int)
    requires Scored(keyword, query, score)
    ensures keyword == "" || query == "" ==> score == -1
    ensures keyword != "" && keyword == query ==> score == 0
    ensures query != "" && query < keyword ==> score == 1000 + |keyword| - |query|
    ensures keyword != "" && query != "" && !(query <= keyword) ==>
              ((exists front, back :: keyword == front + query + back) ==>
                 exists front, back :: keyword == front + query + back && score == 2000 + |front| + |keyword| - |query| &&
                   forall f, b :: keyword == f + query + b ==> |front| <= |f|) &&
              ((forall front, back :: keyword != front + query + back) ==>
                 (Embeds(query, keyword) ==>
                    exists end: nat :: FoundInOrder(query, keyword, end) && score == 3000 + (|keyword| - |query|) + (end - |query|)) &&
                 (!Embeds(query, keyword) ==>
                    score == if !AlmostTyped(query, keyword) then -1
                             else 4000 + if |keyword| >= |query| then |keyword| - |query| else |query| - |keyword|))
  {
    OccursMeans(keyword, query);
    if query != "" { TypoMeans(keyword, query); }
    hide TypoOf, AlmostTyped;
    match TierOf(keyword, query) {
      case Substring =>
        var i: nat :| OccursAt(keyword, query, i) && (forall j: nat :: j < i ==> !OccursAt(keyword, query, j)) &&
                      score == 2000 + i + |keyword| - |query|;
        FirstOccurrence(keyword, query, i);
      case Subsequence =>
        var end: nat :| 0 < end <= |keyword| && Embeds(query, keyword[..end]) && !Embeds(query, keyword[..end - 1]) &&
          score == 3000 + (|keyword| - |query|) + (end - |query|);
        EarliestEnd(keyword, query, end);
      case _ =>
    }
    hide Embeds, OccursAt;
  }

  lemma OccursMeans(keyword: string, query: string)
    ensures (exists i: nat :: OccursAt(keyword, query, i)) <==> exists front, back :: keyword == front + query + back
    ensures query <= keyword ==> OccursAt(keyword, query, 0)
  {
    if i: nat :| OccursAt(keyword, query, i) { assert keyword == keyword[..i] + query + keyword[i + |query|..]; }
    if front, back :| keyword == front + query + back { assert OccursAt(keyword, query, |front|); }
  }

  lemma FirstOccurrence(keyword: string, query: string, i: nat)
    requires OccursAt(keyword, query, i) && forall j: nat :: j < i ==> !OccursAt(keyword, query, j)
    ensures exists front, back :: keyword == front + query + back && |front| == i &&
              forall f, b :: keyword == f + query + b ==> |front| <= |f|
  {
    var front, back := keyword[..i], keyword[i + |query|..];
    assert keyword == front + query + back;
    forall f, b | keyword == f + query + b ensures i <= |f| { assert OccursAt(keyword, query, |f|); }
  }

  lemma EarliestEnd(keyword: string, query: string, end: nat)
    requires 0 < end <= |keyword| && Embeds(query, keyword[..end]) && !Embeds(query, keyword[..end - 1])
    ensures FoundInOrder(query, keyword, end)
  {
    forall e: nat | e < end ensures !Embeds(query, keyword[..e]) {
      if Embeds(query, keyword[..e]) {
        assert keyword[..end - 1][..e] == keyword[..e];
        EmbedsInMore(query, keyword[..end - 1], e);
      }
    }
  }

  lemma TypoMeans(keyword: string, query: string)
    requires query != ""
    ensures TypoOf(keyword, query) <==> AlmostTyped(query, keyword)
  {
    hide OneEdit;
    if TypoOf(keyword, query) {
      var n :| Max(1, |query| - 1) <= n <= Min(|keyword|, |query| + 1) && OneEdit(query, keyword[..n]);
      assert n in {|query| - 1, |query|, |query| + 1};
    }
  }

  // ----- The tiers stay apart

  function Rank(t: Tier): nat {
    match t case Exact => 0 case Prefix => 1 case Substring => 2 case Subsequence => 3 case Typo => 4 case NoMatch => 5
  }

  lemma {:induction false} EmbeddingGrows(typed: string, name: string, at: seq<nat>, k: nat)
    requires Embedding(typed, name, at) && k < |at|
    ensures k <= at[k]
  {
    if k > 0 { EmbeddingGrows(typed, name, at, k - 1); }
  }

  /** An embedding needs as many characters as are typed, and with no more than that it is the prefix. */
  lemma EmbeddingNeedsRoom(query: string, keyword: string, end: nat)
    requires query != "" && end <= |keyword| && Embeds(query, keyword[..end])
    ensures |query| <= end && (end == |query| ==> query <= keyword)
  {
    var at :| Embedding(query, keyword[..end], at);
    EmbeddingGrows(query, keyword[..end], at, |query| - 1);
    if end == |query| {
      forall k | 0 <= k < |query| ensures query[k] == keyword[k] { AllUsed(query, keyword[..end], at, k); }
    }
  }

  lemma {:induction false} AllUsed(query: string, name: string, at: seq<nat>, k: nat)
    requires Embedding(query, name, at) && |name| == |query| && k < |query|
    ensures at[k] == k
    decreases |query| - k
  {
    EmbeddingGrows(query, name, at, k);
    if k + 1 < |query| { AllUsed(query, name, at, k + 1); }
  }

  /** The span of scores of each tier, for names at most 499 characters longer than what was typed. */
  lemma TierSpan(keyword: string, query: string, score: int)
    requires Scored(keyword, query, score) && |keyword| - |query| <= 499
    ensures match TierOf(keyword, query)
            case NoMatch => score == -1
            case Exact => score == 0
            case Prefix => 1001 <= score <= 1499
            case Substring => 2002 <= score <= 2998
            case Subsequence => 3002 <= score <= 3998
            case Typo => 4000 <= score
  {
    match TierOf(keyword, query) {
      case Substring =>
        var i: nat :| OccursAt(keyword, query, i) && (forall j: nat :: j < i ==> !OccursAt(keyword, query, j)) &&
                      score == 2000 + i + |keyword| - |query|;
        assert i == 0 ==> query <= keyword;
      case Subsequence =>
        var end: nat :| 0 < end <= |keyword| && Embeds(query, keyword[..end]) && !Embeds(query, keyword[..end - 1]) &&
          score == 3000 + (|keyword| - |query|) + (end - |query|);
        EmbeddingNeedsRoom(query, keyword, end);
      case _ =>
    }
    hide Embeds, TypoOf;
  }

  /** Every better tier scores strictly below every worse one. */
  lemma TiersStayApart(better: string, worse: string, query: string, s: int, t: int)
    requires Scored(better, query, s) && Scored(worse, query, t)
    requires |better| - |query| <= 499 && |worse| - |query| <= 499
    requires Rank(TierOf(better, query)) < Rank(TierOf(worse, query)) < 5
    ensures 0 <= s < t
  {
    TierSpan(better, query, s);
    TierSpan(worse, query, t);
    hide Scored, TierOf;
  }

  function Stretched(): string { "a" + seq(500, i => 'x') + "bc" }

  /** The bound is exact: with 500 extra characters a subsequence can score as badly as a typo. */
  lemma TiersMeetAt500()
    ensures |Stretched()| - |"abc"| == 500
    ensures TierOf(Stretched(), "abc") == Subsequence && Scored(Stretched(), "abc", 4000)
    ensures TierOf("abd", "abc") == Typo && Scored("abd", "abc", 4000)
  {
    StretchedIsSubsequence();
    AbdIsTypo();
  }

  lemma EmbeddedCharacter(typed: string, name: string, k: nat)
    requires Embeds(typed, name) && k < |typed|
    ensures typed[k] in name
  {
    var at :| Embedding(typed, name, at);
    assert name[at[k]] == typed[k];
  }

  lemma OccurrenceStarts(keyword: string, query: string, i: nat)
    requires OccursAt(keyword, query, i) && |query| >= 2
    ensures i + 1 < |keyword| && keyword[i] == query[0] && keyword[i + 1] == query[1]
  {
    assert keyword[i..i + |query|][0] == keyword[i] && keyword[i..i + |query|][1] == keyword[i + 1];
  }

  lemma StretchedIsSubsequence()
    ensures TierOf(Stretched(), "abc") == Subsequence && Scored(Stretched(), "abc", 4000)
  {
    var k, q := Stretched(), "abc";
    assert |k| == 503 && k[0] == 'a' && k[501] == 'b' && k[502] == 'c' && forall i :: 1 <= i <= 500 ==> k[i] == 'x';
    forall i: nat ensures !OccursAt(k, q, i) {
      if OccursAt(k, q, i) { OccurrenceStarts(k, q, i); }
    }
    assert k[..503] == k && Embedding(q, k, [0, 501, 502]);
    assert 'c' !in k[..502];
    if Embeds(q, k[..502]) { EmbeddedCharacter(q, k[..502], 2); }
    assert q[1] != k[1];
  }

  lemma AbdIsTypo()
    ensures TierOf("abd", "abc") == Typo && Scored("abd", "abc", 4000)
  {
    var k, q := "abd", "abc";
    assert forall i: nat :: OccursAt(k, q, i) ==> i == 0;
    assert k[0..3] == k;
    assert 'c' !in k;
    if Embeds(q, k) { EmbeddedCharacter(q, k, 2); }
    assert Without(q, 2) == "ab" == Without(k, 2);
    assert k[..3] == k && OneEdit(q, k[..3]);
  }
}

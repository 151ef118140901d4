/** Filtering, ranking and preferring search results (backend/internal/indexer/filter.go). */
module ReleaseSelection {
  import opened Wrappers

  // The language and priority scores are those of backend/internal/fileparse/match.go, the pipeline is
  // filterByProfile in backend/internal/monitor/service.go. What the parser reads off a title is part of the result
  // here; titles, tags and keywords are in lower case.

  datatype Release = Release(title: string, resolution: string, source: string, languages: seq<string>)

  datatype Criteria = Criteria(
    resolutions: seq<string>, sources: seq<string>, languages: seq<string>, excludeTags: seq<string>, languageMode: string)

  // ----- Matching

  ghost predicate Within(text: string, tag: string) {
    exists i :: 0 <= i && i + |tag| <= |text| && text[i..][..|tag|] == tag
  }

  ghost predicate HasTag(title: string, tags: seq<string>) {
    exists t :: t in tags && t != "" && Within(title, t)
  }

  /** strings.Contains. */
  method Contains(text: string, tag: string) returns (b: bool)
    ensures b <==> Within(text, tag)
  {
    var i := 0;
    while i + |tag| <= |text|
      invariant 0 <= i
      invariant forall j :: 0 <= j < i && j + |tag| <= |text| ==> text[j..][..|tag|] != tag
    {
      if text[i..][..|tag|] == tag { return true; }
      i := i + 1;
    }
    return false;
  }

  method ContainsExcludedTag(title: string, tags: seq<string>) returns (b: bool)
    ensures b <==> HasTag(title, tags)
  {
    for k := 0 to |tags|
      invariant forall t :: t in tags[..k] && t != "" ==> !Within(title, t)
    {
      assert tags[..k + 1] == tags[..k] + [tags[k]];
      if tags[k] != "" {
        var found := Contains(title, tags[k]);
        if found { return true; }
      }
    }
    assert tags[..|tags|] == tags;
    return false;
  }

  predicate MatchesProfile(r: Release, c: Criteria) {
    (c.resolutions != [] ==> r.resolution != "" && r.resolution in c.resolutions) &&
    (c.sources != [] ==> r.source != "" && r.source in c.sources)
  }

  /** The languages of a release: an untagged release counts as English where English is wanted. */
  function Spoken(detected: seq<string>, wanted: seq<string>): set<string> {
    if detected == [] && "eng" in wanted then {"eng"} else set d | d in detected
  }

  ghost predicate LanguagesMatch(detected: seq<string>, wanted: seq<string>, mode: string) {
    wanted == [] || "multi" in detected ||
    if mode == "and" then forall l :: l in wanted ==> l in Spoken(detected, wanted)
    else exists l :: l in wanted && l in Spoken(detected, wanted)
  }

  method SpokenLanguages(detected: seq<string>, wanted: seq<string>) returns (spoken: set<string>)
    ensures spoken == Spoken(detected, wanted)
  {
    spoken := set d | d in detected;
    if detected != [] { assert detected[0] in spoken; }
    if spoken == {} && "eng" in wanted { spoken := {"eng"}; }
  }

  method MatchesLanguages(detected: seq<string>, wanted: seq<string>, mode: string) returns (b: bool)
    ensures b <==> LanguagesMatch(detected, wanted, mode)
  {
    if wanted == [] { return true; }
    if "multi" in detected { return true; }
    var spoken := SpokenLanguages(detected, wanted);
    if mode == "and" {
      for k := 0 to |wanted|
        invariant forall l :: l in wanted[..k] ==> l in spoken
      {
        assert wanted[..k + 1] == wanted[..k] + [wanted[k]];
        if wanted[k] !in spoken { return false; }
      }
      assert wanted[..|wanted|] == wanted;
      return true;
    }
    for k := 0 to |wanted|
      invariant forall l :: l in wanted[..k] ==> l !in spoken
    {
      assert wanted[..k + 1] == wanted[..k] + [wanted[k]];
      if wanted[k] in spoken { return true; }
    }
    assert wanted[..|wanted|] == wanted;
    return false;
  }

  ghost predicate Matches(r: Release, c: Criteria) {
    !HasTag(r.title, c.excludeTags) && MatchesProfile(r, c) && LanguagesMatch(r.languages, c.languages, c.languageMode)
  }

  method MatchesCriteria(r: Release, c: Criteria) returns (b: bool)
    ensures b <==> Matches(r, c)
  {
    if |c.excludeTags| > 0 {
      var excluded := ContainsExcludedTag(r.title, c.excludeTags);
      if excluded { return false; }
    }
    if !MatchesProfile(r, c) { return false; }
    if |c.languages| > 0 {
      var spoken := MatchesLanguages(r.languages, c.languages, c.languageMode);
      if !spoken { return false; }
    }
    return true;
  }

  // ----- Scores

  /** Where the list first meets the set; its length if it does not. */
  function FirstIn(list: seq<string>, s: set<string>): nat {
    if list == [] || list[0] in s then 0 else 1 + FirstIn(list[1..], s)
  }

  lemma {:induction false} FirstInIsFirst(list: seq<string>, s: set<string>)
    ensures FirstIn(list, s) <= |list|
    ensures FirstIn(list, s) < |list| ==> list[FirstIn(list, s)] in s
    ensures forall k :: 0 <= k < FirstIn(list, s) ==> list[k] !in s
  {
    if list != [] { FirstInIsFirst(list[1..], s); }
  }

  function Priority(val: string, priorities: seq<string>): nat {
    if priorities == [] then 0 else FirstIn(priorities, {val}) + 1
  }

  method PriorityScore(val: string, priorities: seq<string>) returns (score: nat)
    ensures score == Priority(val, priorities)
  {
    if priorities == [] { return 0; }
    for k := 0 to |priorities|
      invariant FirstIn(priorities, {val}) == k + FirstIn(priorities[k..], {val})
    {
      if priorities[k] == val { return k + 1; }
    }
    return |priorities| + 1;
  }

  function LanguagePriority(detected: seq<string>, wanted: seq<string>): nat {
    if wanted == [] then 0
    else if "multi" in detected then 1
    else FirstIn(wanted, Spoken(detected, wanted)) + 1
  }

  method LanguageScore(detected: seq<string>, wanted: seq<string>) returns (score: nat)
    ensures score == LanguagePriority(detected, wanted)
  {
    if wanted == [] { return 0; }
    if "multi" in detected { return 1; }
    var spoken := SpokenLanguages(detected, wanted);
    for k := 0 to |wanted|
      invariant FirstIn(wanted, spoken) == k + FirstIn(wanted[k..], spoken)
    {
      if wanted[k] in spoken { return k + 1; }
    }
    return |wanted| + 1;
  }

  /** Filtering and ranking agree: outside AND mode a release matches exactly when its score is within the list. */
  lemma OrModeIsScoreInRange(detected: seq<string>, wanted: seq<string>, mode: string)
    requires mode != "and"
    ensures LanguagesMatch(detected, wanted, mode) <==> LanguagePriority(detected, wanted) <= |wanted|
  {
    var spoken := Spoken(detected, wanted);
    FirstInIsFirst(wanted, spoken);
    if wanted != [] && "multi" !in detected {
      if LanguagesMatch(detected, wanted, mode) {
        var l :| l in wanted && l in spoken;
        var k :| 0 <= k < |wanted| && wanted[k] == l;
      } else {
        assert forall k :: 0 <= k < |wanted| ==> wanted[k] in wanted;
      }
    }
  }

  /** In AND mode every matching release has the same language score. */
  lemma AndModeTies(detected: seq<string>, wanted: seq<string>)
    requires LanguagesMatch(detected, wanted, "and")
    ensures LanguagePriority(detected, wanted) == if wanted == [] then 0 else 1
  {
    if wanted != [] && "multi" !in detected { assert wanted[0] in wanted; }
  }

  // ----- The order

  /** Keyword miss, resolution, language, source. */
  datatype Key = Key(miss: nat, res: nat, lang: nat, src: nat)

  predicate Before(a: Key, i: nat, b: Key, j: nat) {
    a.miss < b.miss ||
    (a.miss == b.miss && (a.res < b.res ||
      (a.res == b.res && (a.lang < b.lang ||
        (a.lang == b.lang && (a.src < b.src ||
          (a.src == b.src && i < j)))))))
  }

  ghost function KeyOf(r: Release, c: Criteria, keywords: seq<string>): Key {
    Key(if HasTag(r.title, keywords) then 0 else 1,
        Priority(r.resolution, c.resolutions), LanguagePriority(r.languages, c.languages), Priority(r.source, c.sources))
  }

  predicate Distinct(order: seq<nat>) { forall j, k :: 0 <= j < k < |order| ==> order[j] != order[k] }

  ghost predicate Picks(out: seq<Release>, order: seq<nat>, results: seq<Release>) {
    |out| == |order| && forall k :: 0 <= k < |order| ==> order[k] < |results| && out[k] == results[order[k]]
  }

  /** The chosen positions, in the order of their keys and, among equal keys, of the positions themselves. */
  ghost predicate Sorted(keys: seq<Key>, order: seq<nat>) {
    (forall k :: 0 <= k < |order| ==> order[k] < |keys|) &&
    forall j, k :: 0 <= j < k < |order| ==> Before(keys[order[j]], order[j], keys[order[k]], order[k])
  }

  lemma HasMember(x: seq<nat>)
    requires x != []
    ensures exists i: nat :: i in x
  {
    assert x[0] in x;
  }

  /** Sorting leaves no freedom: two sorted arrangements of the same positions are equal. */
  lemma {:induction false} SortIsUnique(keys: seq<Key>, x: seq<nat>, y: seq<nat>)
    requires Sorted(keys, x) && Sorted(keys, y) && forall i: nat :: i in x <==> i in y
    ensures x == y
  {
    if x == [] {
      if y != [] { HasMember(y); }
    } else if y == [] {
      HasMember(x);
    } else {
      assert x[0] in y && y[0] in x;
      var j :| 0 <= j < |y| && y[j] == x[0];
      var k :| 0 <= k < |x| && x[k] == y[0];
      assert x[0] == y[0];
      assert x == [x[0]] + x[1..] && y == [y[0]] + y[1..];
      assert x[0] !in x[1..] && y[0] !in y[1..];
      assert forall i: nat :: i in x <==> i == x[0] || i in x[1..];
      assert forall i: nat :: i in y <==> i == y[0] || i in y[1..];
      SortIsUnique(keys, x[1..], y[1..]);
    }
  }

  function Positions(n: nat): seq<nat> { seq(n, i => i) }

  lemma AllPositions(n: nat)
    ensures forall i: nat :: i in Positions(n) <==> i < n
  {
    forall i: nat | i < n ensures i in Positions(n) { assert Positions(n)[i] == i; }
  }

  // ----- Filtering

  predicate Ascending(order: seq<nat>) { forall j, k :: 0 <= j < k < |order| ==> order[j] < order[k] }

  /** The matching results, in their order; `from` holds their positions. */
  ghost predicate Filtered(results: seq<Release>, c: Criteria, filtered: seq<Release>, from: seq<nat>) {
    Picks(filtered, from, results) && Ascending(from) &&
    forall i: nat :: i in from <==> i < |results| && Matches(results[i], c)
  }

  method FilterByProfile(results: seq<Release>, c: Criteria) returns (filtered: seq<Release>)
    ensures exists from :: Filtered(results, c, filtered, from)
  {
    filtered := [];
    ghost var from: seq<nat> := [];
    for k := 0 to |results|
      invariant Picks(filtered, from, results) && Ascending(from)
      invariant forall i: nat :: i in from <==> i < k && Matches(results[i], c)
    {
      var matches := MatchesCriteria(results[k], c);
      hide Matches;
      if matches {
        assert forall j :: 0 <= j < |from| ==> from[j] in from;
        filtered, from := filtered + [results[k]], from + [k];
      }
    }
    assert Filtered(results, c, filtered, from);
  }

  /** The results that hit a keyword, in their order; all of them without keywords. */
  ghost predicate Required(results: seq<Release>, keywords: seq<string>, filtered: seq<Release>, from: seq<nat>) {
    Picks(filtered, from, results) && Ascending(from) &&
    forall i: nat :: i in from <==> i < |results| && (keywords != [] ==> HasTag(results[i].title, keywords))
  }

  method FilterByRelease(results: seq<Release>, keywords: seq<string>) returns (filtered: seq<Release>)
    ensures exists from :: Required(results, keywords, filtered, from)
  {
    if keywords == [] {
      AllPositions(|results|);
      assert Required(results, keywords, results, Positions(|results|));
      return results;
    }
    filtered := [];
    ghost var from: seq<nat> := [];
    for k := 0 to |results|
      invariant Picks(filtered, from, results) && Ascending(from)
      invariant forall i: nat :: i in from <==> i < k && HasTag(results[i].title, keywords)
    {
      var hit := ContainsExcludedTag(results[k].title, keywords);
      hide HasTag;
      if hit {
        assert forall j :: 0 <= j < |from| ==> from[j] in from;
        filtered, from := filtered + [results[k]], from + [k];
      }
    }
    assert Required(results, keywords, filtered, from);
  }

  // ----- Ranking

  predicate HasRes(c: Criteria) { |c.resolutions| > 1 }
  predicate HasSrc(c: Criteria) { |c.sources| > 1 }
  predicate HasLang(c: Criteria) { |c.languages| > 0 && c.languageMode != "and" }

  /** The key the ranking uses: only the dimensions that can tell two survivors apart. */
  function RankKey(r: Release, c: Criteria): Key {
    Key(0,
        if HasRes(c) then Priority(r.resolution, c.resolutions) else 0,
        if HasLang(c) then LanguagePriority(r.languages, c.languages) else 0,
        if HasSrc(c) then Priority(r.source, c.sources) else 0)
  }

  function RankKeys(results: seq<Release>, c: Criteria): seq<Key> {
    seq(|results|, i requires 0 <= i < |results| => RankKey(results[i], c))
  }

  /** The comparison of the ranking; equal scores keep the original order. */
  predicate Less(a: Key, b: Key, c: Criteria) {
    if HasRes(c) && a.res != b.res then a.res < b.res
    else if HasLang(c) && a.lang != b.lang then a.lang < b.lang
    else if HasSrc(c) && a.src != b.src then a.src < b.src
    else false
  }

  method ScoreOf(r: Release, c: Criteria) returns (key: Key)
    ensures key == RankKey(r, c)
  {
    key := Key(0, 0, 0, 0);
    if HasRes(c) {
      var res := PriorityScore(r.resolution, c.resolutions);
      key := key.(res := res);
    }
    if HasLang(c) {
      var lang := LanguageScore(r.languages, c.languages);
      key := key.(lang := lang);
    }
    if HasSrc(c) {
      var src := PriorityScore(r.source, c.sources);
      key := key.(src := src);
    }
  }

  /** A stable sort of the positions: each goes behind those that are not greater. */
  method StableSort(keys: seq<Key>, c: Criteria) returns (perm: seq<nat>)
    requires forall i, j :: 0 <= i < j < |keys| ==> (Before(keys[j], j, keys[i], i) <==> Less(keys[j], keys[i], c))
    ensures Sorted(keys, perm) && forall i: nat :: i in perm <==> i < |keys|
  {
    perm := [];
    for i := 0 to |keys|
      invariant Sorted(keys, perm) && forall x: nat :: x in perm <==> x < i
    {
      var p := |perm|;
      assert forall j :: 0 <= j < |perm| ==> perm[j] in perm;
      while p > 0 && Less(keys[i], keys[perm[p - 1]], c)
        invariant 0 <= p <= |perm|
        invariant forall j :: p <= j < |perm| ==> Before(keys[i], i, keys[perm[j]], perm[j])
      {
        p := p - 1;
      }
      perm := Inserted(keys, perm, p, i);
    }
  }

  method Inserted(keys: seq<Key>, perm: seq<nat>, p: nat, i: nat) returns (r: seq<nat>)
    requires Sorted(keys, perm) && p <= |perm| && i < |keys| && i !in perm
    requires forall j :: p <= j < |perm| ==> Before(keys[i], i, keys[perm[j]], perm[j])
    requires p > 0 ==> Before(keys[perm[p - 1]], perm[p - 1], keys[i], i)
    ensures Sorted(keys, r) && forall x: nat :: x in r <==> x in perm || x == i
  {
    InsertMembers(perm, p, i);
    hide Insert;
    r := Insert(perm, p, i);
  }

  /** All results, in the order of their ranking keys. */
  ghost predicate Arranged(results: seq<Release>, c: Criteria, ranked: seq<Release>, perm: seq<nat>) {
    Picks(ranked, perm, results) && Sorted(RankKeys(results, c), perm) && forall i: nat :: i in perm <==> i < |results|
  }

  method RankResults(results: seq<Release>, c: Criteria) returns (ranked: seq<Release>)
    ensures exists perm :: Arranged(results, c, ranked, perm)
  {
    hide Priority, LanguagePriority;
    if !HasRes(c) && !HasSrc(c) && !HasLang(c) {
      AllPositions(|results|);
      assert Arranged(results, c, results, Positions(|results|));
      return results;
    }
    var keys: seq<Key> := [];
    for k := 0 to |results|
      invariant keys == RankKeys(results, c)[..k]
    {
      var key := ScoreOf(results[k], c);
      keys := keys + [key];
    }
    var order := StableSort(keys, c);
    ranked := [];
    for k := 0 to |order|
      invariant |ranked| == k && forall j :: 0 <= j < k ==> ranked[j] == results[order[j]]
    {
      ranked := ranked + [results[order[k]]];
    }
    assert Arranged(results, c, ranked, order);
  }

  /** Skipping a dimension with one entry, or languages in AND mode, is harmless: all survivors tie there. */
  lemma SkippedDimensionsTie(r: Release, q: Release, c: Criteria, i: nat, j: nat)
    requires Matches(r, c) && Matches(q, c)
    ensures var a, b := KeyOf(r, c, []).(miss := 0), KeyOf(q, c, []).(miss := 0);
            Before(RankKey(r, c), i, RankKey(q, c), j) <==> Before(a, i, b, j)
  {
    if c.languages != [] && c.languageMode == "and" {
      AndModeTies(r.languages, c.languages);
      AndModeTies(q.languages, c.languages);
    }
    hide Matches, Priority;
  }

  // ----- Keywords

  /** All results, those that hit a keyword first. */
  ghost predicate Preferred(results: seq<Release>, keywords: seq<string>, preferred: seq<Release>, perm: seq<nat>) {
    Picks(preferred, perm, results) && Sorted(MissKeys(results, keywords), perm) &&
    forall i: nat :: i in perm <==> i < |results|
  }

  method PreferReleases(results: seq<Release>, keywords: seq<string>) returns (preferred: seq<Release>)
    ensures exists perm :: Preferred(results, keywords, preferred, perm)
  {
    AllPositions(|results|);
    if keywords == [] || |results| < 2 {
      assert Preferred(results, keywords, results, Positions(|results|));
      return results;
    }
    var hits, rest := [], [];
    ghost var hitAt: seq<nat>, restAt: seq<nat> := [], [];
    for k := 0 to |results|
      invariant Picks(hits, hitAt, results) && Picks(rest, restAt, results) && Ascending(hitAt) && Ascending(restAt)
      invariant forall i: nat :: i in hitAt <==> i < k && HasTag(results[i].title, keywords)
      invariant forall i: nat :: i in restAt <==> i < k && !HasTag(results[i].title, keywords)
    {
      var hit := ContainsExcludedTag(results[k].title, keywords);
      hide HasTag;
      assert forall j :: 0 <= j < |hitAt| ==> hitAt[j] in hitAt;
      assert forall j :: 0 <= j < |restAt| ==> restAt[j] in restAt;
      if hit {
        hits, hitAt := hits + [results[k]], hitAt + [k];
      } else {
        rest, restAt := rest + [results[k]], restAt + [k];
      }
    }
    hide HasTag;
    assert forall j :: 0 <= j < |hitAt| ==> hitAt[j] in hitAt;
    assert forall j :: 0 <= j < |restAt| ==> restAt[j] in restAt;
    if hits == [] {
      assert forall i: nat :: i < |results| ==> i !in hitAt;
      assert Preferred(results, keywords, results, Positions(|results|));
      return results;
    }
    preferred := hits + rest;
    assert Preferred(results, keywords, preferred, hitAt + restAt);
  }

  ghost function MissKeys(results: seq<Release>, keywords: seq<string>): seq<Key> {
    seq(|results|, i requires 0 <= i < |results| => Key(if HasTag(results[i].title, keywords) then 0 else 1, 0, 0, 0))
  }

  // ----- The pipeline

  /** Where the positions of one stage come from. */
  ghost function Through(order: seq<nat>, from: seq<nat>): seq<nat>
    requires forall k :: 0 <= k < |order| ==> order[k] < |from|
  {
    seq(|order|, k requires 0 <= k < |order| => from[order[k]])
  }

  ghost predicate Eligible(r: Release, c: Criteria, keywords: seq<string>, force: bool) {
    Matches(r, c) && (force && keywords != [] ==> HasTag(r.title, keywords))
  }

  ghost function Keys(results: seq<Release>, c: Criteria, keywords: seq<string>): seq<Key> {
    seq(|results|, i requires 0 <= i < |results| => KeyOf(results[i], c, keywords))
  }

  /** An item without a profile accepts everything and ranks nothing. */
  function CriteriaOf(profile: Option<Criteria>): Criteria {
    if profile.Some? then profile.value else Criteria([], [], [], [], "or")
  }

  lemma NoProfile(results: seq<Release>)
    ensures forall r :: Matches(r, CriteriaOf(None))
    ensures Ranked(results, CriteriaOf(None), Positions(|results|)) && Picks(results, Positions(|results|), results)
    ensures forall i: nat :: i in Positions(|results|) <==> i < |results|
  {
    AllPositions(|results|);
  }

  /** Ranked survivors are in the order of all dimensions. */
  lemma RankedOrder(results: seq<Release>, c: Criteria, filtered: seq<Release>, from: seq<nat>, perm: seq<nat>)
    requires Picks(filtered, from, results) && Ascending(from) && forall i: nat :: i in from ==> i < |results| && Matches(results[i], c)
    requires Sorted(RankKeys(filtered, c), perm)
    ensures Ranked(results, c, Through(perm, from))
  {
    var order := Through(perm, from);
    forall j, k | 0 <= j < k < |order|
      ensures Before(KeyOf(results[order[j]], c, []).(miss := 0), order[j], KeyOf(results[order[k]], c, []).(miss := 0), order[k])
    {
      assert from[perm[j]] in from && from[perm[k]] in from;
      SkippedDimensionsTie(filtered[perm[j]], filtered[perm[k]], c, perm[j], perm[k]);
      hide KeyOf, RankKey, Matches;
    }
  }

  /** In the order of resolution, language, source and position. */
  ghost predicate Ranked(results: seq<Release>, c: Criteria, order: seq<nat>) {
    (forall k :: 0 <= k < |order| ==> order[k] < |results|) &&
    forall j, k :: 0 <= j < k < |order| ==>
      Before(KeyOf(results[order[j]], c, []).(miss := 0), order[j], KeyOf(results[order[k]], c, []).(miss := 0), order[k])
  }

  lemma PreferredOrder(results: seq<Release>, c: Criteria, keywords: seq<string>, ranked: seq<Release>, order: seq<nat>, perm: seq<nat>)
    requires Picks(ranked, order, results) && Ranked(results, c, order) && Sorted(MissKeys(ranked, keywords), perm)
    ensures Sorted(Keys(results, c, keywords), Through(perm, order))
  {
    hide HasTag, Priority, LanguagePriority;
  }

  lemma RequiredOrder(results: seq<Release>, c: Criteria, keywords: seq<string>, ranked: seq<Release>, order: seq<nat>, from: seq<nat>)
    requires Picks(ranked, order, results) && Ranked(results, c, order) && Picks(Thinned(ranked, from), from, ranked) && Ascending(from)
    requires forall i: nat :: i in from ==> i < |ranked| && (keywords != [] ==> HasTag(ranked[i].title, keywords))
    ensures Sorted(Keys(results, c, keywords), Through(from, order))
  {
    forall k | 0 <= k < |from| ensures from[k] < |ranked| && (keywords != [] ==> HasTag(ranked[from[k]].title, keywords)) {
      assert from[k] in from;
    }
    hide Priority, LanguagePriority;
    if keywords != [] { hide HasTag; }
  }

  ghost function Thinned(ranked: seq<Release>, from: seq<nat>): seq<Release> {
    seq(|from|, k requires 0 <= k < |from| => if from[k] < |ranked| then ranked[from[k]] else Release("", "", "", []))
  }

  lemma ThroughPicks(results: seq<Release>, mid: seq<Release>, from: seq<nat>, out: seq<Release>, perm: seq<nat>)
    requires Picks(mid, from, results) && Picks(out, perm, mid)
    ensures Picks(out, Through(perm, from), results)
    ensures forall i: nat :: i in Through(perm, from) <==> exists k :: k in perm && k < |from| && from[k] == i
  {
    var order := Through(perm, from);
    forall i: nat | exists k :: k in perm && k < |from| && from[k] == i ensures i in order {
      var k :| k in perm && k < |from| && from[k] == i;
      var j :| 0 <= j < |perm| && perm[j] == k;
      assert order[j] == i;
    }
    forall i: nat | i in order ensures exists k :: k in perm && k < |from| && from[k] == i {
      var j :| 0 <= j < |order| && order[j] == i;
      assert perm[j] in perm && from[perm[j]] == i;
    }
  }

  /** The matching results in their ranking. */
  ghost predicate RankedMatches(results: seq<Release>, c: Criteria, ranked: seq<Release>, ranking: seq<nat>) {
    Picks(ranked, ranking, results) && Ranked(results, c, ranking) &&
    forall i: nat :: i in ranking <==> i < |results| && Matches(results[i], c)
  }

  method RankForProfile(results: seq<Release>, profile: Option<Criteria>) returns (ranked: seq<Release>)
    ensures exists ranking :: RankedMatches(results, CriteriaOf(profile), ranked, ranking)
  {
    hide Matches, Sorted, RankKeys, Ranked, Positions, Through;
    if profile.None? {
      NoProfile(results);
      assert RankedMatches(results, CriteriaOf(None), results, Positions(|results|));
      return results;
    }
    var filtered := FilterByProfile(results, profile.value);
    ghost var from :| Filtered(results, profile.value, filtered, from);
    ranked := RankResults(filtered, profile.value);
    ghost var perm :| Arranged(filtered, profile.value, ranked, perm);
    RankedOrder(results, profile.value, filtered, from, perm);
    ThroughPicks(results, filtered, from, ranked, perm);
    assert RankedMatches(results, CriteriaOf(profile), ranked, Through(perm, from));
  }

  /** The eligible results in the order of keyword miss, resolution, language, source and original position. */
  ghost predicate Selection(results: seq<Release>, c: Criteria, keywords: seq<string>, force: bool,
      selected: seq<Release>, order: seq<nat>)
  {
    Picks(selected, order, results) && Sorted(Keys(results, c, keywords), order) &&
    forall i: nat :: i in order <==> i < |results| && Eligible(results[i], c, keywords, force)
  }

  /** There is only one such selection. */
  lemma SelectionIsUnique(results: seq<Release>, c: Criteria, keywords: seq<string>, force: bool,
      x: seq<Release>, y: seq<Release>, xs: seq<nat>, ys: seq<nat>)
    requires Selection(results, c, keywords, force, x, xs) && Selection(results, c, keywords, force, y, ys)
    ensures x == y
  {
    hide Eligible, Sorted, Keys;
    SortIsUnique(Keys(results, c, keywords), xs, ys);
  }

  // ----- The selection in plain terms

  ghost predicate Contained(text: string, tag: string) { exists front, back :: text == front + tag + back }

  /** Some tag other than the empty one is part of the title. */
  ghost predicate Mentions(title: string, tags: seq<string>) { exists t :: t in tags && t != "" && Contained(title, t) }

  /** A release in several languages has each of them, and one without any is taken to be in English. */
  predicate Offers(r: Release, language: string) {
    "multi" in r.languages || language in r.languages || (r.languages == [] && language == "eng")
  }

  ghost predicate Acceptable(r: Release, c: Criteria) {
    !Mentions(r.title, c.excludeTags) &&
    (c.resolutions == [] || (r.resolution != "" && r.resolution in c.resolutions)) &&
    (c.sources == [] || (r.source != "" && r.source in c.sources)) &&
    (c.languages == [] ||
     if c.languageMode == "and" then forall l :: l in c.languages ==> Offers(r, l) else exists l :: l in c.languages && Offers(r, l))
  }

  /** The list names x before it names y, if it names y at all. */
  predicate Sooner(list: seq<string>, x: string, y: string) {
    exists k :: 0 <= k < |list| && list[k] == x && forall j :: 0 <= j <= k ==> list[j] != y
  }

  /** The list names a language of r before it names one of q. */
  predicate LanguageSooner(list: seq<string>, r: Release, q: Release) {
    exists k :: 0 <= k < |list| && Offers(r, list[k]) && forall j :: 0 <= j <= k ==> !Offers(q, list[j])
  }

  /** Keyword hits first, then by resolution, language and source as the profile lists them, then as they were found. */
  ghost predicate Precedes(c: Criteria, keywords: seq<string>, r: Release, i: nat, q: Release, j: nat) {
    if Mentions(r.title, keywords) != Mentions(q.title, keywords) then Mentions(r.title, keywords)
    else if Sooner(c.resolutions, r.resolution, q.resolution) then true
    else if Sooner(c.resolutions, q.resolution, r.resolution) then false
    else if LanguageSooner(c.languages, r, q) then true
    else if LanguageSooner(c.languages, q, r) then false
    else if Sooner(c.sources, r.source, q.source) then true
    else if Sooner(c.sources, q.source, r.source) then false
    else i < j
  }

  /** The acceptable results, without keyword hits only those if they are forced, best first. */
  ghost predicate BestFirst(results: seq<Release>, c: Criteria, keywords: seq<string>, force: bool,
      selected: seq<Release>, order: seq<nat>)
  {
    |selected| == |order| && (forall k :: 0 <= k < |order| ==> order[k] < |results| && selected[k] == results[order[k]]) &&
    (forall i: nat :: i in order <==>
       i < |results| && Acceptable(results[i], c) && (force && keywords != [] ==> Mentions(results[i].title, keywords))) &&
    forall j, k :: 0 <= j < k < |order| ==> Precedes(c, keywords, results[order[j]], order[j], results[order[k]], order[k])
  }

  lemma WithinMeans(text: string, tag: string)
    ensures Within(text, tag) <==> Contained(text, tag)
  {
    if Within(text, tag) {
      var i :| 0 <= i && i + |tag| <= |text| && text[i..][..|tag|] == tag;
      assert text == text[..i] + tag + text[i + |tag|..];
    }
    if Contained(text, tag) {
      var front, back :| text == front + tag + back;
      assert text[|front|..][..|tag|] == tag;
    }
  }

  lemma HasTagMeans(title: string, tags: seq<string>)
    ensures HasTag(title, tags) <==> Mentions(title, tags)
  {
    forall t ensures Within(title, t) <==> Contained(title, t) { WithinMeans(title, t); }
    hide Within, Contained;
  }

  lemma OffersSpoken(r: Release, wanted: seq<string>, l: string)
    requires l in wanted
    ensures Offers(r, l) <==> "multi" in r.languages || l in Spoken(r.languages, wanted)
  {
  }

  lemma MatchesMeans(r: Release, c: Criteria)
    ensures Matches(r, c) <==> Acceptable(r, c)
  {
    HasTagMeans(r.title, c.excludeTags);
    forall l | l in c.languages ensures Offers(r, l) <==> "multi" in r.languages || l in Spoken(r.languages, c.languages) {
      OffersSpoken(r, c.languages, l);
    }
    hide HasTag, Mentions, Offers, Spoken;
    assert c.languages != [] ==> c.languages[0] in c.languages;
  }

  /** A smaller score means sooner in the list. */
  lemma PriorityMeans(list: seq<string>, x: string, y: string)
    ensures Priority(x, list) < Priority(y, list) <==> Sooner(list, x, y)
  {
    FirstInIsFirst(list, {x});
    FirstInIsFirst(list, {y});
    hide FirstIn;
    if Priority(x, list) < Priority(y, list) { assert list[FirstIn(list, {x})] == x; }
  }

  lemma FirstOffered(r: Release, wanted: seq<string>)
    requires wanted != []
    ensures 1 <= LanguagePriority(r.languages, wanted) <= |wanted| + 1
    ensures LanguagePriority(r.languages, wanted) <= |wanted| ==> Offers(r, wanted[LanguagePriority(r.languages, wanted) - 1])
    ensures forall k :: 0 <= k < LanguagePriority(r.languages, wanted) - 1 ==> !Offers(r, wanted[k])
  {
    FirstInIsFirst(wanted, Spoken(r.languages, wanted));
    forall k | 0 <= k < |wanted| ensures Offers(r, wanted[k]) <==> "multi" in r.languages || wanted[k] in Spoken(r.languages, wanted) {
      OffersSpoken(r, wanted, wanted[k]);
    }
    hide Spoken, Offers, FirstIn;
  }

  lemma LanguagePriorityMeans(c: Criteria, r: Release, q: Release)
    ensures LanguagePriority(r.languages, c.languages) < LanguagePriority(q.languages, c.languages) <==> LanguageSooner(c.languages, r, q)
  {
    if c.languages != [] {
      FirstOffered(r, c.languages);
      FirstOffered(q, c.languages);
      hide LanguagePriority, Offers;
      if LanguagePriority(r.languages, c.languages) < LanguagePriority(q.languages, c.languages) {
        assert Offers(r, c.languages[LanguagePriority(r.languages, c.languages) - 1]);
      }
    }
  }

  lemma OrderMeans(c: Criteria, keywords: seq<string>, r: Release, i: nat, q: Release, j: nat)
    ensures Before(KeyOf(r, c, keywords), i, KeyOf(q, c, keywords), j) <==> Precedes(c, keywords, r, i, q, j)
  {
    HasTagMeans(r.title, keywords);
    HasTagMeans(q.title, keywords);
    PriorityMeans(c.resolutions, r.resolution, q.resolution);
    PriorityMeans(c.resolutions, q.resolution, r.resolution);
    PriorityMeans(c.sources, r.source, q.source);
    PriorityMeans(c.sources, q.source, r.source);
    LanguagePriorityMeans(c, r, q);
    LanguagePriorityMeans(c, q, r);
    hide HasTag, Mentions, Priority, Sooner, LanguagePriority, LanguageSooner;
  }

  /** The selection is the list a reader of the profile would make. */
  lemma SelectionMeans(results: seq<Release>, c: Criteria, keywords: seq<string>, force: bool, selected: seq<Release>, order: seq<nat>)
    ensures Selection(results, c, keywords, force, selected, order) ==> BestFirst(results, c, keywords, force, selected, order)
  {
    if Selection(results, c, keywords, force, selected, order) {
      forall i | 0 <= i < |results|
        ensures Eligible(results[i], c, keywords, force) <==>
                  Acceptable(results[i], c) && (force && keywords != [] ==> Mentions(results[i].title, keywords))
      {
        MatchesMeans(results[i], c);
        HasTagMeans(results[i].title, keywords);
      }
      hide Eligible, Acceptable, Mentions, Precedes, KeyOf;
      forall j, k | 0 <= j < k < |order| ensures Precedes(c, keywords, results[order[j]], order[j], results[order[k]], order[k]) {
        OrderMeans(c, keywords, results[order[j]], order[j], results[order[k]], order[k]);
      }
    }
  }

  /** Filter, stable ranking and keywords together are one lexicographic sort. */
  method FilterForItem(results: seq<Release>, profile: Option<Criteria>, keywords: seq<string>, force: bool)
    returns (selected: seq<Release>)
    ensures exists order :: Selection(results, CriteriaOf(profile), keywords, force, selected, order)
    ensures var c := if profile.Some? then profile.value else Criteria([], [], [], [], "or");
            exists order :: BestFirst(results, c, keywords, force, selected, order)
  {
    ghost var c := CriteriaOf(profile);
    hide Matches, Sorted, Keys, HasTag, Ranked, BestFirst;
    var ranked := RankForProfile(results, profile);
    ghost var ranking :| RankedMatches(results, c, ranked, ranking);
    ghost var last: seq<nat>;
    if force {
      selected := FilterByRelease(ranked, keywords);
      last :| Required(ranked, keywords, selected, last);
      RequiredOrder(results, c, keywords, ranked, ranking, last);
    } else {
      selected := PreferReleases(ranked, keywords);
      last :| Preferred(ranked, keywords, selected, last);
      PreferredOrder(results, c, keywords, ranked, ranking, last);
    }
    ThroughPicks(results, ranked, ranking, selected, last);
    assert Selection(results, c, keywords, force, selected, Through(last, ranking));
    SelectionMeans(results, c, keywords, force, selected, Through(last, ranking));
  }
}

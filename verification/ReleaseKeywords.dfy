/**
 Comma-separated release keywords: the parser that stores and reads them (backend/internal/fileparse/release_keywords.go,
 joined at backend/internal/media/update.go) and the editor that inserts one (frontend/src/utils/releaseKeywords.ts).

 White space and letter case are those of ASCII.
 */
module ReleaseKeywords {

  predicate IsSpace(c: char) { c == ' ' || c == '\t' || c == '\n' || c == '\U{0B}' || c == '\U{0C}' || c == '\r' }

  function TrimLeft(s: string): string { if s != "" && IsSpace(s[0]) then TrimLeft(s[1..]) else s }

  function TrimRight(s: string): string { if s != "" && IsSpace(s[|s| - 1]) then TrimRight(s[..|s| - 1]) else s }

  function Trim(s: string): string { TrimRight(TrimLeft(s)) }

  function LowerChar(c: char): char { if 'A' <= c <= 'Z' then c - 'A' + 'a' else c }

  function Lower(s: string): string { seq(|s|, i requires 0 <= i < |s| => LowerChar(s[i])) }

  function Clean(part: string): string { Lower(Trim(part)) }

  /** One more character in front: a comma starts a new part. */
  function Push(c: char, parts: seq<string>): (r: seq<string>)
    requires parts != []
    ensures r != []
  {
    if c == ',' then [""] + parts else [[c] + parts[0]] + parts[1..]
  }

  function Split(s: string): (parts: seq<string>)
    ensures parts != []
  {
    if s == "" then [""] else Push(s[0], Split(s[1..]))
  }

  function Join(keywords: seq<string>): string {
    if keywords == [] then ""
    else if |keywords| == 1 then keywords[0]
    else keywords[0] + ", " + Join(keywords[1..])
  }

  /** First use first, without empty or repeated entries. */
  function Canonical(parts: seq<string>): seq<string> {
    if parts == [] then []
    else
      var before, last := Canonical(parts[..|parts| - 1]), Clean(parts[|parts| - 1]);
      if last != "" && last !in before then before + [last] else before
  }

  function Parse(value: string): seq<string> { Canonical(Split(value)) }

  method ParseReleaseKeywords(value: string) returns (keywords: seq<string>)
    ensures keywords == Parse(value)
  {
    keywords := [];
    var seen: set<string> := {};
    var parts := Split(value);
    for i := 0 to |parts|
      invariant keywords == Canonical(parts[..i]) && forall k :: k in seen <==> k in keywords
    {
      assert parts[..i + 1][..i] == parts[..i];
      var keyword := Clean(parts[i]);
      if keyword != "" && keyword !in seen {
        seen, keywords := seen + {keyword}, keywords + [keyword];
      }
    }
    assert parts[..|parts|] == parts;
  }

  // ----- What parsing means

  function Rejoined(parts: seq<string>): string
    requires parts != []
  {
    if |parts| == 1 then parts[0] else parts[0] + "," + Rejoined(parts[1..])
  }

  /** The parts are what lies between the commas. */
  lemma {:induction false} SplitExactly(s: string)
    ensures forall p :: p in Split(s) ==> ',' !in p
    ensures Rejoined(Split(s)) == s
  {
    if s != "" {
      var rest := Split(s[1..]);
      SplitExactly(s[1..]);
      assert s == [s[0]] + s[1..] && rest[0] in rest && forall p :: p in rest[1..] ==> p in rest;
      if s[0] == ',' {
        assert Split(s)[1..] == rest;
      } else if |rest| > 1 {
        assert Split(s)[1..] == rest[1..] && [s[0]] + rest[0] + "," + Rejoined(rest[1..]) == [s[0]] + Rejoined(rest);
      }
    }
  }

  predicate Blank(s: string) { forall c :: c in s ==> c in " \t\n\r\U{0B}\U{0C}" }

  /** A cleaned part is the part without the white space around it, in lower case. */
  lemma CleanExactly(part: string)
    ensures exists front, core, back ::
              part == front + core + back && Blank(front) && Blank(back) &&
              (core != "" ==> !Blank([core[0]]) && !Blank([core[|core| - 1]])) && |Clean(part)| == |core| &&
              forall i :: 0 <= i < |core| ==>
                if 'A' <= core[i] <= 'Z' then Clean(part)[i] as int == core[i] as int + 32 else Clean(part)[i] == core[i]
  {
    hide TrimLeft, TrimRight, Lower, LowerChar, IsSpace, Blank;
    var right := TrimLeft(part);
    TrimLeftCuts(part);
    TrimRightCuts(right);
    var core := TrimRight(right);
    var front, back := part[..|part| - |right|], right[|core|..];
    assert part == front + core + back;
    TrimLeftKeeps(part);
    TrimRightKeeps(right);
    assert core != "" ==> core[0] == right[0];
    LowerExactly(core);
    BlankIsSpace();
  }

  lemma LowerExactly(s: string)
    ensures |Lower(s)| == |s|
    ensures forall i :: 0 <= i < |s| ==> if 'A' <= s[i] <= 'Z' then Lower(s)[i] as int == s[i] as int + 32 else Lower(s)[i] == s[i]
  {
  }

  lemma BlankIsSpace()
    ensures forall c :: Blank([c]) <==> IsSpace(c)
  {
    forall c ensures Blank([c]) <==> IsSpace(c) { assert c in [c]; }
  }

  lemma {:induction false} TrimLeftCuts(s: string)
    ensures |TrimLeft(s)| <= |s| && s[|s| - |TrimLeft(s)|..] == TrimLeft(s) && Blank(s[..|s| - |TrimLeft(s)|])
  {
    if s != "" && IsSpace(s[0]) {
      TrimLeftCuts(s[1..]);
      var n := |s| - |TrimLeft(s)|;
      assert s[..n] == [s[0]] + s[1..][..n - 1];
    }
  }

  lemma {:induction false} TrimRightCuts(s: string)
    ensures TrimRight(s) <= s && Blank(s[|TrimRight(s)|..])
  {
    if s != "" && IsSpace(s[|s| - 1]) {
      TrimRightCuts(s[..|s| - 1]);
      var n := |TrimRight(s)|;
      assert s[n..] == s[..|s| - 1][n..] + [s[|s| - 1]];
    }
  }

  /** Keywords stay where they were first used: more text only adds keywords at the end. */
  lemma ParseGrows(value: string, more: string)
    ensures Parse(value) <= Parse(value + "," + more)
  {
    SplitAtComma(value, more);
    CanonicalGrows(Split(value), Split(more));
  }

  lemma {:induction false} CanonicalGrows(parts: seq<string>, more: seq<string>)
    ensures Canonical(parts) <= Canonical(parts + more)
  {
    if more == [] {
      assert parts + more == parts;
    } else {
      CanonicalGrows(parts, more[..|more| - 1]);
      assert (parts + more)[..|parts + more| - 1] == parts + more[..|more| - 1];
    }
  }

  // ----- Splitting

  lemma PushInFront(c: char, parts: seq<string>, more: seq<string>)
    requires parts != []
    ensures Push(c, parts + more) == Push(c, parts) + more
  {
    assert (parts + more)[0] == parts[0] && (parts + more)[1..] == parts[1..] + more;
  }

  lemma {:induction false} SplitAtComma(a: string, b: string)
    ensures Split(a + "," + b) == Split(a) + Split(b)
  {
    if a == "" {
      assert "" + "," + b == [','] + b && Split("") == [""];
    } else {
      var rest := a[1..];
      SplitAtComma(rest, b);
      hide Split, Push;
      PushInFront(a[0], Split(rest), Split(b));
      assert a == [a[0]] + rest;
      assert a + "," + b == [a[0]] + (rest + "," + b);
    }
  }

  lemma {:induction false} SplitWhole(s: string)
    requires ',' !in s
    ensures Split(s) == [s]
  {
    if s != "" {
      assert s == [s[0]] + s[1..];
      SplitWhole(s[1..]);
    }
  }

  lemma {:induction false} SplitParts(s: string)
    ensures forall p, c :: p in Split(s) && c in p ==> c in s && c != ','
  {
    if s != "" {
      SplitParts(s[1..]);
      assert s == [s[0]] + s[1..];
      var rest := Split(s[1..]);
      assert rest[0] in rest && forall p :: p in rest[1..] ==> p in rest;
    }
  }

  ghost predicate LowerParts(lower: seq<string>, parts: seq<string>) {
    |lower| == |parts| && forall i :: 0 <= i < |parts| ==> lower[i] == Lower(parts[i])
  }

  lemma PushLower(c: char, lower: seq<string>, parts: seq<string>)
    requires parts != [] && LowerParts(lower, parts)
    ensures LowerParts(Push(LowerChar(c), lower), Push(c, parts))
  {
    assert LowerChar(c) == ',' <==> c == ',';
    assert Lower("") == "" && Lower([c] + parts[0]) == [LowerChar(c)] + Lower(parts[0]);
    hide Lower, LowerChar;
  }

  lemma {:induction false} SplitLower(s: string)
    ensures LowerParts(Split(Lower(s)), Split(s))
  {
    if s != "" {
      assert Lower(s)[1..] == Lower(s[1..]) && Lower(s)[0] == LowerChar(s[0]);
      SplitLower(s[1..]);
      PushLower(s[0], Split(Lower(s[1..])), Split(s[1..]));
      hide Lower, LowerChar, LowerParts, Push;
    }
  }

  // ----- Cleaning

  lemma {:induction false} TrimLeftKeeps(s: string)
    ensures forall c :: c in TrimLeft(s) ==> c in s
    ensures TrimLeft(s) == "" || !IsSpace(TrimLeft(s)[0])
    ensures TrimLeft(Lower(s)) == Lower(TrimLeft(s))
  {
    if s != "" && IsSpace(s[0]) {
      TrimLeftKeeps(s[1..]);
      assert Lower(s)[1..] == Lower(s[1..]);
    }
  }

  lemma {:induction false} TrimRightKeeps(s: string)
    ensures TrimRight(s) <= s
    ensures TrimRight(s) == "" || !IsSpace(TrimRight(s)[|TrimRight(s)| - 1])
    ensures TrimRight(Lower(s)) == Lower(TrimRight(s))
  {
    if s != "" && IsSpace(s[|s| - 1]) {
      TrimRightKeeps(s[..|s| - 1]);
      assert Lower(s)[..|s| - 1] == Lower(s[..|s| - 1]);
    }
  }

  /** A keyword the parser leaves alone. */
  predicate IsKeyword(k: string) {
    k != "" && ',' !in k && Lower(k) == k && !IsSpace(k[0]) && !IsSpace(k[|k| - 1])
  }

  lemma CleanOfLower(part: string)
    ensures Clean(Lower(part)) == Clean(part)
  {
    TrimLeftKeeps(part);
    TrimRightKeeps(TrimLeft(part));
    LowerTwice(Trim(part));
    hide Lower, TrimLeft, TrimRight;
  }

  lemma LowerTwice(s: string)
    ensures Lower(Lower(s)) == Lower(s) && |Lower(s)| == |s|
    ensures s != "" && !IsSpace(s[0]) ==> !IsSpace(Lower(s)[0])
    ensures s != "" && !IsSpace(s[|s| - 1]) ==> !IsSpace(Lower(s)[|s| - 1])
    ensures ',' !in s ==> ',' !in Lower(s)
  {
    assert forall i :: 0 <= i < |s| ==> s[i] in s;
  }

  lemma TrimKeeps(part: string)
    ensures var t := Trim(part); (forall c :: c in t ==> c in part) && (t == "" || (!IsSpace(t[0]) && !IsSpace(t[|t| - 1])))
  {
    var l := TrimLeft(part);
    TrimLeftKeeps(part);
    TrimRightKeeps(l);
    hide TrimLeft, TrimRight;
    assert forall c :: c in Trim(part) ==> c in l;
  }

  lemma CleanIsKeyword(part: string)
    requires ',' !in part
    ensures Clean(part) == "" || IsKeyword(Clean(part))
    ensures Clean(Lower(part)) == Clean(part)
  {
    CleanOfLower(part);
    TrimKeeps(part);
    LowerTwice(Trim(part));
    hide Lower, Trim;
  }

  lemma KeywordIsClean(k: string)
    requires IsKeyword(k)
    ensures Clean(k) == k && Clean(" " + k) == k
  {
    assert (" " + k)[1..] == k;
  }

  // ----- The round trip

  predicate Keywords(keywords: seq<string>) {
    (forall k :: k in keywords ==> IsKeyword(k)) && forall i, j :: 0 <= i < j < |keywords| ==> keywords[i] != keywords[j]
  }

  lemma {:induction false} CanonicalKeywords(parts: seq<string>)
    requires forall p :: p in parts ==> ',' !in p
    ensures Keywords(Canonical(parts))
    ensures forall k :: k in Canonical(parts) <==> k != "" && exists p :: p in parts && Clean(p) == k
  {
    if parts != [] {
      var before, last := parts[..|parts| - 1], parts[|parts| - 1];
      assert parts == before + [last];
      CanonicalKeywords(before);
      CleanIsKeyword(last);
      assert forall i :: 0 <= i < |Canonical(before)| ==> Canonical(before)[i] in Canonical(before);
      hide Clean, IsKeyword;
    }
  }

  /** What the parser yields is always a list of different, clean keywords. */
  lemma ParseIsCanonical(value: string)
    ensures Keywords(Parse(value))
    ensures forall k :: k in Parse(value) <==> k != "" && exists p :: p in Split(value) && Clean(p) == k
  {
    SplitParts(value);
    CanonicalKeywords(Split(value));
  }

  /** The parts of a joined list: all but the first begin with the space of the separator. */
  lemma {:induction false} SplitJoin(keywords: seq<string>)
    requires keywords != [] && forall k :: k in keywords ==> ',' !in k
    ensures |Split(Join(keywords))| == |keywords| && Split(Join(keywords))[0] == keywords[0]
    ensures forall i :: 1 <= i < |keywords| ==> Split(Join(keywords))[i] == " " + keywords[i]
  {
    SplitWhole(keywords[0]);
    if |keywords| > 1 {
      var rest := keywords[1..];
      SplitJoin(rest);
      SplitAtComma(keywords[0], " " + Join(rest));
      assert keywords[0] + "," + (" " + Join(rest)) == Join(keywords);
      assert (" " + Join(rest))[1..] == Join(rest);
    }
  }

  lemma {:induction false} CanonicalOf(parts: seq<string>, keywords: seq<string>)
    requires |parts| == |keywords| && Keywords(keywords) && forall i :: 0 <= i < |parts| ==> Clean(parts[i]) == keywords[i]
    ensures Canonical(parts) == keywords
  {
    if parts != [] {
      var n := |parts| - 1;
      assert keywords == keywords[..n] + [keywords[n]];
      assert keywords[n] in keywords;
      CanonicalOf(parts[..n], keywords[..n]);
      hide Clean;
    }
  }

  /** Parsing undoes joining: the stored text reads back as the same keywords, in the same order. */
  lemma ParseUndoesJoin(keywords: seq<string>)
    requires Keywords(keywords)
    ensures Parse(Join(keywords)) == keywords
  {
    if keywords == [] {
      assert Split("") == [""] && Clean("") == "";
    } else {
      SplitJoin(keywords);
      var parts := Split(Join(keywords));
      forall i | 0 <= i < |parts| ensures Clean(parts[i]) == keywords[i] {
        assert keywords[i] in keywords;
        KeywordIsClean(keywords[i]);
      }
      CanonicalOf(parts, keywords);
    }
  }

  /** So saving what has been parsed and parsing it again changes nothing. */
  lemma SavedKeywordsReadBack(value: string)
    ensures Parse(Join(Parse(value))) == Parse(value)
  {
    ParseIsCanonical(value);
    ParseUndoesJoin(Parse(value));
  }

  // ----- Inserting a keyword

  function LastComma(s: string): int
    ensures -1 <= LastComma(s) < |s|
    ensures LastComma(s) >= 0 ==> s[LastComma(s)] == ','
    ensures forall k :: LastComma(s) < k < |s| ==> s[k] != ','
  {
    if s == "" then -1 else if s[|s| - 1] == ',' then |s| - 1 else LastComma(s[..|s| - 1])
  }

  function FirstComma(s: string): int
    ensures -1 <= FirstComma(s) < |s|
    ensures FirstComma(s) >= 0 ==> s[FirstComma(s)] == ','
    ensures forall k :: 0 <= k < |s| && (FirstComma(s) < 0 || k < FirstComma(s)) ==> s[k] != ','
  {
    if s == "" then -1 else if s[0] == ',' then 0 else if FirstComma(s[1..]) < 0 then -1 else 1 + FirstComma(s[1..])
  }

  datatype Token = Token(start: nat, end: nat, prefix: string, selected: seq<string>)

  function Clamp(caret: int, length: nat): nat { if caret < 0 then 0 else if caret > length then length else caret }

  /** The entry under the caret, and the keywords of all others. */
  function ReleaseKeywordToken(value: string, caret: int): (t: Token)
    ensures t.start <= Clamp(caret, |value|) <= t.end <= |value|
    ensures t.start > 0 ==> value[t.start - 1] == ','
    ensures t.end < |value| ==> value[t.end] == ','
  {
    var position := Clamp(caret, |value|);
    var start := if position == 0 then 0 else LastComma(value[..position]) + 1;
    var next := FirstComma(value[position..]);
    var end := if next < 0 then |value| else position + next;
    Token(start, end, Clean(value[start..position]), Parse(value[..start] + "," + value[end..]))
  }

  /** The token reaches from comma to comma. */
  lemma TokenIsOneEntry(value: string, caret: int)
    ensures var t := ReleaseKeywordToken(value, caret); ',' !in value[t.start..t.end]
  {
    hide Clean, Parse;
    var t, position := ReleaseKeywordToken(value, caret), Clamp(caret, |value|);
    forall k | t.start <= k < t.end ensures value[k] != ',' {
      if k < position {
        assert value[..position][k] == value[k];
      } else {
        assert value[position..][k - position] == value[k];
      }
    }
  }

  /** The edited text, before it is put in lower case. */
  function Edited(value: string, t: Token, replacement: string): string
    requires t.start <= t.end <= |value|
  {
    value[..t.start] + replacement + if t.end < |value| then value[t.end..] else ", "
  }

  datatype Edit = Edit(value: string, caret: nat)

  function InsertReleaseKeyword(value: string, caret: int, keyword: string): Edit {
    var t := ReleaseKeywordToken(value, caret);
    var replacement := (if t.start > 0 then " " else "") + Clean(keyword);
    Edit(Lower(Edited(value, t, replacement)), t.start + |replacement| + if t.end == |value| then 2 else 0)
  }

  ghost predicate Has(value: string, k: string) { k != "" && exists p :: p in Split(value) && Clean(p) == k }

  lemma HasParts(a: string, b: string, k: string)
    ensures Has(a + "," + b, k) <==> Has(a, k) || Has(b, k)
  {
    SplitAtComma(a, b);
    hide Clean;
  }

  lemma HasLower(s: string, k: string)
    ensures Has(Lower(s), k) <==> Has(s, k)
  {
    SplitLower(s);
    SplitParts(s);
    var parts, lower := Split(s), Split(Lower(s));
    forall i | 0 <= i < |parts| ensures Clean(lower[i]) == Clean(parts[i]) {
      assert parts[i] in parts;
      CleanIsKeyword(parts[i]);
    }
    hide Clean;
    if Has(s, k) {
      var p :| p in parts && Clean(p) == k;
      var i :| 0 <= i < |parts| && parts[i] == p;
      assert lower[i] in lower;
    }
    if Has(Lower(s), k) {
      var p :| p in lower && Clean(p) == k;
      var i :| 0 <= i < |lower| && lower[i] == p;
      assert parts[i] in parts;
    }
  }

  /** The text around a token, up to the commas that delimit it. */
  lemma Around(value: string, caret: int, k: string)
    ensures var t := ReleaseKeywordToken(value, caret);
            k in t.selected <==>
              (t.start > 0 && Has(value[..t.start - 1], k)) || (t.end < |value| && Has(value[t.end + 1..], k))
  {
    var t := ReleaseKeywordToken(value, caret);
    var before, after := value[..t.start], value[t.end..];
    ParseIsCanonical(before + "," + after);
    HasParts(before, after, k);
    HasEnds(value, t.start, t.end, k);
    hide Has, Parse, Split;
  }

  lemma HasEnds(value: string, start: nat, end: nat, k: string)
    requires start <= end <= |value| && (start > 0 ==> value[start - 1] == ',') && (end < |value| ==> value[end] == ',')
    ensures Has(value[..start], k) <==> start > 0 && Has(value[..start - 1], k)
    ensures Has(value[end..], k) <==> end < |value| && Has(value[end + 1..], k)
  {
    if start > 0 {
      assert value[..start] == value[..start - 1] + "," + "";
      HasParts(value[..start - 1], "", k);
    } else {
      assert value[..start] == "";
    }
    if end < |value| {
      assert value[end..] == "" + "," + value[end + 1..];
      HasParts("", value[end + 1..], k);
    } else {
      assert value[end..] == "";
    }
  }

  lemma ParseHas(value: string, k: string)
    ensures k in Parse(value) <==> Has(value, k)
  {
    ParseIsCanonical(value);
  }

  lemma CleanSpaceFirst(c: char, p: string)
    requires IsSpace(c)
    ensures Clean([c] + p) == Clean(p)
  {
    assert ([c] + p)[1..] == p;
  }

  /** White space in front of a text belongs to its first part. */
  lemma HasSpaceFirst(c: char, s: string, k: string)
    requires IsSpace(c)
    ensures Has([c] + s, k) <==> Has(s, k)
  {
    assert ([c] + s)[1..] == s;
    var parts := Split(s);
    CleanSpaceFirst(c, parts[0]);
    var more := Split([c] + s);
    assert more == [[c] + parts[0]] + parts[1..];
    hide Clean, Split, IsSpace;
    assert parts == [parts[0]] + parts[1..];
    assert more[0] in more && forall p :: p in more <==> p == more[0] || p in parts[1..];
    assert parts[0] in parts && forall p :: p in parts <==> p == parts[0] || p in parts[1..];
  }

  lemma {:induction false} TrimLeftExtended(p: string, c: char)
    requires IsSpace(c)
    ensures TrimLeft(p + [c]) == if TrimLeft(p) == "" then "" else TrimLeft(p) + [c]
  {
    if p == "" {
      assert (p + [c])[1..] == "" && p + [c] == [c];
    } else if IsSpace(p[0]) {
      assert (p + [c])[1..] == p[1..] + [c];
      TrimLeftExtended(p[1..], c);
    }
  }

  lemma CleanSpaceLast(p: string, c: char)
    requires IsSpace(c)
    ensures Clean(p + [c]) == Clean(p)
  {
    TrimLeftExtended(p, c);
    var t := TrimLeft(p) + [c];
    assert t[..|t| - 1] == TrimLeft(p);
  }

  lemma {:induction false} SplitExtended(s: string, c: char)
    requires c != ','
    ensures var parts := Split(s); Split(s + [c]) == parts[..|parts| - 1] + [parts[|parts| - 1] + [c]]
  {
    if s == "" {
      assert s + [c] == [c] && [c][1..] == "" && [c] + "" == "" + [c];
    } else {
      assert (s + [c])[1..] == s[1..] + [c];
      SplitExtended(s[1..], c);
      var rest := Split(s[1..]);
      var init, last := rest[..|rest| - 1], rest[|rest| - 1];
      assert rest == init + [last];
      if init != [] {
        PushInFront(s[0], init, [last]);
        PushInFront(s[0], init, [last + [c]]);
      } else if s[0] != ',' {
        assert [s[0]] + (last + [c]) == [s[0]] + last + [c];
      }
    }
  }

  /** White space behind a text belongs to its last part. */
  lemma HasSpaceLast(s: string, c: char, k: string)
    requires IsSpace(c)
    ensures Has(s + [c], k) <==> Has(s, k)
  {
    SplitExtended(s, c);
    var parts, more := Split(s), Split(s + [c]);
    var rest, last := parts[..|parts| - 1], parts[|parts| - 1];
    CleanSpaceLast(last, c);
    hide Clean, Split, IsSpace;
    assert parts == rest + [last];
    assert more[|more| - 1] in more && forall p :: p in more <==> p in rest || p == last + [c];
    assert last in parts && forall p :: p in parts <==> p in rest || p == last;
  }

  lemma {:induction false} HasTrimLeft(s: string, k: string)
    ensures Has(TrimLeft(s), k) <==> Has(s, k)
  {
    if s != "" && IsSpace(s[0]) {
      assert s == [s[0]] + s[1..];
      HasTrimLeft(s[1..], k);
      HasSpaceFirst(s[0], s[1..], k);
      hide Has;
    }
  }

  lemma {:induction false} HasTrimRight(s: string, k: string)
    ensures Has(TrimRight(s), k) <==> Has(s, k)
  {
    if s != "" && IsSpace(s[|s| - 1]) {
      assert s == s[..|s| - 1] + [s[|s| - 1]];
      HasTrimRight(s[..|s| - 1], k);
      HasSpaceLast(s[..|s| - 1], s[|s| - 1], k);
      hide Has;
    }
  }

  /** What replaces the token holds exactly the keywords of the inserted text. */
  lemma HasReplacement(keyword: string, space: string, k: string)
    requires space == "" || space == " "
    ensures Has(space + Clean(keyword), k) <==> Has(keyword, k)
  {
    hide Has;
    HasTrimLeft(keyword, k);
    HasTrimRight(TrimLeft(keyword), k);
    HasLower(Trim(keyword), k);
    HasSpaceFirst(' ', Clean(keyword), k);
    assert "" + Clean(keyword) == Clean(keyword);
  }

  lemma EditedParts(value: string, t: Token, replacement: string, k: string)
    requires t.start <= t.end <= |value| && (t.start > 0 ==> value[t.start - 1] == ',') && (t.end < |value| ==> value[t.end] == ',')
    ensures Has(Edited(value, t, replacement), k) <==>
              (t.start > 0 && Has(value[..t.start - 1], k)) || Has(replacement, k) || (t.end < |value| && Has(value[t.end + 1..], k))
  {
    hide Has;
    var tail := if t.end < |value| then value[t.end + 1..] else " ";
    var text := Edited(value, t, replacement);
    if t.start > 0 {
      var head := value[..t.start - 1];
      assert text == head + "," + (replacement + "," + tail);
      HasParts(head, replacement + "," + tail, k);
    } else {
      assert text == replacement + "," + tail;
    }
    HasParts(replacement, tail, k);
    HasSpace(k);
  }

  /**
   Inserting a keyword replaces exactly the entry under the caret: the keywords of the edited text are those of the other
   entries and those of the inserted text.
   */
  lemma InsertReplacesTheToken(value: string, caret: int, keyword: string, k: string)
    ensures k in Parse(InsertReleaseKeyword(value, caret, keyword).value) <==>
              k in ReleaseKeywordToken(value, caret).selected || k in Parse(keyword)
  {
    hide Has, Clean, Parse, ReleaseKeywordToken, Lower;
    var t := ReleaseKeywordToken(value, caret);
    var space := if t.start > 0 then " " else "";
    var text := Edited(value, t, space + Clean(keyword));
    ParseHas(Lower(text), k);
    HasLower(text, k);
    Around(value, caret, k);
    EditedParts(value, t, space + Clean(keyword), k);
    HasReplacement(keyword, space, k);
    ParseHas(keyword, k);
    assert InsertReleaseKeyword(value, caret, keyword).value == Lower(text);
  }

  /** The caret ends up behind what was inserted, and behind the separator that a last entry gets. */
  lemma CaretFollowsTheKeyword(value: string, caret: int, keyword: string)
    ensures var t, e := ReleaseKeywordToken(value, caret), InsertReleaseKeyword(value, caret, keyword);
            var inserted := (if t.start > 0 then " " else "") + Clean(keyword) + if t.end == |value| then ", " else "";
            e.caret == t.start + |inserted| <= |e.value| && e.value[..e.caret] == Lower(value[..t.start] + inserted) &&
            e.value[e.caret..] == Lower(value[t.end..])
  {
    hide Clean, ReleaseKeywordToken;
    var t, e := ReleaseKeywordToken(value, caret), InsertReleaseKeyword(value, caret, keyword);
    var inserted := (if t.start > 0 then " " else "") + Clean(keyword) + if t.end == |value| then ", " else "";
    assert Edited(value, t, (if t.start > 0 then " " else "") + Clean(keyword)) == value[..t.start] + inserted + value[t.end..];
    LowerParted(value[..t.start] + inserted, value[t.end..]);
    hide Lower, Edited;
  }

  lemma LowerParted(x: string, y: string)
    ensures Lower(x + y)[..|x|] == Lower(x) && Lower(x + y)[|x|..] == Lower(y)
  {
  }

  lemma HasSpace(k: string)
    ensures !Has(" ", k)
  {
    SplitWhole(" ");
    assert Trim(" ") == "";
  }
}

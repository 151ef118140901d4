/**
 The bounded log of one monitor check (backend/internal/monitor/decision.go): every outcome is counted, but only the 50 most
 important details are kept.
 */
module DecisionLog {

  /** In order of importance. */
  const OUTCOMES: seq<string> := [
    "grabbed", "error", "indexer_error", "no_indexers", "partial_indexer_failure", "blocked", "profile_rejected", "no_results",
    "no_match", "missing_metadata", "active_download", "already_present", "unaired", "disabled", "no_eligible_targets",
    "search_results"]

  const MAX_DETAILS: nat := 50

  datatype Detail = Detail(outcome: string, explanation: string)

  function Priority(outcome: string): nat { PriorityFrom(outcome, OUTCOMES) }

  function PriorityFrom(outcome: string, outcomes: seq<string>): nat {
    if outcomes == [] || outcomes[0] == outcome then 0 else 1 + PriorityFrom(outcome, outcomes[1..])
  }

  /** The earlier in the list the more important; an unknown outcome comes last. */
  lemma PriorityExactly(outcome: string)
    ensures forall i :: 0 <= i < 16 && OUTCOMES[i] == outcome && (forall j :: 0 <= j < i ==> OUTCOMES[j] != outcome) ==>
              Priority(outcome) == i
    ensures outcome !in OUTCOMES ==> Priority(outcome) == 16
  {
    assert |OUTCOMES| == 16;
    hide *;
    PriorityIsFirst(outcome, OUTCOMES);
    PriorityIs(outcome);
  }

  lemma PriorityIs(outcome: string)
    ensures Priority(outcome) == PriorityFrom(outcome, OUTCOMES)
  {
  }

  lemma {:induction false} PriorityIsFirst(outcome: string, outcomes: seq<string>)
    ensures PriorityFrom(outcome, outcomes) <= |outcomes|
    ensures forall j :: 0 <= j < PriorityFrom(outcome, outcomes) ==> outcomes[j] != outcome
    ensures PriorityFrom(outcome, outcomes) < |outcomes| ==> outcomes[PriorityFrom(outcome, outcomes)] == outcome
  {
    if outcomes != [] { PriorityIsFirst(outcome, outcomes[1..]); }
  }

  method DecisionPriority(outcome: string) returns (p: nat)
    ensures p == Priority(outcome)
  {
    var outcomes := OUTCOMES;
    p := PriorityIn(outcome, outcomes);
  }

  method PriorityIn(outcome: string, outcomes: seq<string>) returns (p: nat)
    ensures p == PriorityFrom(outcome, outcomes)
  {
    for i := 0 to |outcomes|
      invariant PriorityFrom(outcome, outcomes) == i + PriorityFrom(outcome, outcomes[i..])
    {
      if outcomes[i] == outcome { return i; }
    }
    return |outcomes|;
  }

  function Occurrences(seen: seq<Detail>, outcome: string): nat {
    if seen == [] then 0
    else Occurrences(seen[..|seen| - 1], outcome) + if seen[|seen| - 1].outcome == outcome then 1 else 0
  }

  /** The count of an outcome is the number of details with it. */
  lemma {:induction false} OccurrencesExactly(seen: seq<Detail>, outcome: string)
    ensures Occurrences(seen, outcome) == |set i | 0 <= i < |seen| && seen[i].outcome == outcome|
  {
    if seen != [] {
      OccurrencesExactly(seen[..|seen| - 1], outcome);
      OneMorePlace(seen, seen[..|seen| - 1], outcome);
    }
  }

  lemma OneMorePlace(seen: seq<Detail>, before: seq<Detail>, outcome: string)
    requires seen != [] && before == seen[..|seen| - 1]
    ensures |set i | 0 <= i < |seen| && seen[i].outcome == outcome| ==
            |set i | 0 <= i < |before| && before[i].outcome == outcome| + if seen[|seen| - 1].outcome == outcome then 1 else 0
  {
    var n := |before|;
    var earlier, now := set i | 0 <= i < n && before[i].outcome == outcome, set i | 0 <= i < |seen| && seen[i].outcome == outcome;
    assert now == earlier + if seen[n].outcome == outcome then {n} else {};
  }

  function CountOf(counts: map<string, nat>, outcome: string): nat { if outcome in counts then counts[outcome] else 0 }

  /** Kept and dropped details are all there ever were, and nothing dropped is more important than anything kept. */
  ghost predicate Accounts(seen: seq<Detail>, kept: seq<Detail>, dropped: multiset<Detail>) {
    multiset(seen) == multiset(kept) + dropped && (|seen| <= 50 ==> kept == seen) && (|seen| > 50 ==> |kept| == 50) &&
    forall d, k :: d in dropped && k in kept ==> Priority(k.outcome) <= Priority(d.outcome)
  }

  class DecisionCheck {
    var details: seq<Detail>
    var truncated: bool
    var counts: map<string, nat>
    ghost var seen: seq<Detail>
    ghost var dropped: multiset<Detail>

    ghost predicate Valid()
      reads this
    {
      Accounts(seen, details, dropped) && (truncated <==> |seen| > 50) &&
      forall o :: CountOf(counts, o) == Occurrences(seen, o)
    }

    constructor ()
      ensures Valid() && seen == []
    {
      details, truncated, counts, seen, dropped := [], false, map[], [], multiset{};
    }

    /** The position to overwrite: the last of the least important details that are less important than the new one. */
    method Worst(priority: nat) returns (worst: int)
      ensures -1 <= worst < |details|
      ensures worst < 0 ==> forall k :: k in details ==> Priority(k.outcome) <= priority
      ensures worst >= 0 ==> priority < Priority(details[worst].outcome)
      ensures worst >= 0 ==> forall k :: k in details ==> Priority(k.outcome) <= Priority(details[worst].outcome)
    {
      hide Priority;
      worst := -1;
      var worstPriority := priority;
      for i := 0 to |details|
        invariant -1 <= worst < i && priority <= worstPriority
        invariant worst < 0 ==> worstPriority == priority
        invariant worst >= 0 ==> worstPriority == Priority(details[worst].outcome) > priority
        invariant forall j :: 0 <= j < i ==> Priority(details[j].outcome) <= worstPriority
      {
        var p := DecisionPriority(details[i].outcome);
        if p > priority && p >= worstPriority { worst, worstPriority := i, p; }
      }
    }

    method Add(d: Detail)
      requires Valid()
      modifies this
      ensures Valid() && seen == old(seen) + [d]
    {
      hide Priority, Accounts, Occurrences, CountOf;
      CountStep(seen, d);
      AddCounts(d);
      if |details| < MAX_DETAILS {
        KeepStep(seen, details, dropped, d);
        details, seen := details + [d], seen + [d];
        return;
      }
      truncated := true;
      var priority := DecisionPriority(d.outcome);
      var worst := Worst(priority);
      if worst >= 0 {
        ReplaceStep(seen, details, dropped, d, worst);
        dropped := dropped + multiset{details[worst]};
        details := details[worst := d];
      } else {
        DropStep(seen, details, dropped, d);
        dropped := dropped + multiset{d};
      }
      seen := seen + [d];
    }

    method AddCounts(d: Detail)
      modifies this`counts
      ensures forall o :: CountOf(counts, o) == CountOf(old(counts), o) + if o == d.outcome then 1 else 0
    {
      counts := counts[d.outcome := CountOf(counts, d.outcome) + 1];
    }
  }

  lemma CountStep(seen: seq<Detail>, d: Detail)
    ensures forall o :: Occurrences(seen + [d], o) == Occurrences(seen, o) + if o == d.outcome then 1 else 0
  {
    assert (seen + [d])[..|seen|] == seen;
  }

  lemma Sizes(seen: seq<Detail>, kept: seq<Detail>, dropped: multiset<Detail>)
    requires Accounts(seen, kept, dropped)
    ensures |seen| == |kept| + |dropped|
  {
    assert |multiset(seen)| == |seen| && |multiset(kept)| == |kept|;
  }

  lemma KeepStep(seen: seq<Detail>, kept: seq<Detail>, dropped: multiset<Detail>, d: Detail)
    requires Accounts(seen, kept, dropped) && |kept| < MAX_DETAILS
    ensures |seen| < MAX_DETAILS && Accounts(seen + [d], kept + [d], dropped)
  {
    Sizes(seen, kept, dropped);
    assert dropped == multiset{};
  }

  lemma ReplaceStep(seen: seq<Detail>, kept: seq<Detail>, dropped: multiset<Detail>, d: Detail, worst: nat)
    requires Accounts(seen, kept, dropped) && |kept| >= MAX_DETAILS && worst < |kept|
    requires Priority(d.outcome) < Priority(kept[worst].outcome)
    requires forall k :: k in kept ==> Priority(k.outcome) <= Priority(kept[worst].outcome)
    ensures |seen| >= MAX_DETAILS && Accounts(seen + [d], kept[worst := d], dropped + multiset{kept[worst]})
  {
    hide Priority;
    Sizes(seen, kept, dropped);
    var now := kept[worst := d];
    assert multiset(now) == multiset(kept) - multiset{kept[worst]} + multiset{d};
    assert kept[worst] in multiset(kept);
    forall k | k in now ensures k == d || k in kept {
      var i :| 0 <= i < |now| && now[i] == k;
      assert i == worst || kept[i] == k;
    }
    assert kept[worst] in kept;
  }

  lemma DropStep(seen: seq<Detail>, kept: seq<Detail>, dropped: multiset<Detail>, d: Detail)
    requires Accounts(seen, kept, dropped) && |kept| >= MAX_DETAILS
    requires forall k :: k in kept ==> Priority(k.outcome) <= Priority(d.outcome)
    ensures |seen| >= MAX_DETAILS && Accounts(seen + [d], kept, dropped + multiset{d})
  {
    hide Priority;
    Sizes(seen, kept, dropped);
  }
}

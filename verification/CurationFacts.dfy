/** What curation promises, proved of the selection in `Curation`. */
module CurationFacts {
  import opened Wrappers
  import opened Json
  import opened Curation
  import Text

  // ----- the ranking is a sorted permutation -----

  lemma RanksTransitive(j: Judge, a: Entry, b: Entry, c: Entry)
    requires RanksBefore(j, a, b) && RanksBefore(j, b, c)
    ensures RanksBefore(j, a, c)
  {
    var s, t, u := j.timeKey(a.example).1, j.timeKey(b.example).1, j.timeKey(c.example).1;
    if Text.Before(s, t) && Text.Before(t, u) {
      Text.BeforeTransitive(s, t, u);
    }
    Text.BeforeTotal(s, t);
    Text.BeforeTotal(t, u);
    Text.BeforeTotal(s, u);
  }

  lemma RanksTotal(j: Judge, a: Entry, b: Entry)
    requires a.index != b.index
    ensures RanksBefore(j, a, b) <==> !RanksBefore(j, b, a)
  {
    Text.BeforeTotal(j.timeKey(a.example).1, j.timeKey(b.example).1);
  }

  ghost predicate DistinctIndices(entries: seq<Entry>) {
    forall m, n :: 0 <= m < n < |entries| ==> entries[m].index != entries[n].index
  }

  ghost predicate IsRanked(j: Judge, ranked: seq<Entry>) {
    forall m, n :: 0 <= m < n < |ranked| ==> RanksBefore(j, ranked[m], ranked[n])
  }

  lemma {:induction false} RankInsertMembers(j: Judge, e: Entry, ranked: seq<Entry>)
    ensures multiset(RankInsert(j, e, ranked)) == multiset(ranked) + multiset{e}
  {
    if ranked != [] && !RanksBefore(j, e, ranked[0]) {
      RankInsertMembers(j, e, ranked[1..]);
      assert ranked == [ranked[0]] + ranked[1..];
    }
  }

  /** Ranking only reorders. */
  lemma {:induction false} RankedIsPermutation(j: Judge, entries: seq<Entry>)
    ensures multiset(Ranked(j, entries)) == multiset(entries)
  {
    if entries != [] {
      RankedIsPermutation(j, entries[1..]);
      RankInsertMembers(j, entries[0], Ranked(j, entries[1..]));
      assert entries == [entries[0]] + entries[1..];
    }
  }

  lemma MembersOfPermutation(s: seq<Entry>, t: seq<Entry>)
    requires multiset(s) == multiset(t)
    ensures forall e :: e in s <==> e in t
    ensures |s| == |t|
  {
    assert |multiset(s)| == |s| && |multiset(t)| == |t|;
    forall e ensures e in s <==> e in t {
      assert e in multiset(s) <==> e in multiset(t);
    }
  }

  lemma RankedPrepend(j: Judge, e: Entry, tail: seq<Entry>)
    requires IsRanked(j, tail) && forall x :: x in tail ==> RanksBefore(j, e, x)
    ensures IsRanked(j, [e] + tail)
  {
    var all := [e] + tail;
    forall m, n | 0 <= m < n < |all| ensures RanksBefore(j, all[m], all[n]) {
      assert all[n] == tail[n - 1] && all[n] in tail;
      if m > 0 {
        assert all[m] == tail[m - 1];
      }
    }
  }

  lemma {:induction false} RankInsertRanks(j: Judge, e: Entry, ranked: seq<Entry>)
    requires IsRanked(j, ranked) && forall x :: x in ranked ==> x.index != e.index
    ensures IsRanked(j, RankInsert(j, e, ranked))
  {
    if ranked == [] {
    } else if RanksBefore(j, e, ranked[0]) {
      forall x | x in ranked ensures RanksBefore(j, e, x) {
        var n :| 0 <= n < |ranked| && ranked[n] == x;
        if n > 0 {
          RanksTransitive(j, e, ranked[0], x);
        }
      }
      RankedPrepend(j, e, ranked);
    } else {
      var first, rest := ranked[0], ranked[1..];
      RankInsertRanks(j, e, rest);
      RankInsertMembers(j, e, rest);
      forall x | x in RankInsert(j, e, rest) ensures RanksBefore(j, first, x) {
        assert x in multiset(rest) + multiset{e};
        if x in rest {
          var n :| 0 <= n < |rest| && rest[n] == x;
          assert x == ranked[n + 1];
        } else {
          RanksTotal(j, e, first);
        }
      }
      RankedPrepend(j, first, RankInsert(j, e, rest));
    }
  }

  /** Entries with distinct indices come out in strict rank order. */
  lemma {:induction false} RankedIsRanked(j: Judge, entries: seq<Entry>)
    requires DistinctIndices(entries)
    ensures IsRanked(j, Ranked(j, entries))
  {
    if entries != [] {
      RankedIsRanked(j, entries[1..]);
      RankedIsPermutation(j, entries[1..]);
      MembersOfPermutation(Ranked(j, entries[1..]), entries[1..]);
      RankInsertRanks(j, entries[0], Ranked(j, entries[1..]));
    }
  }

  // ----- eligible entries -----

  lemma {:induction false} EligibleFacts(j: Judge, f: Filters, rows: seq<map<string, Json>>, n: nat)
    requires n <= |rows|
    ensures var es := Eligible(j, f, rows, n);
            forall k :: 0 <= k < |es| ==> es[k].index < n && es[k] == EntryOf(j, rows, es[k].index) && Passes(j, f, es[k])
    ensures |Eligible(j, f, rows, n)| <= n
  {
    if n > 0 {
      EligibleFacts(j, f, rows, n - 1);
    }
  }

  lemma {:induction false} EligibleInOrder(j: Judge, f: Filters, rows: seq<map<string, Json>>, n: nat)
    requires n <= |rows|
    ensures IndexSorted(Eligible(j, f, rows, n))
  {
    if n > 0 {
      EligibleInOrder(j, f, rows, n - 1);
      EligibleFacts(j, f, rows, n - 1);
    }
  }

  /** No row that reaches its minimum score is left out. */
  lemma {:induction false} EligibleHoldsEvery(j: Judge, f: Filters, rows: seq<map<string, Json>>, n: nat, i: nat)
    requires i < n <= |rows| && Passes(j, f, EntryOf(j, rows, i))
    ensures EntryOf(j, rows, i) in Eligible(j, f, rows, n)
  {
    if i < n - 1 {
      EligibleHoldsEvery(j, f, rows, n - 1, i);
    }
  }

  // ----- kept entries -----

  lemma {:induction false} KeptIsPrefix(c: Caps, ranked: seq<Entry>, m: nat, n: nat)
    requires m <= n <= |ranked|
    ensures KeptAfter(c, ranked, m) <= KeptAfter(c, ranked, n)
  {
    if m < n {
      KeptIsPrefix(c, ranked, m, n - 1);
    }
  }

  lemma {:induction false} CountsGrow(s: seq<Entry>, t: seq<Entry>, p: string)
    requires s <= t
    ensures CountConversation(s) <= CountConversation(t) && CountFingerprint(s, p) <= CountFingerprint(t, p)
    decreases |t|
  {
    if |s| < |t| {
      CountsGrow(s, t[..|t| - 1], p);
    } else {
      assert s == t;
    }
  }

  /** Every kept entry was admitted at its turn; so it is ranked, and no cap was full when it was kept. */
  lemma {:induction false} KeptWereAdmitted(c: Caps, ranked: seq<Entry>, n: nat, k: nat) returns (at: nat)
    requires n <= |ranked| && k < |KeptAfter(c, ranked, n)|
    ensures at < n && KeptAfter(c, ranked, n)[k] == ranked[at] && ChoiceAt(c, ranked, at) == Admitted
    ensures KeptAfter(c, ranked, at) == KeptAfter(c, ranked, n)[..k]
  {
    var before := KeptAfter(c, ranked, n - 1);
    if k < |before| {
      at := KeptWereAdmitted(c, ranked, n - 1, k);
      assert KeptAfter(c, ranked, n)[..k] == before[..k];
    } else {
      at := n - 1;
      assert KeptAfter(c, ranked, n)[..k] == before;
    }
  }

  /** The size cap holds of what is kept. */
  lemma {:induction false} SizeCapHolds(c: Caps, ranked: seq<Entry>, n: nat)
    requires n <= |ranked| && c.maxKept.Some? && c.maxKept.value >= 0
    ensures |KeptAfter(c, ranked, n)| <= c.maxKept.value
  {
    if n > 0 {
      SizeCapHolds(c, ranked, n - 1);
    }
  }

  /** The conversation cap holds of what is kept. */
  lemma {:induction false} ConversationCapHolds(c: Caps, ranked: seq<Entry>, n: nat)
    requires n <= |ranked| && c.conversation.Some? && c.conversation.value >= 0
    ensures CountConversation(KeptAfter(c, ranked, n)) <= c.conversation.value
  {
    if n > 0 {
      ConversationCapHolds(c, ranked, n - 1);
      CountsAppend(KeptAfter(c, ranked, n - 1), ranked[n - 1], "");
    }
  }

  /** The duplicate caps hold of what is kept: a kept entry with a fingerprint has, among the entries kept before it in
      rank, fewer of its fingerprint than its source is allowed. */
  lemma DuplicateCapHolds(c: Caps, ranked: seq<Entry>, k: nat)
    requires k < |KeptAfter(c, ranked, |ranked|)|
    ensures var kept := KeptAfter(c, ranked, |ranked|);
            kept[k].fingerprint != "" ==> CountFingerprint(kept[..k], kept[k].fingerprint) < Allowed(c, kept[k])
  {
    var at := KeptWereAdmitted(c, ranked, |ranked|, k);
  }

  /** The last kept entry of a fingerprint bounds them all. */
  lemma {:induction false} KeptOfFingerprint(c: Caps, ranked: seq<Entry>, n: nat, p: string)
    requires n <= |ranked| && p != "" && CountFingerprint(KeptAfter(c, ranked, n), p) > 0
    ensures exists e :: e in KeptAfter(c, ranked, n) && e.fingerprint == p && CountFingerprint(KeptAfter(c, ranked, n), p) <= Allowed(c, e)
  {
    var before, kept := KeptAfter(c, ranked, n - 1), KeptAfter(c, ranked, n);
    if ChoiceAt(c, ranked, n - 1) == Admitted {
      CountsAppend(before, ranked[n - 1], p);
      assert kept == before + [ranked[n - 1]];
      if ranked[n - 1].fingerprint == p {
        assert ranked[n - 1] in kept;
      } else {
        KeptOfFingerprint(c, ranked, n - 1, p);
        var e :| e in before && e.fingerprint == p && CountFingerprint(before, p) <= Allowed(c, e);
        assert e in kept;
      }
    } else {
      KeptOfFingerprint(c, ranked, n - 1, p);
    }
  }

  /** Without a size cap the selection is maximal: every ranked entry that was not admitted would break a cap if it were
      added to the final selection, and if its source cap is not the reason, then already the kept entries ranked
      before it fill the duplicate cap of its fingerprint. */
  lemma SelectionIsMaximal(c: Caps, ranked: seq<Entry>, n: nat)
    requires c.maxKept == None && n < |ranked| && ChoiceAt(c, ranked, n) != Admitted
    ensures var kept := KeptAfter(c, ranked, |ranked|);
            && (SourceFull(c, kept, ranked[n]) || DuplicatesFull(c, kept, ranked[n]))
            && (ChoiceAt(c, ranked, n) == DuplicateDropped ==>
                  ranked[n].fingerprint != ""
                  && CountFingerprint(KeptAfter(c, ranked, n), ranked[n].fingerprint) >= Allowed(c, ranked[n]))
  {
    KeptIsPrefix(c, ranked, n, |ranked|);
    CountsGrow(KeptAfter(c, ranked, n), KeptAfter(c, ranked, |ranked|), ranked[n].fingerprint);
  }

  /** Kept and dropped entries add up: each ranked entry meets exactly one fate, and only a size cap stops the loop. */
  lemma {:induction false} TalliesAddUp(c: Caps, ranked: seq<Entry>, n: nat)
    requires n <= |ranked|
    ensures Tally(c, ranked, n, Admitted) == |KeptAfter(c, ranked, n)|
    ensures Tally(c, ranked, n, Admitted) + Tally(c, ranked, n, SourceDropped)
          + Tally(c, ranked, n, DuplicateDropped) + Tally(c, ranked, n, Stopped) == n
    ensures c.maxKept == None ==> Tally(c, ranked, n, Stopped) == 0
  {
    if n > 0 {
      TalliesAddUp(c, ranked, n - 1);
    }
  }

  // ----- the selection, characterised -----

  /** The entries of the first `n` ranked ones that `chosen` holds. */
  function Among(ranked: seq<Entry>, chosen: set<Entry>, n: nat): seq<Entry>
    requires n <= |ranked|
  {
    if n == 0 then [] else Among(ranked, chosen, n - 1) + (if ranked[n - 1] in chosen then [ranked[n - 1]] else [])
  }

  /** `chosen` takes each ranked entry exactly when the chosen ones ranked before it leave it room under every cap. */
  ghost predicate IsGreedy(c: Caps, ranked: seq<Entry>, chosen: set<Entry>) {
    forall n :: 0 <= n < |ranked| ==> (ranked[n] in chosen <==> Choose(c, Among(ranked, chosen, n), ranked[n]) == Admitted)
  }

  lemma {:induction false} KeptMembers(c: Caps, ranked: seq<Entry>, n: nat, e: Entry)
    requires n <= |ranked| && e in KeptAfter(c, ranked, n)
    ensures exists m :: 0 <= m < n && ranked[m] == e && ChoiceAt(c, ranked, m) == Admitted
  {
    if e !in KeptAfter(c, ranked, n - 1) {
      assert ranked[n - 1] == e;
    } else {
      KeptMembers(c, ranked, n - 1, e);
    }
  }

  lemma KeptIff(c: Caps, ranked: seq<Entry>, n: nat)
    requires n < |ranked| && DistinctIndices(ranked)
    ensures ranked[n] in KeptAfter(c, ranked, |ranked|) <==> ChoiceAt(c, ranked, n) == Admitted
  {
    if ranked[n] in KeptAfter(c, ranked, |ranked|) {
      KeptMembers(c, ranked, |ranked|, ranked[n]);
      var m :| 0 <= m < |ranked| && ranked[m] == ranked[n] && ChoiceAt(c, ranked, m) == Admitted;
      assert m == n;
    }
    if ChoiceAt(c, ranked, n) == Admitted {
      KeptIsPrefix(c, ranked, n + 1, |ranked|);
      assert ranked[n] in KeptAfter(c, ranked, n + 1);
    }
  }

  lemma {:induction false} AmongKept(c: Caps, ranked: seq<Entry>, chosen: set<Entry>, n: nat)
    requires n <= |ranked| && DistinctIndices(ranked)
    requires chosen == set e | e in KeptAfter(c, ranked, |ranked|)
    ensures Among(ranked, chosen, n) == KeptAfter(c, ranked, n)
  {
    if n > 0 {
      AmongKept(c, ranked, chosen, n - 1);
      KeptIff(c, ranked, n - 1);
    }
  }

  /** The selection is greedy in rank order, and it is the only such selection. */
  lemma SelectionIsTheGreedyOne(c: Caps, ranked: seq<Entry>, chosen: set<Entry>)
    requires DistinctIndices(ranked) && forall e :: e in chosen ==> e in ranked
    ensures IsGreedy(c, ranked, chosen) <==> chosen == set e | e in KeptAfter(c, ranked, |ranked|)
  {
    var kept := set e | e in KeptAfter(c, ranked, |ranked|);
    if chosen == kept {
      forall n | 0 <= n < |ranked| ensures ranked[n] in chosen <==> Choose(c, Among(ranked, chosen, n), ranked[n]) == Admitted {
        AmongKept(c, ranked, chosen, n);
        KeptIff(c, ranked, n);
      }
    }
    if IsGreedy(c, ranked, chosen) {
      forall e ensures e in chosen <==> e in kept {
        if e in kept {
          KeptMembers(c, ranked, |ranked|, e);
        }
        if e in chosen || e in kept {
          var n: nat :| n < |ranked| && ranked[n] == e;
          GreedyAgrees(c, ranked, chosen, n);
          KeptIff(c, ranked, n);
        }
      }
    }
  }

  lemma {:induction false} GreedyAgrees(c: Caps, ranked: seq<Entry>, chosen: set<Entry>, n: nat)
    requires n <= |ranked| && IsGreedy(c, ranked, chosen)
    ensures Among(ranked, chosen, n) == KeptAfter(c, ranked, n)
  {
    if n > 0 {
      GreedyAgrees(c, ranked, chosen, n - 1);
    }
  }

  // ----- the result -----

  ghost predicate IndexSorted(s: seq<Entry>) {
    forall m, n :: 0 <= m < n < |s| ==> s[m].index < s[n].index
  }

  lemma {:induction false} IndexInsertSorts(e: Entry, s: seq<Entry>)
    requires IndexSorted(s) && forall x :: x in s ==> x.index != e.index
    ensures IndexSorted(IndexInsert(e, s))
  {
    if s != [] && !(e.index < s[0].index) {
      IndexInsertSorts(e, s[1..]);
      IndexInsertMembers(e, s[1..]);
      var tail := IndexInsert(e, s[1..]);
      forall x | x in tail ensures s[0].index < x.index {
        if x != e {
          var n :| 0 <= n < |s[1..]| && s[1..][n] == x;
          assert s[n + 1] == x;
        }
      }
      SortedPrepend(s[0], tail);
    } else if s != [] {
      forall x | x in s ensures e.index < x.index {
        var n :| 0 <= n < |s| && s[n] == x;
      }
      SortedPrepend(e, s);
    }
  }

  lemma SortedPrepend(e: Entry, tail: seq<Entry>)
    requires IndexSorted(tail) && forall x :: x in tail ==> e.index < x.index
    ensures IndexSorted([e] + tail)
  {
    var all := [e] + tail;
    forall m, n | 0 <= m < n < |all| ensures all[m].index < all[n].index {
      assert all[n] == tail[n - 1] && all[n] in tail;
      if m > 0 {
        assert all[m] == tail[m - 1];
      }
    }
  }

  lemma {:induction false} ByIndexSorts(kept: seq<Entry>)
    requires DistinctIndices(kept)
    ensures IndexSorted(ByIndex(kept))
  {
    if kept != [] {
      ByIndexSorts(kept[1..]);
      ByIndexMembers(kept[1..]);
      IndexInsertSorts(kept[0], ByIndex(kept[1..]));
    }
  }

  lemma RankedDistinct(j: Judge, f: Filters, rows: seq<map<string, Json>>)
    ensures DistinctIndices(Ranked(j, Eligible(j, f, rows, |rows|)))
  {
    var entries := Eligible(j, f, rows, |rows|);
    EligibleInOrder(j, f, rows, |rows|);
    RankedIsPermutation(j, entries);
    var ranked := Ranked(j, entries);
    forall m, n | 0 <= m < n < |ranked| ensures ranked[m].index != ranked[n].index {
      OncePerIndex(entries, ranked, m, n);
    }
  }

  lemma OncePerIndex(entries: seq<Entry>, ranked: seq<Entry>, m: nat, n: nat)
    requires multiset(ranked) == multiset(entries) && IndexSorted(entries)
    requires m < n < |ranked|
    ensures ranked[m].index != ranked[n].index
  {
    MembersOfPermutation(ranked, entries);
    assert ranked[m] in entries && ranked[n] in entries;
    if ranked[m].index == ranked[n].index {
      SameIndexSameEntry(entries, ranked[m], ranked[n]);
      TwiceInMultiset(ranked, m, n);
      OnceInSorted(entries, ranked[m]);
    }
  }

  lemma SameIndexSameEntry(entries: seq<Entry>, a: Entry, b: Entry)
    requires IndexSorted(entries) && a in entries && b in entries && a.index == b.index
    ensures a == b
  {
    var m :| 0 <= m < |entries| && entries[m] == a;
    var n :| 0 <= n < |entries| && entries[n] == b;
  }

  lemma TwiceInMultiset(s: seq<Entry>, m: nat, n: nat)
    requires m < n < |s| && s[m] == s[n]
    ensures multiset(s)[s[m]] >= 2
  {
    assert s == s[..m] + [s[m]] + s[m + 1..n] + [s[n]] + s[n + 1..];
  }

  lemma {:induction false} OnceInSorted(s: seq<Entry>, e: Entry)
    requires IndexSorted(s)
    ensures multiset(s)[e] <= 1
  {
    if s != [] {
      var init, last := s[..|s| - 1], s[|s| - 1];
      OnceInSorted(init, e);
      assert s == init + [last];
      forall n | 0 <= n < |init| ensures init[n] != last {
        assert s[n].index < last.index;
      }
    }
  }

  /** `rows[at[k]]`, normalised, is the `k`-th curated row, for increasing positions `at` of rows reaching their
      minimum score: the result is a subsequence of the normalised input, in input order. */
  lemma CuratedIsSubsequence(j: Judge, rows: seq<map<string, Json>>, f: Filters, maxExamples: Option<int>) returns (at: seq<nat>)
    ensures var entries := Eligible(j, f, rows, |rows|);
            var caps, ranked := CapsFor(f, entries, maxExamples), Ranked(j, entries);
            var curated := Examples(ByIndex(KeptAfter(caps, ranked, |ranked|)));
            && |at| == |curated| && Increasing(at)
            && forall k :: 0 <= k < |at| ==>
                && at[k] < |rows| && curated[k] == j.normalize(rows[at[k]])
                && Passes(j, f, EntryOf(j, rows, at[k]))
  {
    var entries := Eligible(j, f, rows, |rows|);
    var caps, ranked := CapsFor(f, entries, maxExamples), Ranked(j, entries);
    var kept := KeptAfter(caps, ranked, |ranked|);
    KeptDistinct(j, f, rows, caps);
    ByIndexSorts(kept);
    ByIndexMembers(kept);
    var sorted := ByIndex(kept);
    at := seq(|sorted|, k requires 0 <= k < |sorted| => sorted[k].index);
    forall k | 0 <= k < |at|
      ensures at[k] < |rows| && Examples(sorted)[k] == j.normalize(rows[at[k]]) && Passes(j, f, EntryOf(j, rows, at[k]))
    {
      assert sorted[k] in kept;
      KeptMembers(caps, ranked, |ranked|, sorted[k]);
      RankedIsEligible(j, f, rows, sorted[k]);
    }
  }

  lemma RankedIsEligible(j: Judge, f: Filters, rows: seq<map<string, Json>>, e: Entry)
    requires e in Ranked(j, Eligible(j, f, rows, |rows|))
    ensures e.index < |rows| && e == EntryOf(j, rows, e.index) && Passes(j, f, e)
  {
    EligibleFacts(j, f, rows, |rows|);
    RankedIsPermutation(j, Eligible(j, f, rows, |rows|));
    MembersOfPermutation(Ranked(j, Eligible(j, f, rows, |rows|)), Eligible(j, f, rows, |rows|));
  }

  lemma KeptDistinct(j: Judge, f: Filters, rows: seq<map<string, Json>>, c: Caps)
    ensures var ranked := Ranked(j, Eligible(j, f, rows, |rows|)); DistinctIndices(KeptAfter(c, ranked, |ranked|))
  {
    var ranked := Ranked(j, Eligible(j, f, rows, |rows|));
    var kept := KeptAfter(c, ranked, |ranked|);
    RankedDistinct(j, f, rows);
    forall m, n | 0 <= m < n < |kept| ensures kept[m].index != kept[n].index {
      var a := KeptWereAdmitted(c, ranked, |ranked|, m);
      var b := KeptWereAdmitted(c, ranked, |ranked|, n);
      if b <= a {
        KeptIsPrefix(c, ranked, b, a);
      }
    }
  }

  /** With no size cap, the kept rows and the three drop counters add up to the input. */
  lemma CountsAddUpToInput(j: Judge, rows: seq<map<string, Json>>, f: Filters)
    ensures var entries := Eligible(j, f, rows, |rows|);
            var caps, ranked := CapsFor(f, entries, None), Ranked(j, entries);
            |Examples(ByIndex(KeptAfter(caps, ranked, |ranked|)))| + (|rows| - |entries|)
              + Tally(caps, ranked, |ranked|, SourceDropped) + Tally(caps, ranked, |ranked|, DuplicateDropped) == |rows|
  {
    var entries := Eligible(j, f, rows, |rows|);
    var caps, ranked := CapsFor(f, entries, None), Ranked(j, entries);
    RankedIsPermutation(j, entries);
    MembersOfPermutation(ranked, entries);
    TalliesAddUp(caps, ranked, |ranked|);
    ByIndexMembers(KeptAfter(caps, ranked, |ranked|));
  }

  lemma {:induction false} ConversationsOf(j: Judge, kept: seq<Entry>)
    requires forall e :: e in kept ==> Sourced(e)
    ensures CountSource(Examples(kept), CONVERSATION) == CountConversation(kept)
  {
    if kept != [] {
      var init, last := kept[..|kept| - 1], kept[|kept| - 1];
      ConversationsOf(j, init);
      CountersAppend(j, Examples(init), last.example, CONVERSATION);
      assert Examples(kept) == Examples(init) + [last.example] && last in kept;
    }
  }

  lemma CuratedConversations(j: Judge, f: Filters, rows: seq<map<string, Json>>, c: Caps)
    ensures var ranked := Ranked(j, Eligible(j, f, rows, |rows|));
            CountSource(Examples(ByIndex(KeptAfter(c, ranked, |ranked|))), CONVERSATION) == CountConversation(KeptAfter(c, ranked, |ranked|))
  {
    var ranked := Ranked(j, Eligible(j, f, rows, |rows|));
    var kept := KeptAfter(c, ranked, |ranked|);
    forall e | e in kept ensures Sourced(e) {
      KeptMembers(c, ranked, |ranked|, e);
      RankedIsEligible(j, f, rows, e);
    }
    ConversationsOf(j, kept);
    CountersByIndex(j, kept, CONVERSATION);
  }

  /** The entry's fingerprint is that of its example's output. */
  predicate Printed(j: Judge, e: Entry) {
    e.fingerprint == j.fingerprint(e.example.output)
  }

  function CountPrint(j: Judge, rows: seq<Example>, p: string): nat {
    if rows == [] then 0 else CountPrint(j, rows[1..], p) + One(j.fingerprint(rows[0].output) == p)
  }

  lemma CountPrintCons(j: Judge, e: Entry, kept: seq<Entry>, p: string)
    ensures CountPrint(j, Examples([e] + kept), p) == CountPrint(j, Examples(kept), p) + One(j.fingerprint(e.example.output) == p)
  {
    assert Examples([e] + kept)[0] == e.example && Examples([e] + kept)[1..] == Examples(kept);
  }

  lemma {:induction false} CountPrintInsert(j: Judge, e: Entry, kept: seq<Entry>, p: string)
    ensures CountPrint(j, Examples(IndexInsert(e, kept)), p) == CountPrint(j, Examples(kept), p) + One(j.fingerprint(e.example.output) == p)
  {
    if kept != [] && !(e.index < kept[0].index) {
      CountPrintInsert(j, e, kept[1..], p);
      CountPrintCons(j, kept[0], IndexInsert(e, kept[1..]), p);
      assert kept == [kept[0]] + kept[1..];
      CountPrintCons(j, kept[0], kept[1..], p);
    } else {
      CountPrintCons(j, e, kept, p);
    }
  }

  lemma {:induction false} CountPrintByIndex(j: Judge, kept: seq<Entry>, p: string)
    ensures CountPrint(j, Examples(ByIndex(kept)), p) == CountPrint(j, Examples(kept), p)
  {
    if kept != [] {
      CountPrintByIndex(j, kept[1..], p);
      CountPrintInsert(j, kept[0], ByIndex(kept[1..]), p);
      assert kept == [kept[0]] + kept[1..];
      CountPrintCons(j, kept[0], kept[1..], p);
    }
  }

  lemma {:induction false} CountPrintAppend(j: Judge, kept: seq<Entry>, e: Entry, p: string)
    ensures CountPrint(j, Examples(kept + [e]), p) == CountPrint(j, Examples(kept), p) + One(j.fingerprint(e.example.output) == p)
  {
    if kept == [] {
      assert [] + [e] == [e] + [];
      CountPrintCons(j, e, [], p);
    } else {
      CountPrintAppend(j, kept[1..], e, p);
      assert kept + [e] == [kept[0]] + (kept[1..] + [e]) && kept == [kept[0]] + kept[1..];
      CountPrintCons(j, kept[0], kept[1..] + [e], p);
      CountPrintCons(j, kept[0], kept[1..], p);
    }
  }

  lemma {:induction false} PrintsOf(j: Judge, kept: seq<Entry>, p: string)
    requires forall e :: e in kept ==> Printed(j, e)
    ensures CountPrint(j, Examples(kept), p) == CountFingerprint(kept, p)
  {
    if kept != [] {
      var init, last := kept[..|kept| - 1], kept[|kept| - 1];
      PrintsOf(j, init, p);
      CountPrintAppend(j, init, last, p);
      assert kept == init + [last] && last in kept;
    }
  }

  /** Of one output fingerprint the result holds no more rows than the largest duplicate cap among the sources of those rows
      allows: some kept row of that fingerprint has a source that allows as many. */
  lemma CuratedDuplicatesCapped(j: Judge, rows: seq<map<string, Json>>, f: Filters, maxExamples: Option<int>, p: string)
    requires p != ""
    ensures var entries := Eligible(j, f, rows, |rows|);
            var caps, ranked := CapsFor(f, entries, maxExamples), Ranked(j, entries);
            var kept := KeptAfter(caps, ranked, |ranked|);
            var n := CountPrint(j, Examples(ByIndex(kept)), p);
            n > 0 ==> exists e :: e in kept && e.fingerprint == p && n <= Allowed(caps, e)
  {
    var entries := Eligible(j, f, rows, |rows|);
    var caps, ranked := CapsFor(f, entries, maxExamples), Ranked(j, entries);
    var kept := KeptAfter(caps, ranked, |ranked|);
    forall e | e in kept ensures Printed(j, e) {
      KeptMembers(caps, ranked, |ranked|, e);
      RankedIsEligible(j, f, rows, e);
    }
    CountPrintByIndex(j, kept, p);
    PrintsOf(j, kept, p);
    if CountFingerprint(kept, p) > 0 {
      KeptOfFingerprint(caps, ranked, |ranked|, p);
    }
  }

  /** The caps as configured hold of the result: at most `max_examples` rows (never fewer than one allowed), and, when
      anything but conversation qualified, at most the conversation cap of conversation rows, a cap of two or more. */
  lemma CuratedRespectsCaps(j: Judge, rows: seq<map<string, Json>>, f: Filters, maxExamples: Option<int>)
    ensures var entries := Eligible(j, f, rows, |rows|);
            var caps, ranked := CapsFor(f, entries, maxExamples), Ranked(j, entries);
            var curated := Examples(ByIndex(KeptAfter(caps, ranked, |ranked|)));
            && (maxExamples.Some? ==> |curated| <= Max(1, maxExamples.value))
            && (caps.conversation.Some? <==> exists e :: e in entries && e.source != CONVERSATION)
            && (caps.conversation.Some? ==> caps.conversation.value >= 2 && CountSource(curated, CONVERSATION) <= caps.conversation.value)
            && caps.duplicates >= 1 && caps.duplicatesConversation >= 1
  {
    var entries := Eligible(j, f, rows, |rows|);
    var caps, ranked := CapsFor(f, entries, maxExamples), Ranked(j, entries);
    if maxExamples.Some? {
      SizeCapHolds(caps, ranked, |ranked|);
    }
    if caps.conversation.Some? {
      ConversationCapHolds(caps, ranked, |ranked|);
    }
    ByIndexMembers(KeptAfter(caps, ranked, |ranked|));
    CuratedConversations(j, f, rows, caps);
    if e :| e in entries && e.source != CONVERSATION {
      var i :| 0 <= i < |entries| && entries[i] == e;
    }
  }

  // ----- rank, thresholds and caps, in scores and configured numbers -----

  /** `b` may stand behind `a`: its score is no higher; at equal scores the number of its time key is no lower; at equal numbers
      the text of its time key is not before the other's; and at equal time keys its index is higher. */
  predicate MayFollow(j: Judge, a: Entry, b: Entry) {
    var s, t := j.timeKey(a.example), j.timeKey(b.example);
    && a.score >= b.score
    && (a.score == b.score ==> s.0 <= t.0)
    && (a.score == b.score && s.0 == t.0 ==> !Text.Before(t.1, s.1))
    && (a.score == b.score && s == t ==> a.index < b.index)
  }

  lemma RankedMayFollow(j: Judge, a: Entry, b: Entry)
    requires RanksBefore(j, a, b)
    ensures MayFollow(j, a, b)
  {
    Text.BeforeTotal(j.timeKey(a.example).1, j.timeKey(b.example).1);
  }

  /** The rows that reach their minimum score are ranked by falling score, then by rising time key, then by rising index. */
  lemma RankingFallsInScore(j: Judge, f: Filters, rows: seq<map<string, Json>>, m: nat, n: nat)
    requires m < n < |Ranked(j, Eligible(j, f, rows, |rows|))|
    ensures var ranked := Ranked(j, Eligible(j, f, rows, |rows|)); MayFollow(j, ranked[m], ranked[n])
  {
    var entries := Eligible(j, f, rows, |rows|);
    EligibleInOrder(j, f, rows, |rows|);
    RankedIsRanked(j, entries);
    RankedMayFollow(j, Ranked(j, entries)[m], Ranked(j, entries)[n]);
  }

  lemma {:induction false} FullStaysFull(c: Caps, ranked: seq<Entry>, n: nat, m: nat)
    requires n <= m <= |ranked| && Full(c, KeptAfter(c, ranked, n))
    ensures KeptAfter(c, ranked, m) == KeptAfter(c, ranked, n)
  {
    if n < m {
      FullStaysFull(c, ranked, n, m - 1);
    }
  }

  /** What the size cap leaves out scores no higher than anything kept. */
  lemma SizeCapKeepsTheBest(j: Judge, rows: seq<map<string, Json>>, f: Filters, maxExamples: Option<int>, n: nat, e: Entry)
    requires var ranked := Ranked(j, Eligible(j, f, rows, |rows|));
             n < |ranked| && ChoiceAt(CapsFor(f, Eligible(j, f, rows, |rows|), maxExamples), ranked, n) == Stopped
    requires var ranked := Ranked(j, Eligible(j, f, rows, |rows|));
             e in KeptAfter(CapsFor(f, Eligible(j, f, rows, |rows|), maxExamples), ranked, |ranked|)
    ensures Ranked(j, Eligible(j, f, rows, |rows|))[n].score <= e.score
  {
    var ranked := Ranked(j, Eligible(j, f, rows, |rows|));
    var caps := CapsFor(f, Eligible(j, f, rows, |rows|), maxExamples);
    FullStaysFull(caps, ranked, n, |ranked|);
    KeptMembers(caps, ranked, n, e);
    var m: nat :| m < n && ranked[m] == e;
    RankingFallsInScore(j, f, rows, m, n);
  }

  /** A row is ranked exactly if it scores at least its minimum: 0.38 for conversation and 0.34 for anything else, unless
      configured otherwise. */
  lemma RankedIffScoresEnough(j: Judge, f: Filters, rows: seq<map<string, Json>>, i: nat)
    requires i < |rows|
    ensures var example := j.normalize(rows[i]);
            var minimum := if j.plainSource(example.source) == "conversation"
                           then (if f.minSignalConversation in {None, Some(0.0)} then 0.38 else f.minSignalConversation.value)
                           else (if f.minSignal in {None, Some(0.0)} then 0.34 else f.minSignal.value);
            (exists e :: e in Ranked(j, Eligible(j, f, rows, |rows|)) && e.index == i) <==> j.score(example) >= minimum
  {
    var entries := Eligible(j, f, rows, |rows|);
    RankedMembers(j, entries);
    EligibleFacts(j, f, rows, |rows|);
    if Passes(j, f, EntryOf(j, rows, i)) {
      EligibleHoldsEvery(j, f, rows, |rows|, i);
      assert EntryOf(j, rows, i) in Ranked(j, entries);
    }
    if e :| e in Ranked(j, entries) && e.index == i {
      var k :| 0 <= k < |entries| && entries[k] == e;
    }
  }

  lemma WholePartAtLeastTwo(most: real)
    ensures if most < 3.0 then Max(2, Trunc(most)) == 2 else Max(2, Trunc(most)) as real <= most < (Max(2, Trunc(most)) + 1) as real
  {
  }

  /** There is a conversation cap only when something else was scored. */
  lemma ConversationCapIff(f: Filters, scored: seq<Entry>, maxExamples: Option<int>)
    ensures CapsFor(f, scored, maxExamples).conversation.Some? <==> exists e :: e in scored && e.source != "conversation"
  {
    if e :| e in scored && e.source != "conversation" {
      var i :| 0 <= i < |scored| && scored[i] == e;
    }
  }

  /** The conversation cap in configured numbers: the whole part of the configured share (0.55) of `max_examples` rows, or of
      all scored ones, and at least 2. */
  lemma ConversationCapAsConfigured(f: Filters, scored: seq<Entry>, maxExamples: Option<int>, size: int, share: real, most: real)
    requires CapsFor(f, scored, maxExamples).conversation.Some?
    requires size == if maxExamples.Some? && maxExamples.value != 0 then maxExamples.value else |scored|
    requires share == if f.maxConversationShare == None || f.maxConversationShare.value == 0.0 then 0.55 else f.maxConversationShare.value
    requires most == (if size < 1 then 1 else size) as real * share
    ensures var cap := CapsFor(f, scored, maxExamples).conversation.value;
            if most < 3.0 then cap == 2 else cap as real <= most < (cap + 1) as real
  {
    assert share == OrReal(f.maxConversationShare, 0.55);
    assert CapsFor(f, scored, maxExamples).conversation.value == Max(2, Trunc(most));
    WholePartAtLeastTwo(most);
  }

  /** The other caps in configured numbers: `max_examples`, at least 1, and the duplicate caps as configured (2, and 1 for
      conversation), at least 1. */
  lemma CapsAsConfigured(f: Filters, scored: seq<Entry>, maxExamples: Option<int>, e: Entry)
    ensures var c := CapsFor(f, scored, maxExamples);
            var configured := if e.source == "conversation" then f.duplicateCapConversation else f.duplicateCap;
            && (c.maxKept.Some? <==> maxExamples.Some?)
            && (maxExamples.Some? ==> c.maxKept.value == if maxExamples.value < 1 then 1 else maxExamples.value)
            && Allowed(c, e) == if configured == None || configured.value == 0 then (if e.source == "conversation" then 1 else 2)
                                else if configured.value < 1 then 1 else configured.value
  {
  }

  // ----- the selection and its counters, in numbers of rows -----

  /** The ranks with that choice. */
  ghost function Chosen(c: Caps, ranked: seq<Entry>, choice: Choice): set<nat> {
    set m | 0 <= m < |ranked| && ChoiceAt(c, ranked, m) == choice
  }

  ghost function Below(ranks: set<nat>, n: nat): set<nat> {
    set m | m in ranks && m < n
  }

  ghost function Conversations(ranked: seq<Entry>, ranks: set<nat>): set<nat> {
    set m | m in ranks && m < |ranked| && ranked[m].source == "conversation"
  }

  ghost function Saying(ranked: seq<Entry>, ranks: set<nat>, fingerprint: string): set<nat> {
    set m | m in ranks && m < |ranked| && ranked[m].fingerprint == fingerprint
  }

  lemma BelowNext(ranks: set<nat>, n: nat)
    ensures |Below(ranks, n + 1)| == |Below(ranks, n)| + One(n in ranks)
  {
    assert Below(ranks, n + 1) == Below(ranks, n) + if n in ranks then {n} else {};
  }

  /** `kept` holds as many rows, conversations and rows of the fingerprint as there are such ranks below `n`. */
  ghost predicate CountsBelow(kept: seq<Entry>, ranked: seq<Entry>, taken: set<nat>, n: nat, fingerprint: string) {
    && |kept| == |Below(taken, n)|
    && CountConversation(kept) == |Below(Conversations(ranked, taken), n)|
    && CountFingerprint(kept, fingerprint) == |Below(Saying(ranked, taken, fingerprint), n)|
  }

  lemma CountsNext(kept: seq<Entry>, ranked: seq<Entry>, taken: set<nat>, n: nat, fingerprint: string)
    requires n < |ranked| && CountsBelow(kept, ranked, taken, n, fingerprint)
    ensures CountsBelow(if n in taken then kept + [ranked[n]] else kept, ranked, taken, n + 1, fingerprint)
  {
    CountsAppend(kept, ranked[n], fingerprint);
    BelowNext(taken, n);
    BelowNext(Conversations(ranked, taken), n);
    BelowNext(Saying(ranked, taken, fingerprint), n);
  }

  lemma {:induction false} KeptCounts(c: Caps, ranked: seq<Entry>, n: nat, fingerprint: string)
    requires n <= |ranked|
    ensures CountsBelow(KeptAfter(c, ranked, n), ranked, Chosen(c, ranked, Admitted), n, fingerprint)
  {
    if n > 0 {
      KeptCounts(c, ranked, n - 1, fingerprint);
      CountsNext(KeptAfter(c, ranked, n - 1), ranked, Chosen(c, ranked, Admitted), n - 1, fingerprint);
      assert n - 1 in Chosen(c, ranked, Admitted) <==> ChoiceAt(c, ranked, n - 1) == Admitted;
    }
  }

  /** What becomes of the row at rank `n`, in numbers of the rows taken before it: nothing once as many as the size cap are; a
      conversation row is dropped once the conversation cap is reached; otherwise a row with a fingerprint is dropped once
      as many with that fingerprint as its source is allowed are; otherwise it is taken. */
  lemma ChoiceMeans(c: Caps, ranked: seq<Entry>, n: nat)
    requires n < |ranked|
    ensures var taken, e, choice := Chosen(c, ranked, Admitted), ranked[n], ChoiceAt(c, ranked, n);
            var full := c.maxKept.Some? && |Below(taken, n)| >= c.maxKept.value;
            var talked := e.source == "conversation" && c.conversation.Some?
                          && |Below(Conversations(ranked, taken), n)| >= c.conversation.value;
            var said := e.fingerprint != "" && |Below(Saying(ranked, taken, e.fingerprint), n)| >=
                          if e.source == "conversation" then c.duplicatesConversation else c.duplicates;
            && (choice == Stopped <==> full)
            && (choice == SourceDropped <==> !full && talked)
            && (choice == DuplicateDropped <==> !full && !talked && said)
            && (n in taken <==> !full && !talked && !said)
  {
    KeptCounts(c, ranked, n, ranked[n].fingerprint);
  }

  /** A tally is the number of ranks with that choice. */
  lemma {:induction false} TallyIsSize(c: Caps, ranked: seq<Entry>, n: nat, choice: Choice)
    requires n <= |ranked|
    ensures Tally(c, ranked, n, choice) == |Below(Chosen(c, ranked, choice), n)|
  {
    if n > 0 {
      TallyIsSize(c, ranked, n - 1, choice);
      BelowNext(Chosen(c, ranked, choice), n - 1);
    }
  }

  /** The places of the rows for which `p` holds. */
  ghost function Having(rows: seq<Example>, p: Example -> bool): set<nat> {
    set i | 0 <= i < |rows| && p(rows[i])
  }

  lemma HavingAppend(rows: seq<Example>, e: Example, p: Example -> bool)
    ensures |Having(rows + [e], p)| == |Having(rows, p)| + One(p(e))
  {
    assert Having(rows + [e], p) == Having(rows, p) + if p(e) then {|rows|} else {};
  }

  /** A source is counted by the number of its rows. */
  lemma {:induction false} SourceCount(j: Judge, rows: seq<Example>, source: string)
    ensures CountSource(rows, source) == |Having(rows, (e: Example) => e.source == source)|
  {
    if rows != [] {
      var init, last := rows[..|rows| - 1], rows[|rows| - 1];
      SourceCount(j, init, source);
      CountersAppend(j, init, last, source);
      HavingAppend(init, last, (e: Example) => e.source == source);
      assert rows == init + [last];
    }
  }

  /** The first three counters, in numbers of rows. */
  lemma {:induction false} SignalCounts(j: Judge, rows: seq<Example>)
    ensures var n := CountersOf(j, rows);
            && n.highSignal == |Having(rows, (e: Example) => j.score(e) >= 0.7)|
            && n.archive == |Having(rows, (e: Example) => j.plainValue(Get(e.metadata, "archive_state")) in {"candidate", "approved"})|
            && n.eligible == |Having(rows, (e: Example) => j.plainValue(Get(e.metadata, "eligibility_state")) == "eligible")|
  {
    if rows != [] {
      var init, last := rows[..|rows| - 1], rows[|rows| - 1];
      SignalCounts(j, init);
      CountersAppend(j, init, last, "");
      HavingAppend(init, last, (e: Example) => j.score(e) >= 0.7);
      HavingAppend(init, last, (e: Example) => j.plainValue(Get(e.metadata, "archive_state")) in {"candidate", "approved"});
      HavingAppend(init, last, (e: Example) => j.plainValue(Get(e.metadata, "eligibility_state")) == "eligible");
      assert rows == init + [last];
    }
  }

  /** The other three. */
  lemma {:induction false} ProofCounts(j: Judge, rows: seq<Example>)
    ensures var n := CountersOf(j, rows);
            && n.proofBacked == |Having(rows, (e: Example) => Truthy(Get(e.metadata, "proof_backed"))
                                                              || j.plainValue(Get(e.metadata, "finality_state")) in {"confirmed", "finalized"})|
            && n.finalized == |Having(rows, (e: Example) => j.plainValue(Get(e.metadata, "finality_state")) == "finalized")|
            && n.commons == |Having(rows, (e: Example) => e.source == "hive_post"
                                                          && j.plainValue(Get(e.metadata, "promotion_review_state")) == "approved")|
  {
    if rows != [] {
      var init, last := rows[..|rows| - 1], rows[|rows| - 1];
      ProofCounts(j, init);
      CountersAppend(j, init, last, "");
      HavingAppend(init, last, (e: Example) => Truthy(Get(e.metadata, "proof_backed"))
                                               || j.plainValue(Get(e.metadata, "finality_state")) in {"confirmed", "finalized"});
      HavingAppend(init, last, (e: Example) => j.plainValue(Get(e.metadata, "finality_state")) == "finalized");
      HavingAppend(init, last, (e: Example) => e.source == "hive_post"
                                               && j.plainValue(Get(e.metadata, "promotion_review_state")) == "approved");
      assert rows == init + [last];
    }
  }
}

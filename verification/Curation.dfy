/** Curation of an adaptation corpus: score, rank, select greedily under a source cap and two duplicate caps, and
    restore input order (core/adaptation_dataset.py, `curate_adaptation_rows`). */
module Curation {
  import opened Wrappers
  import opened Json
  import Text

  datatype Example = Example(instruction: string, output: string, source: string, metadata: map<string, Json>)

  /** The given functions: how a loaded row is normalised, its signal score, the fingerprint of an output, the
      timestamp key, the lower-cased, stripped source that the minimum score looks at, and the same of a metadata
      value (`str(value or "").strip().lower()`). */
  datatype Judge = Judge(
    normalize: map<string, Json> -> Example,
    score: Example -> real,
    fingerprint: string -> string,
    timeKey: Example -> (int, string),
    plainSource: string -> string,
    plainValue: Json -> string)

  /** The filters as configured; a missing value, or zero, means the default. */
  datatype Filters = Filters(
    minSignal: Option<real>,
    minSignalConversation: Option<real>,
    maxConversationShare: Option<real>,
    duplicateCap: Option<int>,
    duplicateCapConversation: Option<int>)

  datatype Entry = Entry(index: nat, score: real, example: Example, fingerprint: string, source: string)

  datatype Caps = Caps(maxKept: Option<int>, conversation: Option<int>, duplicates: int, duplicatesConversation: int)

  const CONVERSATION := "conversation"

  function OrReal(v: Option<real>, default: real): real {
    if v == None || v.value == 0.0 then default else v.value
  }

  function OrInt(v: Option<int>, default: int): int {
    if v == None || v.value == 0 then default else v.value
  }

  function MinimumSignal(j: Judge, f: Filters, e: Example): real {
    if j.plainSource(e.source) == CONVERSATION then OrReal(f.minSignalConversation, 0.38) else OrReal(f.minSignal, 0.34)
  }

  // ----- scoring -----

  function EntryOf(j: Judge, rows: seq<map<string, Json>>, i: nat): Entry
    requires i < |rows|
  {
    var e := j.normalize(rows[i]);
    Entry(i, j.score(e), e, j.fingerprint(e.output), e.source)
  }

  predicate Passes(j: Judge, f: Filters, e: Entry) {
    e.score >= MinimumSignal(j, f, e.example)
  }

  /** The entries of the first `n` rows that reach their minimum score, in input order. */
  function Eligible(j: Judge, f: Filters, rows: seq<map<string, Json>>, n: nat): seq<Entry>
    requires n <= |rows|
  {
    if n == 0 then []
    else
      var e := EntryOf(j, rows, n - 1);
      Eligible(j, f, rows, n - 1) + (if Passes(j, f, e) then [e] else [])
  }

  // ----- ranking: by -score, then time key, then index -----

  predicate RanksBefore(j: Judge, a: Entry, b: Entry) {
    var s, t := j.timeKey(a.example), j.timeKey(b.example);
    if a.score != b.score then a.score > b.score
    else if s.0 != t.0 then s.0 < t.0
    else if s.1 != t.1 then Text.Before(s.1, t.1)
    else a.index < b.index
  }

  function RankInsert(j: Judge, e: Entry, ranked: seq<Entry>): seq<Entry> {
    if ranked == [] || RanksBefore(j, e, ranked[0]) then [e] + ranked else [ranked[0]] + RankInsert(j, e, ranked[1..])
  }

  function Ranked(j: Judge, entries: seq<Entry>): seq<Entry> {
    if entries == [] then [] else RankInsert(j, entries[0], Ranked(j, entries[1..]))
  }

  function IndexInsert(e: Entry, kept: seq<Entry>): seq<Entry> {
    if kept == [] || e.index < kept[0].index then [e] + kept else [kept[0]] + IndexInsert(e, kept[1..])
  }

  function ByIndex(kept: seq<Entry>): seq<Entry> {
    if kept == [] then [] else IndexInsert(kept[0], ByIndex(kept[1..]))
  }

  function Examples(kept: seq<Entry>): seq<Example> {
    seq(|kept|, i requires 0 <= i < |kept| => kept[i].example)
  }

  // ----- the caps -----

  function CapsFor(f: Filters, scored: seq<Entry>, maxExamples: Option<int>): Caps {
    var base := if maxExamples == None || maxExamples.value == 0 then |scored| else maxExamples.value;
    var share := OrReal(f.maxConversationShare, 0.55);
    Caps(if maxExamples == None then None else Some(Max(1, maxExamples.value)),
         if exists i :: 0 <= i < |scored| && scored[i].source != CONVERSATION
           then Some(Max(2, Trunc(Max(1, base) as real * share))) else None,
         Max(1, OrInt(f.duplicateCap, 2)),
         Max(1, OrInt(f.duplicateCapConversation, 1)))
  }

  function Allowed(c: Caps, e: Entry): int {
    if e.source == CONVERSATION then c.duplicatesConversation else c.duplicates
  }

  function CountConversation(kept: seq<Entry>): nat {
    if kept == [] then 0
    else CountConversation(kept[..|kept| - 1]) + (if kept[|kept| - 1].source == CONVERSATION then 1 else 0)
  }

  function CountFingerprint(kept: seq<Entry>, fingerprint: string): nat {
    if kept == [] then 0
    else CountFingerprint(kept[..|kept| - 1], fingerprint) + (if kept[|kept| - 1].fingerprint == fingerprint then 1 else 0)
  }

  predicate SourceFull(c: Caps, kept: seq<Entry>, e: Entry) {
    c.conversation.Some? && e.source == CONVERSATION && CountConversation(kept) >= c.conversation.value
  }

  predicate DuplicatesFull(c: Caps, kept: seq<Entry>, e: Entry) {
    e.fingerprint != "" && CountFingerprint(kept, e.fingerprint) >= Allowed(c, e)
  }

  predicate Full(c: Caps, kept: seq<Entry>) {
    c.maxKept.Some? && |kept| >= c.maxKept.value
  }

  datatype Choice = Stopped | SourceDropped | DuplicateDropped | Admitted

  /** What happens to `e` when its turn comes and `kept` are the ones kept so far. */
  function Choose(c: Caps, kept: seq<Entry>, e: Entry): Choice {
    if Full(c, kept) then Stopped
    else if SourceFull(c, kept, e) then SourceDropped
    else if DuplicatesFull(c, kept, e) then DuplicateDropped
    else Admitted
  }

  /** The entries kept among the first `n` ranked ones, in rank order. */
  function KeptAfter(c: Caps, ranked: seq<Entry>, n: nat): seq<Entry>
    requires n <= |ranked|
  {
    if n == 0 then []
    else
      var before := KeptAfter(c, ranked, n - 1);
      if Choose(c, before, ranked[n - 1]) == Admitted then before + [ranked[n - 1]] else before
  }

  function ChoiceAt(c: Caps, ranked: seq<Entry>, n: nat): Choice
    requires n < |ranked|
  {
    Choose(c, KeptAfter(c, ranked, n), ranked[n])
  }

  /** How many of the first `n` ranked entries met with `choice`. */
  function Tally(c: Caps, ranked: seq<Entry>, n: nat, choice: Choice): nat
    requires n <= |ranked|
  {
    if n == 0 then 0 else Tally(c, ranked, n - 1, choice) + (if ChoiceAt(c, ranked, n - 1) == choice then 1 else 0)
  }

  // ----- what is counted of the kept rows -----

  datatype Facts = Facts(highSignal: bool, archive: bool, eligible: bool, proofBacked: bool, finalized: bool, commons: bool)

  datatype Counters = Counters(highSignal: nat, archive: nat, eligible: nat, proofBacked: nat, finalized: nat, commons: nat)

  const NO_COUNTERS := Counters(0, 0, 0, 0, 0, 0)

  function FactsOf(j: Judge, e: Example): Facts {
    var finality := j.plainValue(Get(e.metadata, "finality_state"));
    Facts(j.score(e) >= 0.7,
          j.plainValue(Get(e.metadata, "archive_state")) in {"candidate", "approved"},
          j.plainValue(Get(e.metadata, "eligibility_state")) == "eligible",
          Truthy(Get(e.metadata, "proof_backed")) || finality in {"confirmed", "finalized"},
          finality == "finalized",
          e.source == "hive_post" && j.plainValue(Get(e.metadata, "promotion_review_state")) == "approved")
  }

  function One(b: bool): nat {
    if b then 1 else 0
  }

  function Counted(n: Counters, f: Facts): Counters {
    Counters(n.highSignal + One(f.highSignal), n.archive + One(f.archive), n.eligible + One(f.eligible),
             n.proofBacked + One(f.proofBacked), n.finalized + One(f.finalized), n.commons + One(f.commons))
  }

  /** How many of these rows have each fact. */
  function CountersOf(j: Judge, rows: seq<Example>): Counters {
    if rows == [] then NO_COUNTERS else Counted(CountersOf(j, rows[1..]), FactsOf(j, rows[0]))
  }

  function CountSource(rows: seq<Example>, source: string): nat {
    if rows == [] then 0 else CountSource(rows[1..], source) + One(rows[0].source == source)
  }

  lemma {:induction false} CountersAppend(j: Judge, rows: seq<Example>, e: Example, source: string)
    ensures CountersOf(j, rows + [e]) == Counted(CountersOf(j, rows), FactsOf(j, e))
    ensures CountSource(rows + [e], source) == CountSource(rows, source) + One(e.source == source)
  {
    if rows == [] {
      assert rows + [e] == [e];
    } else {
      assert (rows + [e])[0] == rows[0] && (rows + [e])[1..] == rows[1..] + [e];
      CountersAppend(j, rows[1..], e, source);
    }
  }

  lemma CountersCons(j: Judge, e: Entry, kept: seq<Entry>, source: string)
    ensures CountersOf(j, Examples([e] + kept)) == Counted(CountersOf(j, Examples(kept)), FactsOf(j, e.example))
    ensures CountSource(Examples([e] + kept), source) == CountSource(Examples(kept), source) + One(e.example.source == source)
  {
    assert Examples([e] + kept)[0] == e.example && Examples([e] + kept)[1..] == Examples(kept);
  }

  lemma CountedInAnyOrder(n: Counters, f: Facts, g: Facts)
    ensures Counted(Counted(n, f), g) == Counted(Counted(n, g), f)
  {
  }

  lemma {:induction false} CountersInsert(j: Judge, e: Entry, kept: seq<Entry>, source: string)
    ensures CountersOf(j, Examples(IndexInsert(e, kept))) == Counted(CountersOf(j, Examples(kept)), FactsOf(j, e.example))
    ensures CountSource(Examples(IndexInsert(e, kept)), source) == CountSource(Examples(kept), source) + One(e.example.source == source)
  {
    if kept != [] && !(e.index < kept[0].index) {
      var first, rest := kept[0], kept[1..];
      CountersInsert(j, e, rest, source);
      CountersCons(j, first, IndexInsert(e, rest), source);
      assert kept == [first] + rest;
      CountersCons(j, first, rest, source);
      CountedInAnyOrder(CountersOf(j, Examples(rest)), FactsOf(j, e.example), FactsOf(j, first.example));
    } else {
      CountersCons(j, e, kept, source);
    }
  }

  /** Restoring the input order changes no count. */
  lemma {:induction false} CountersByIndex(j: Judge, kept: seq<Entry>, source: string)
    ensures CountersOf(j, Examples(ByIndex(kept))) == CountersOf(j, Examples(kept))
    ensures CountSource(Examples(ByIndex(kept)), source) == CountSource(Examples(kept), source)
  {
    if kept != [] {
      CountersByIndex(j, kept[1..], source);
      CountersInsert(j, kept[0], ByIndex(kept[1..]), source);
      assert kept == [kept[0]] + kept[1..];
      CountersCons(j, kept[0], kept[1..], source);
    }
  }

  datatype Curated = Curated(rows: seq<Example>, dropped: int, lowSignal: nat, duplicate: nat, sourceCap: nat,
                             sources: map<string, nat>, structuredPresent: bool, conversations: nat, structured: int, counters: Counters)

  function Lookup(counts: map<string, nat>, key: string): nat {
    if key in counts then counts[key] else 0
  }

  /** The map counts the rows of every source, and names only sources that have some. */
  ghost predicate SourcesMatch(rows: seq<Example>, sources: map<string, nat>) {
    forall s :: Lookup(sources, s) == CountSource(rows, s) && (s in sources ==> sources[s] > 0)
  }

  /** The loop's counts for the entries kept so far. */
  ghost predicate CountsMatch(kept: seq<Entry>, sources: map<string, nat>, fingerprints: map<string, nat>) {
    && Lookup(sources, CONVERSATION) == CountConversation(kept)
    && SourcesMatch(Examples(kept), sources)
    && forall p :: p != "" ==> Lookup(fingerprints, p) == CountFingerprint(kept, p)
  }

  predicate Sourced(e: Entry) {
    e.source == e.example.source
  }

  /** Every number returned counts the rows returned, or the rows dropped at one step. */
  method CurateAdaptationRows(j: Judge, rows: seq<map<string, Json>>, f: Filters, maxExamples: Option<int>) returns (r: Curated)
    ensures var entries := Eligible(j, f, rows, |rows|);
            var ranked := Ranked(j, entries);
            var caps := CapsFor(f, entries, maxExamples);
            && r.rows == Examples(ByIndex(KeptAfter(caps, ranked, |ranked|)))
            && r.lowSignal == |rows| - |entries|
            && r.duplicate == Tally(caps, ranked, |ranked|, DuplicateDropped)
            && r.sourceCap == Tally(caps, ranked, |ranked|, SourceDropped)
            && (r.structuredPresent <==> exists i :: 0 <= i < |entries| && entries[i].source != CONVERSATION)
    ensures r.dropped == Max(0, |rows| - |r.rows|)
    ensures SourcesMatch(r.rows, r.sources)
    ensures r.conversations == CountSource(r.rows, CONVERSATION) && r.structured == Max(0, |r.rows| - r.conversations)
    ensures r.counters == CountersOf(j, r.rows)
  {
    if rows == [] {
      return Curated([], 0, 0, 0, 0, map[], false, 0, 0, NO_COUNTERS);
    }
    var scored, lowSignal := ScoreRows(j, rows, f);
    var ranked := Ranked(j, scored);
    var present := exists i :: 0 <= i < |scored| && scored[i].source != CONVERSATION;
    RankedMembers(j, scored);
    EligibleSourced(j, f, rows, |rows|);
    var kept, duplicate, sourceCap, sources, counters := SelectRanked(j, CapsFor(f, scored, maxExamples), ranked);
    var curated := Examples(ByIndex(kept));
    ByIndexMembers(kept);
    forall s ensures CountSource(curated, s) == CountSource(Examples(kept), s) && CountersOf(j, curated) == CountersOf(j, Examples(kept)) {
      CountersByIndex(j, kept, s);
    }
    var conversations := Lookup(sources, CONVERSATION);
    r := Curated(curated, Max(0, |rows| - |curated|), lowSignal, duplicate, sourceCap, sources, present,
                 conversations, Max(0, |curated| - conversations), counters);
  }

  lemma {:induction false} EligibleSourced(j: Judge, f: Filters, rows: seq<map<string, Json>>, n: nat)
    requires n <= |rows|
    ensures forall e :: e in Eligible(j, f, rows, n) ==> Sourced(e)
  {
    if n > 0 {
      EligibleSourced(j, f, rows, n - 1);
    }
  }

  lemma {:induction false} RankInsertHolds(j: Judge, e: Entry, ranked: seq<Entry>)
    ensures forall x :: x in RankInsert(j, e, ranked) <==> x == e || x in ranked
  {
    if ranked != [] && !RanksBefore(j, e, ranked[0]) {
      RankInsertHolds(j, e, ranked[1..]);
      assert ranked == [ranked[0]] + ranked[1..];
    }
  }

  lemma {:induction false} RankedMembers(j: Judge, entries: seq<Entry>)
    ensures forall x :: x in Ranked(j, entries) <==> x in entries
  {
    if entries != [] {
      RankedMembers(j, entries[1..]);
      RankInsertHolds(j, entries[0], Ranked(j, entries[1..]));
      assert entries == [entries[0]] + entries[1..];
    }
  }

  /** The scoring loop. */
  method ScoreRows(j: Judge, rows: seq<map<string, Json>>, f: Filters) returns (scored: seq<Entry>, lowSignal: nat)
    ensures scored == Eligible(j, f, rows, |rows|) && lowSignal == |rows| - |scored|
  {
    scored, lowSignal := [], 0;
    for i := 0 to |rows|
      invariant scored == Eligible(j, f, rows, i)
      invariant lowSignal == i - |scored|
    {
      var e := EntryOf(j, rows, i);
      if e.score < MinimumSignal(j, f, e.example) {
        lowSignal := lowSignal + 1;
        continue;
      }
      scored := scored + [e];
    }
  }

  /** The selection loop, with its running counts. */
  method SelectRanked(j: Judge, caps: Caps, ranked: seq<Entry>)
    returns (kept: seq<Entry>, duplicate: nat, sourceCap: nat, sources: map<string, nat>, counters: Counters)
    requires forall e :: e in ranked ==> Sourced(e)
    ensures kept == KeptAfter(caps, ranked, |ranked|)
    ensures duplicate == Tally(caps, ranked, |ranked|, DuplicateDropped)
    ensures sourceCap == Tally(caps, ranked, |ranked|, SourceDropped)
    ensures SourcesMatch(Examples(kept), sources) && counters == CountersOf(j, Examples(kept))
  {
    var fingerprints: map<string, nat> := map[];
    kept, duplicate, sourceCap, sources, counters := [], 0, 0, map[], NO_COUNTERS;
    var i := 0;
    while i < |ranked|
      invariant 0 <= i <= |ranked|
      invariant kept == KeptAfter(caps, ranked, i)
      invariant CountsMatch(kept, sources, fingerprints)
      invariant duplicate == Tally(caps, ranked, i, DuplicateDropped)
      invariant sourceCap == Tally(caps, ranked, i, SourceDropped)
      invariant counters == CountersOf(j, Examples(kept))
    {
      var e := ranked[i];
      if caps.maxKept.Some? && |kept| >= caps.maxKept.value {
        break;
      }
      i := i + 1;
      if caps.conversation.Some? && e.source == CONVERSATION && Lookup(sources, e.source) >= caps.conversation.value {
        sourceCap := sourceCap + 1;
        continue;
      }
      var allowed := if e.source == CONVERSATION then caps.duplicatesConversation else caps.duplicates;
      if e.fingerprint != "" && Lookup(fingerprints, e.fingerprint) >= allowed {
        duplicate := duplicate + 1;
        continue;
      }
      assert e in ranked;
      kept, sources, fingerprints, counters := Admit(j, e, kept, sources, fingerprints, counters);
    }
    NothingAfterFull(caps, ranked, i, |ranked|);
  }

  /** One entry more is kept, and counted in every running count. */
  method Admit(j: Judge, e: Entry, kept: seq<Entry>, sources: map<string, nat>, fingerprints: map<string, nat>, counters: Counters)
    returns (admitted: seq<Entry>, bySource: map<string, nat>, byFingerprint: map<string, nat>, counted: Counters)
    requires CountsMatch(kept, sources, fingerprints) && Sourced(e) && counters == CountersOf(j, Examples(kept))
    ensures admitted == kept + [e] && CountsMatch(admitted, bySource, byFingerprint) && counted == CountersOf(j, Examples(admitted))
  {
    CountsAfter(j, kept, sources, fingerprints, e);
    CountersAppend(j, Examples(kept), e.example, "");
    assert Examples(kept + [e]) == Examples(kept) + [e.example];
    admitted := kept + [e];
    bySource := sources[e.source := Lookup(sources, e.source) + 1];
    counted := Counted(counters, FactsOf(j, e.example));
    byFingerprint := fingerprints;
    if e.fingerprint != "" {
      byFingerprint := fingerprints[e.fingerprint := Lookup(fingerprints, e.fingerprint) + 1];
    }
  }

  lemma CountsAfter(j: Judge, kept: seq<Entry>, sources: map<string, nat>, fingerprints: map<string, nat>, e: Entry)
    requires CountsMatch(kept, sources, fingerprints) && Sourced(e)
    ensures CountsMatch(kept + [e], sources[e.source := Lookup(sources, e.source) + 1],
                        if e.fingerprint != "" then fingerprints[e.fingerprint := Lookup(fingerprints, e.fingerprint) + 1] else fingerprints)
  {
    CountsAppend(kept, e, "");
    assert Examples(kept + [e]) == Examples(kept) + [e.example];
    var named := sources[e.source := Lookup(sources, e.source) + 1];
    forall s ensures Lookup(named, s) == CountSource(Examples(kept + [e]), s) && (s in named ==> named[s] > 0)
    {
      CountersAppend(j, Examples(kept), e.example, s);
    }
    var more := if e.fingerprint != "" then fingerprints[e.fingerprint := Lookup(fingerprints, e.fingerprint) + 1] else fingerprints;
    forall p | p != "" ensures Lookup(more, p) == CountFingerprint(kept + [e], p) {
      CountsAppend(kept, e, p);
    }
  }

  lemma CountsAppend(kept: seq<Entry>, e: Entry, p: string)
    ensures CountConversation(kept + [e]) == CountConversation(kept) + (if e.source == CONVERSATION then 1 else 0)
    ensures CountFingerprint(kept + [e], p) == CountFingerprint(kept, p) + (if e.fingerprint == p then 1 else 0)
  {
    assert (kept + [e])[..|kept + [e]| - 1] == kept;
  }

  /** Once the size cap is reached, nothing more is kept or counted as dropped. */
  lemma {:induction false} NothingAfterFull(c: Caps, ranked: seq<Entry>, i: nat, n: nat)
    requires i <= n <= |ranked| && (i == n || Full(c, KeptAfter(c, ranked, i)))
    ensures KeptAfter(c, ranked, n) == KeptAfter(c, ranked, i)
    ensures Tally(c, ranked, n, DuplicateDropped) == Tally(c, ranked, i, DuplicateDropped)
    ensures Tally(c, ranked, n, SourceDropped) == Tally(c, ranked, i, SourceDropped)
  {
    if i < n {
      NothingAfterFull(c, ranked, i, n - 1);
    }
  }

  lemma {:induction false} IndexInsertMembers(e: Entry, kept: seq<Entry>)
    ensures |IndexInsert(e, kept)| == |kept| + 1
    ensures forall x :: x in IndexInsert(e, kept) <==> x == e || x in kept
  {
    if kept != [] && !(e.index < kept[0].index) {
      IndexInsertMembers(e, kept[1..]);
      assert kept == [kept[0]] + kept[1..];
    }
  }

  lemma {:induction false} ByIndexMembers(kept: seq<Entry>)
    ensures |ByIndex(kept)| == |kept|
    ensures forall x :: x in ByIndex(kept) <==> x in kept
  {
    if kept != [] {
      ByIndexMembers(kept[1..]);
      IndexInsertMembers(kept[0], ByIndex(kept[1..]));
      assert kept == [kept[0]] + kept[1..];
    }
  }
}

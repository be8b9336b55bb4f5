/** Whole runs over the capsule tables: any interleaving of creates by any number of writers, erasures, failed
    operations and namespace changes. Each create is one `BEGIN IMMEDIATE` transaction, so an interleaving is a
    sequence of steps; what a writer read before its transaction may be arbitrarily stale. A run may start from empty
    tables, or from any tables whose chains validate, such as migrated ones. */
module CapsuleRuns {
  import opened Wrappers
  import opened Claims
  import opened CapsuleRecords
  import opened CapsuleChain
  import opened CapsuleBuild
  import opened CapsuleTables
  import opened CapsuleErase
  import opened CapsuleBackfill
  import Text

  /** What a chat's chain is made of: the capsules it held when the run began, unless they were erased, and the turns
      recorded since the beginning or the last erasure. */
  datatype Past = Past(base: seq<Capsule>, turns: seq<Turn>)

  datatype World = World(tables: Tables, namespaces: map<string, Namespace>, pasts: map<string, Past>)

  datatype Step =
    | CreateStep(call: CreateCall)
    | EraseStep(law: ForgetLaw, erase: EraseCall)
    | NamespaceStep(chat: string, namespace: Namespace)

  function PastOf(w: World, chat: string): Past {
    if chat in w.pasts then w.pasts[chat] else Past([], [])
  }

  function WithTurn(past: Past, turn: Turn): Past {
    Past(past.base, past.turns + [turn])
  }

  function Next(c: Codec, w: World, s: Step): World {
    match s
    case CreateStep(a) =>
      var pasts := if CreateOutcome(c, w.tables, w.namespaces, a).Ok? then w.pasts[a.chat := WithTurn(PastOf(w, a.chat), a.turn)] else w.pasts;
      World(AfterCreate(c, w.tables, w.namespaces, a), w.namespaces, pasts)
    case EraseStep(law, e) =>
      var pasts := if Erases(c, law, w.tables, e) then w.pasts - {e.chat} else w.pasts;
      World(AfterErase(c, law, w.tables, e), w.namespaces, pasts)
    case NamespaceStep(chat, namespace) => w.(namespaces := w.namespaces[chat := namespace])
  }

  function Run(c: Codec, start: World, steps: seq<Step>): World {
    if steps == [] then start else Next(c, Run(c, start, steps[..|steps| - 1]), steps[|steps| - 1])
  }

  // ----- where a run may start -----

  ghost predicate Named(versions: seq<Row>) {
    forall r :: r in versions ==> r.fields.versionId != ""
  }

  ghost predicate StartsAt(c: Codec, w: World, chat: string) {
    Validate(c, w.tables, chat) == Accepted(PastOf(w, chat).base) && PastOf(w, chat).turns == []
  }

  /** Every chat's chain validates, and no turn has been recorded yet. */
  ghost predicate Founded(c: Codec, w: World) {
    PrimaryKey(w.tables.versions) && Named(w.tables.versions) && forall chat :: StartsAt(c, w, chat)
  }

  const EMPTY := World(Tables([], map[]), map[], map[])

  lemma EmptyIsFounded(c: Codec)
    ensures Founded(c, EMPTY)
  {
    forall chat ensures StartsAt(c, EMPTY, chat) {
      assert Validate(c, EMPTY.tables, chat) == Accepted([]);
    }
  }

  function CapsulesOf(verdict: Verdict): seq<Capsule> {
    if verdict.Accepted? then verdict.capsules else []
  }

  /** The world over stored tables, at the beginning of a run. */
  function Over(c: Codec, t: Tables, namespaces: map<string, Namespace>): World {
    World(t, namespaces, map chat | chat in Chats(t.versions) :: Past(CapsulesOf(Validate(c, t, chat)), []))
  }

  lemma {:induction false} NoRowsOfChat(versions: seq<Row>, chat: string)
    requires forall r :: r in versions ==> r.fields.chatId != chat
    ensures ChatRows(versions, chat) == []
  {
    if versions != [] {
      assert versions[0] in versions;
      NoRowsOfChat(versions[1..], chat);
    }
  }

  lemma NoRowsNoChain(c: Codec, t: Tables, chat: string)
    requires chat !in Chats(t.versions) && chat !in t.heads
    ensures Validate(c, t, chat) == Accepted([])
  {
    ChatsCoverTable(t.versions);
    NoRowsOfChat(t.versions, chat);
  }

  /** Tables whose every head and row belong to a chat that validates are a place to start from. */
  lemma ValidTablesAreFounded(c: Codec, t: Tables, namespaces: map<string, Namespace>)
    requires PrimaryKey(t.versions) && Named(t.versions)
    requires forall chat :: chat in Chats(t.versions) ==> Validate(c, t, chat).Accepted?
    requires forall chat :: chat in t.heads ==> chat in Chats(t.versions)
    ensures Founded(c, Over(c, t, namespaces))
  {
    var w := Over(c, t, namespaces);
    forall chat ensures StartsAt(c, w, chat) {
      if chat !in Chats(t.versions) {
        NoRowsNoChain(c, t, chat);
      }
    }
  }

  lemma {:induction false} RehashedChats(c: Codec, versions: seq<Row>)
    ensures Chats(AllRehashed(c, versions)) == Chats(versions)
  {
    if versions != [] {
      var init := versions[..|versions| - 1];
      assert AllRehashed(c, versions)[..|versions| - 1] == AllRehashed(c, init);
      RehashedChats(c, init);
    }
  }

  lemma RehashedIsNamed(c: Codec, versions: seq<Row>)
    requires PrimaryKey(versions) && Named(versions)
    ensures PrimaryKey(AllRehashed(c, versions)) && Named(AllRehashed(c, versions))
  {
    forall r | r in AllRehashed(c, versions) ensures r.fields.versionId != "" {
      var i :| 0 <= i < |versions| && AllRehashed(c, versions)[i] == r;
      assert versions[i] in versions;
    }
  }

  /** Tables that the migration found sound, and whose payloads can all be walked, are a place to start from. */
  lemma MigratedTablesAreFounded(c: Codec, t: Tables, namespaces: map<string, Namespace>)
    requires Sound(c) && PrimaryKey(t.versions) && Named(t.versions)
    requires forall chat :: chat in Chats(t.versions) ==> LegacyProblem(c, t, chat) == None && WalkableFrom(c, ChatRows(t.versions, chat), 0)
    requires forall chat :: chat in t.heads ==> chat in Chats(t.versions)
    ensures Founded(c, Over(c, Tables(AllRehashed(c, t.versions), t.heads), namespaces))
  {
    var after := Tables(AllRehashed(c, t.versions), t.heads);
    RehashedChats(c, t.versions);
    RehashedIsNamed(c, t.versions);
    forall chat | chat in Chats(after.versions) ensures Validate(c, after, chat).Accepted? {
      MigratedChatValidatesIff(c, t, chat);
    }
    ValidTablesAreFounded(c, after, namespaces);
  }

  // ----- what a history determines -----

  function AllDecisions(c: Codec, turns: seq<Turn>): seq<CapsuleClaim> {
    if turns == [] then [] else AllDecisions(c, turns[..|turns| - 1]) + DecisionClaims(c, turns[|turns| - 1])
  }

  function AllConstraints(c: Codec, turns: seq<Turn>): seq<CapsuleClaim> {
    if turns == [] then [] else AllConstraints(c, turns[..|turns| - 1]) + ConstraintClaims(c, turns[|turns| - 1])
  }

  /** The left fold of the hash over the turns' source ids, from `head`. */
  function HeadAfter(c: Codec, head: string, turns: seq<Turn>): string {
    if turns == [] then head
    else NextTranscriptHead(c, HeadAfter(c, head, turns[..|turns| - 1]), SourceId(c, turns[|turns| - 1].userText))
  }

  /** The capsule recorded after exactly these turns, on top of `before`. */
  ghost predicate Summarizes(c: Codec, capsule: Capsule, before: Option<Capsule>, turns: seq<Turn>) {
    && capsule.decisions == Window(PreviousDecisions(before) + AllDecisions(c, turns), WINDOW)
    && capsule.constraints == Window(PreviousConstraints(before) + AllConstraints(c, turns), WINDOW)
    && capsule.transcriptHead == HeadAfter(c, PreviousHead(before), turns)
    && (turns != [] ==> capsule.objective == Objective(c, turns[|turns| - 1]))
  }

  ghost predicate SummarizesAt(c: Codec, capsules: seq<Capsule>, past: Past, i: nat)
    requires i < |past.turns| && |capsules| == |past.base| + |past.turns|
  {
    Summarizes(c, capsules[|past.base| + i], LastCapsule(past.base), past.turns[..i + 1])
  }

  /** The chain is the capsules from before the run, then one capsule a turn. */
  ghost predicate Explains(c: Codec, capsules: seq<Capsule>, past: Past) {
    && |capsules| == |past.base| + |past.turns|
    && past.base <= capsules
    && forall i: nat :: i < |past.turns| ==> SummarizesAt(c, capsules, past, i)
  }

  /** A window carried on is the window over everything behind it. */
  lemma WindowCarriesOn(carried: seq<CapsuleClaim>, base: seq<CapsuleClaim>, all: seq<CapsuleClaim>, more: seq<CapsuleClaim>)
    requires (all == [] && carried == base) || carried == Window(base + all, WINDOW)
    ensures Window(carried + more, WINDOW) == Window(base + (all + more), WINDOW)
  {
    assert base + (all + more) == (base + all) + more;
    assert all == [] ==> base + all == base;
    CarriedWindowIsBatchWindow(base + all, more, WINDOW);
  }

  /** The chain's last capsule summarizes the turns so far, or there are none and it is the last one from before. */
  lemma LastSummarizes(c: Codec, capsules: seq<Capsule>, past: Past)
    requires Explains(c, capsules, past)
    ensures past.turns == [] ==> LastCapsule(capsules) == LastCapsule(past.base)
    ensures past.turns != [] ==> LastCapsule(capsules).Some? && Summarizes(c, LastCapsule(capsules).value, LastCapsule(past.base), past.turns)
  {
    if past.turns == [] {
      assert capsules == past.base;
    } else {
      var n := |past.turns| - 1;
      assert SummarizesAt(c, capsules, past, n);
      assert past.turns[..n + 1] == past.turns && |past.base| + n == |capsules| - 1;
    }
  }

  lemma AllOfOneMore(c: Codec, head: string, turns: seq<Turn>, turn: Turn)
    ensures AllDecisions(c, turns + [turn]) == AllDecisions(c, turns) + DecisionClaims(c, turn)
    ensures AllConstraints(c, turns + [turn]) == AllConstraints(c, turns) + ConstraintClaims(c, turn)
    ensures HeadAfter(c, head, turns + [turn]) == NextTranscriptHead(c, HeadAfter(c, head, turns), SourceId(c, turn.userText))
  {
    assert (turns + [turn])[..|turns|] == turns;
  }

  lemma NextSummarizes(c: Codec, capsule: Capsule, previous: Option<Capsule>, before: Option<Capsule>, turns: seq<Turn>, turn: Turn)
    requires if turns == [] then previous == before else previous.Some? && Summarizes(c, previous.value, before, turns)
    requires capsule.decisions == Window(PreviousDecisions(previous) + DecisionClaims(c, turn), WINDOW)
    requires capsule.constraints == Window(PreviousConstraints(previous) + ConstraintClaims(c, turn), WINDOW)
    requires capsule.transcriptHead == NextTranscriptHead(c, PreviousHead(previous), SourceId(c, turn.userText))
    requires capsule.objective == Objective(c, turn)
    ensures Summarizes(c, capsule, before, turns + [turn])
  {
    AllOfOneMore(c, PreviousHead(before), turns, turn);
    WindowCarriesOn(PreviousDecisions(previous), PreviousDecisions(before), AllDecisions(c, turns), DecisionClaims(c, turn));
    WindowCarriesOn(PreviousConstraints(previous), PreviousConstraints(before), AllConstraints(c, turns), ConstraintClaims(c, turn));
  }

  lemma PendingSummarizes(c: Codec, a: CreateCall, project: string, capsules: seq<Capsule>, past: Past)
    requires Explains(c, capsules, past)
    ensures Summarizes(c, PendingCapsule(c, a, project, LastCapsule(capsules)), LastCapsule(past.base), past.turns + [a.turn])
  {
    LastSummarizes(c, capsules, past);
    NextSummarizes(c, PendingCapsule(c, a, project, LastCapsule(capsules)), LastCapsule(capsules), LastCapsule(past.base), past.turns, a.turn);
  }

  lemma StillSummarizes(c: Codec, capsules: seq<Capsule>, past: Past, capsule: Capsule, turn: Turn, i: nat)
    requires |capsules| == |past.base| + |past.turns| && i < |past.turns| && SummarizesAt(c, capsules, past, i)
    ensures SummarizesAt(c, capsules + [capsule], WithTurn(past, turn), i)
  {
    assert WithTurn(past, turn).turns[..i + 1] == past.turns[..i + 1];
  }

  lemma NewSummarizes(c: Codec, capsules: seq<Capsule>, past: Past, capsule: Capsule, turn: Turn)
    requires |capsules| == |past.base| + |past.turns| && Summarizes(c, capsule, LastCapsule(past.base), past.turns + [turn])
    ensures SummarizesAt(c, capsules + [capsule], WithTurn(past, turn), |past.turns|)
  {
    assert WithTurn(past, turn).turns[..|past.turns| + 1] == past.turns + [turn];
  }

  lemma SummarizesOneMore(c: Codec, capsules: seq<Capsule>, past: Past, capsule: Capsule, turn: Turn, i: nat)
    requires Explains(c, capsules, past) && Summarizes(c, capsule, LastCapsule(past.base), past.turns + [turn]) && i <= |past.turns|
    ensures SummarizesAt(c, capsules + [capsule], WithTurn(past, turn), i)
  {
    if i < |past.turns| {
      StillSummarizes(c, capsules, past, capsule, turn, i);
    } else {
      NewSummarizes(c, capsules, past, capsule, turn);
    }
  }

  lemma ExplainsOneMore(c: Codec, capsules: seq<Capsule>, past: Past, capsule: Capsule, turn: Turn)
    requires Explains(c, capsules, past) && Summarizes(c, capsule, LastCapsule(past.base), past.turns + [turn])
    ensures Explains(c, capsules + [capsule], WithTurn(past, turn))
  {
    forall i: nat | i < |WithTurn(past, turn).turns| ensures SummarizesAt(c, capsules + [capsule], WithTurn(past, turn), i) {
      SummarizesOneMore(c, capsules, past, capsule, turn, i);
    }
  }

  // ----- the invariant of every run -----

  ghost predicate ChatHolds(c: Codec, w: World, chat: string) {
    var verdict := Validate(c, w.tables, chat);
    verdict.Accepted? && Explains(c, verdict.capsules, PastOf(w, chat))
  }

  ghost predicate WorldHolds(c: Codec, w: World) {
    PrimaryKey(w.tables.versions) && Named(w.tables.versions) && forall chat :: ChatHolds(c, w, chat)
  }

  lemma OtherChatUntouched(c: Codec, t: Tables, row: Row, chat: string, id: string)
    requires row.fields.chatId != chat
    requires row.fields.versionNumber.Number?
    requires forall r :: r in t.versions && r.fields.chatId == row.fields.chatId ==> ColumnBefore(r.fields.versionNumber, row.fields.versionNumber)
    ensures Validate(c, Tables(t.versions + [row], t.heads[row.fields.chatId := id]), chat) == Validate(c, t, chat)
  {
    ChatRowsAppend(t.versions, row, chat);
    assert ChatRows(t.versions, chat) + [] == ChatRows(t.versions, chat);
  }

  lemma PendingHolds(c: Codec, t: Tables, past: Past, a: CreateCall, project: string, capsules: seq<Capsule>)
    requires Sound(c) && Validate(c, t, a.chat) == Accepted(capsules) && !HoldsText(t.versions, a.chat) && Explains(c, capsules, past)
    ensures var verdict := Validate(c, WithPending(c, t, a, project, capsules), a.chat);
            verdict.Accepted? && Explains(c, verdict.capsules, WithTurn(past, a.turn))
  {
    PendingRowExtends(c, t, a, project, capsules);
    PendingSummarizes(c, a, project, capsules, past);
    ExplainsOneMore(c, capsules, past, PendingCapsule(c, a, project, LastCapsule(capsules)), a.turn);
  }

  lemma CreatedChatHolds(c: Codec, w: World, a: CreateCall)
    requires Sound(c) && ChatHolds(c, w, a.chat) && CreateOutcome(c, w.tables, w.namespaces, a).Ok?
    ensures ChatHolds(c, Next(c, w, CreateStep(a)), a.chat)
  {
    var project, capsules := CreateFacts(c, w.tables, w.namespaces, a);
    PendingHolds(c, w.tables, PastOf(w, a.chat), a, project, capsules);
  }

  lemma OtherChatStands(c: Codec, t: Tables, a: CreateCall, project: string, capsules: seq<Capsule>, chat: string)
    requires chat != a.chat && Validate(c, t, a.chat) == Accepted(capsules) && !HoldsText(t.versions, a.chat)
    ensures Validate(c, WithPending(c, t, a, project, capsules), chat) == Validate(c, t, chat)
  {
    AcceptedVersionsAreLow(c, t, a.chat, capsules);
    AcceptedNextNumber(c, t, a.chat, capsules);
    OtherChatUntouched(c, t, PendingRow(c, a, project, LastCapsule(capsules)), chat, VersionId(a));
  }

  lemma OtherChatHolds(c: Codec, w: World, a: CreateCall, chat: string)
    requires chat != a.chat && ChatHolds(c, w, chat) && CreateOutcome(c, w.tables, w.namespaces, a).Ok?
    ensures ChatHolds(c, Next(c, w, CreateStep(a)), chat)
  {
    var project, capsules := CreateFacts(c, w.tables, w.namespaces, a);
    OtherChatStands(c, w.tables, a, project, capsules, chat);
  }

  lemma CreateKeepsTheWorld(c: Codec, w: World, a: CreateCall)
    requires Sound(c) && WorldHolds(c, w)
    ensures WorldHolds(c, Next(c, w, CreateStep(a)))
  {
    var after := Next(c, w, CreateStep(a));
    if CreateOutcome(c, w.tables, w.namespaces, a).Ok? {
      forall chat ensures ChatHolds(c, after, chat) {
        assert ChatHolds(c, w, chat);
        if chat == a.chat {
          CreatedChatHolds(c, w, a);
        } else {
          OtherChatHolds(c, w, a, chat);
        }
      }
      var project, capsules := CreateFacts(c, w.tables, w.namespaces, a);
      NewKeyIsPrimary(w.tables.versions, PendingRow(c, a, project, LastCapsule(capsules)));
    } else {
      forall chat ensures ChatHolds(c, after, chat) {
        assert ChatHolds(c, w, chat);
      }
    }
  }

  lemma NewKeyIsPrimary(versions: seq<Row>, row: Row)
    requires PrimaryKey(versions) && Named(versions) && !UsesVersionId(versions, row.fields.versionId) && row.fields.versionId != ""
    ensures PrimaryKey(versions + [row]) && Named(versions + [row])
  {
  }

  lemma {:induction false} DeletedKeepsKeys(versions: seq<Row>, chat: string)
    requires PrimaryKey(versions) && Named(versions)
    ensures PrimaryKey(WithoutChat(versions, chat)) && Named(WithoutChat(versions, chat))
  {
    if versions != [] {
      var rest := versions[1..];
      DeletedKeepsKeys(rest, chat);
      ChatRowsAfterDelete(rest, chat, chat);
      var kept := WithoutChat(rest, chat);
      forall j | 0 <= j < |kept| ensures kept[j].fields.versionId != versions[0].fields.versionId && kept[j].fields.versionId != "" {
        assert kept[j] in rest;
        var i :| 0 <= i < |rest| && rest[i] == kept[j];
        assert versions[i + 1] == kept[j];
      }
    }
  }

  lemma ErasedChatIsEmpty(c: Codec, law: ForgetLaw, t: Tables, e: EraseCall)
    requires Erases(c, law, t, e)
    ensures Validate(c, AfterErase(c, law, t, e), e.chat) == Accepted([])
  {
    ChatRowsAfterDelete(t.versions, e.chat, e.chat);
  }

  lemma UnerasedChatStands(c: Codec, law: ForgetLaw, t: Tables, e: EraseCall, chat: string)
    requires Erases(c, law, t, e) && chat != e.chat
    ensures Validate(c, AfterErase(c, law, t, e), chat) == Validate(c, t, chat)
  {
    ChatRowsAfterDelete(t.versions, e.chat, chat);
  }

  lemma ErasedChatHolds(c: Codec, w: World, law: ForgetLaw, e: EraseCall, chat: string)
    requires ChatHolds(c, w, chat) && Erases(c, law, w.tables, e)
    ensures ChatHolds(c, Next(c, w, EraseStep(law, e)), chat)
  {
    if chat == e.chat {
      ErasedChatIsEmpty(c, law, w.tables, e);
    } else {
      UnerasedChatStands(c, law, w.tables, e, chat);
    }
  }

  lemma EraseKeepsTheWorld(c: Codec, w: World, law: ForgetLaw, e: EraseCall)
    requires WorldHolds(c, w)
    ensures WorldHolds(c, Next(c, w, EraseStep(law, e)))
  {
    if Erases(c, law, w.tables, e) {
      forall chat ensures ChatHolds(c, Next(c, w, EraseStep(law, e)), chat) {
        assert ChatHolds(c, w, chat);
        ErasedChatHolds(c, w, law, e, chat);
      }
      DeletedKeepsKeys(w.tables.versions, e.chat);
    } else {
      assert Next(c, w, EraseStep(law, e)) == w;
    }
  }

  /** After any run from any tables whose chains validate, every chat's chain validates, still holds what was there
      before the run unless that was erased, and then summarizes, one capsule a turn, the turns recorded since. */
  lemma {:induction false} RunHolds(c: Codec, start: World, steps: seq<Step>)
    requires Sound(c) && Founded(c, start)
    ensures WorldHolds(c, Run(c, start, steps))
  {
    if steps == [] {
      forall chat ensures ChatHolds(c, start, chat) {
        assert StartsAt(c, start, chat);
      }
    } else {
      var before, s := Run(c, start, steps[..|steps| - 1]), steps[|steps| - 1];
      RunHolds(c, start, steps[..|steps| - 1]);
      match s {
        case CreateStep(a) => CreateKeepsTheWorld(c, before, a);
        case EraseStep(law, e) => EraseKeepsTheWorld(c, before, law, e);
        case NamespaceStep(name, namespace) =>
          forall chat ensures ChatHolds(c, Next(c, before, s), chat) {
            assert ChatHolds(c, before, chat);
          }
      }
    }
  }

  lemma RunChat(c: Codec, start: World, steps: seq<Step>, chat: string) returns (capsules: seq<Capsule>)
    requires Sound(c) && Founded(c, start)
    ensures var w := Run(c, start, steps);
            && PrimaryKey(w.tables.versions) && Named(w.tables.versions)
            && Validate(c, w.tables, chat) == Accepted(capsules) && Explains(c, capsules, PastOf(w, chat))
  {
    var w := Run(c, start, steps);
    RunHolds(c, start, steps);
    assert ChatHolds(c, w, chat);
    capsules := Validate(c, w.tables, chat).capsules;
  }

  /** Capsule number `n` on top of `base`, of a chain recorded after `turns`. */
  ghost predicate RecordedAfter(c: Codec, capsule: Capsule, base: seq<Capsule>, turns: seq<Turn>) {
    capsule.versionNumber == |base| + |turns| && Summarizes(c, capsule, LastCapsule(base), turns)
  }

  lemma ChainRecords(c: Codec, capsules: seq<Capsule>, past: Past, n: nat)
    requires Explains(c, capsules, past) && 1 <= n <= |past.turns|
    requires capsules[|past.base| + n - 1].versionNumber == |past.base| + n
    ensures RecordedAfter(c, capsules[|past.base| + n - 1], past.base, past.turns[..n])
  {
    assert SummarizesAt(c, capsules, past, n - 1);
  }

  /** The chain validates, is what it was built on and one capsule a turn, and the capsule of its `n`-th turn was recorded
      after exactly its first `n` turns. */
  ghost predicate RecordsIn(c: Codec, verdict: Verdict, past: Past, n: nat) {
    && 1 <= n <= |past.turns|
    && verdict.Accepted? && |verdict.capsules| == |past.base| + |past.turns| && past.base <= verdict.capsules
    && RecordedAfter(c, verdict.capsules[|past.base| + n - 1], past.base, past.turns[..n])
  }

  ghost predicate ChatRecords(c: Codec, w: World, chat: string, n: nat) {
    RecordsIn(c, Validate(c, w.tables, chat), PastOf(w, chat), n)
  }

  lemma ExplainedChainRecords(c: Codec, verdict: Verdict, past: Past, n: nat)
    requires verdict.Accepted? && Explains(c, verdict.capsules, past) && 1 <= n <= |past.turns|
    requires verdict.capsules[|past.base| + n - 1].versionNumber == |past.base| + n
    ensures RecordsIn(c, verdict, past, n)
  {
    ChainRecords(c, verdict.capsules, past, n);
  }

  lemma HeldChatRecords(c: Codec, w: World, chat: string, n: nat)
    requires ChatHolds(c, w, chat) && 1 <= n <= |PastOf(w, chat).turns|
    ensures ChatRecords(c, w, chat, n)
  {
    VerdictVersionNumber(c, w.tables, chat, |PastOf(w, chat).base| + n - 1);
    ExplainedChainRecords(c, Validate(c, w.tables, chat), PastOf(w, chat), n);
  }

  /** The carried window loses nothing: the `n`-th capsule a chat recorded since the run began, or since its last erasure,
      holds the window over ALL the decision (constraint) claims of those `n` turns, behind whatever the chain held
      before them; and its transcript head folds over all of them. */
  lemma CapsulesEqualBatchRecomputation(c: Codec, start: World, steps: seq<Step>, chat: string, n: nat)
    requires Sound(c) && Founded(c, start) && 1 <= n <= |PastOf(Run(c, start, steps), chat).turns|
    ensures ChatRecords(c, Run(c, start, steps), chat, n)
  {
    RunHolds(c, start, steps);
    assert ChatHolds(c, Run(c, start, steps), chat);
    HeldChatRecords(c, Run(c, start, steps), chat, n);
  }

  lemma {:induction false} FreshRunHasNoBase(c: Codec, steps: seq<Step>, chat: string)
    ensures PastOf(Run(c, EMPTY, steps), chat).base == []
  {
    if steps != [] {
      FreshRunHasNoBase(c, steps[..|steps| - 1], chat);
    }
  }

  /** Version `n` holds the window over all decision (constraint) claims of the first `n` turns, and the hash fold over their
      source ids. */
  ghost predicate AllIn(c: Codec, verdict: Verdict, turns: seq<Turn>, n: nat) {
    && 1 <= n <= |turns| && verdict.Accepted? && |verdict.capsules| == |turns|
    && var capsule := verdict.capsules[n - 1];
       && capsule.versionNumber == n
       && capsule.decisions == Window(AllDecisions(c, turns[..n]), WINDOW)
       && capsule.constraints == Window(AllConstraints(c, turns[..n]), WINDOW)
       && capsule.transcriptHead == TranscriptHead(c, turns[..n])
  }

  ghost predicate CarriesAll(c: Codec, w: World, chat: string, n: nat) {
    AllIn(c, Validate(c, w.tables, chat), PastOf(w, chat).turns, n)
  }

  lemma NoBaseCarriesAll(c: Codec, verdict: Verdict, past: Past, n: nat)
    requires RecordsIn(c, verdict, past, n) && past.base == []
    ensures AllIn(c, verdict, past.turns, n)
  {
    var turns := past.turns[..n];
    assert [] + AllDecisions(c, turns) == AllDecisions(c, turns) && [] + AllConstraints(c, turns) == AllConstraints(c, turns);
  }

  /** From empty tables, every version carries everything its chat stated since its last erasure. */
  lemma FreshChatsCarryTheirWholeHistory(c: Codec, steps: seq<Step>, chat: string, n: nat)
    requires Sound(c) && 1 <= n <= |PastOf(Run(c, EMPTY, steps), chat).turns|
    ensures CarriesAll(c, Run(c, EMPTY, steps), chat, n)
  {
    EmptyIsFounded(c);
    FreshRunHasNoBase(c, steps, chat);
    CapsulesEqualBatchRecomputation(c, EMPTY, steps, chat, n);
    var w := Run(c, EMPTY, steps);
    NoBaseCarriesAll(c, Validate(c, w.tables, chat), PastOf(w, chat), n);
  }

  /** No fork in any run: two stored rows of one chat naming the same predecessor are the same row. */
  lemma RunsNeverFork(c: Codec, start: World, steps: seq<Step>, r: Row, s: Row)
    requires Sound(c) && Founded(c, start)
    requires var versions := Run(c, start, steps).tables.versions; r in versions && s in versions
    requires r.fields.chatId == s.fields.chatId && r.fields.previousVersionId == s.fields.previousVersionId
    ensures r == s
  {
    var capsules := RunChat(c, start, steps, r.fields.chatId);
    ChainNeverForks(c, Run(c, start, steps).tables, r.fields.chatId, capsules, r, s);
  }

  lemma ChainNeverForks(c: Codec, t: Tables, chat: string, capsules: seq<Capsule>, r: Row, s: Row)
    requires PrimaryKey(t.versions) && Named(t.versions) && Validate(c, t, chat) == Accepted(capsules)
    requires r in t.versions && s in t.versions && r.fields.chatId == chat && s.fields.chatId == chat
    requires r.fields.previousVersionId == s.fields.previousVersionId
    ensures r == s
  {
    var rows := ChatRows(t.versions, chat);
    AcceptedIffChain(c, chat, rows, HeadOf(t.heads, chat), capsules);
    ChatRowsMembers(t.versions, chat);
    RowsNeverFork(c, t.versions, chat, rows, capsules, r, s);
  }

  lemma RowsNeverFork(c: Codec, versions: seq<Row>, chat: string, rows: seq<Row>, capsules: seq<Capsule>, r: Row, s: Row)
    requires PrimaryKey(versions) && Named(versions) && IsChain(c, chat, rows, capsules)
    requires forall x :: x in rows ==> x in versions
    requires r in rows && s in rows && r.fields.previousVersionId == s.fields.previousVersionId
    ensures r == s
  {
    var i: nat :| i < |rows| && rows[i] == r;
    var j: nat :| j < |rows| && rows[j] == s;
    if i < j {
      DistinctPredecessors(c, versions, chat, rows, capsules, i, j);
    } else if j < i {
      DistinctPredecessors(c, versions, chat, rows, capsules, j, i);
    }
  }

  lemma LinkNames(c: Codec, chat: string, rows: seq<Row>, capsules: seq<Capsule>, i: nat)
    requires IsChain(c, chat, rows, capsules) && i < |rows|
    ensures rows[i].fields.versionId == capsules[i].versionId
    ensures rows[i].fields.previousVersionId == (if i == 0 then "" else capsules[i - 1].versionId)
  {
    assert IsLink(c, chat, rows, capsules, i);
    DecodedNames(c, rows[i]);
  }

  lemma DistinctPredecessors(c: Codec, versions: seq<Row>, chat: string, rows: seq<Row>, capsules: seq<Capsule>, i: nat, j: nat)
    requires PrimaryKey(versions) && Named(versions) && IsChain(c, chat, rows, capsules)
    requires forall r :: r in rows ==> r in versions
    requires i < j < |rows|
    ensures rows[i].fields.previousVersionId != rows[j].fields.previousVersionId
  {
    LinkNames(c, chat, rows, capsules, i);
    LinkNames(c, chat, rows, capsules, j);
    LinkNames(c, chat, rows, capsules, j - 1);
    assert rows[j - 1] in versions;
    if i > 0 {
      DistinctPlacesDistinctIds(c, versions, chat, rows, capsules, i - 1, j - 1);
    }
  }

  lemma LinkDecodes(c: Codec, chat: string, rows: seq<Row>, capsules: seq<Capsule>, i: nat)
    requires IsChain(c, chat, rows, capsules) && i < |rows|
    ensures DecodeRow(c, rows[i]) == Decodes(capsules[i]) && capsules[i].versionNumber == i + 1
  {
    assert IsLink(c, chat, rows, capsules, i);
  }

  lemma DistinctPlacesDistinctRows(c: Codec, chat: string, rows: seq<Row>, capsules: seq<Capsule>, i: nat, j: nat)
    requires IsChain(c, chat, rows, capsules) && i < j < |rows|
    ensures rows[i] != rows[j]
  {
    LinkDecodes(c, chat, rows, capsules, i);
    LinkDecodes(c, chat, rows, capsules, j);
  }

  lemma DistinctRowsDistinctIds(versions: seq<Row>, r: Row, s: Row)
    requires PrimaryKey(versions) && r in versions && s in versions && r != s
    ensures r.fields.versionId != s.fields.versionId
  {
    var m :| 0 <= m < |versions| && versions[m] == r;
    var n :| 0 <= n < |versions| && versions[n] == s;
  }

  /** Two places of an accepted chain hold different version ids. */
  lemma DistinctPlacesDistinctIds(c: Codec, versions: seq<Row>, chat: string, rows: seq<Row>, capsules: seq<Capsule>, i: nat, j: nat)
    requires PrimaryKey(versions) && IsChain(c, chat, rows, capsules)
    requires forall r :: r in rows ==> r in versions
    requires i < j < |rows|
    ensures capsules[i].versionId != capsules[j].versionId
  {
    LinkNames(c, chat, rows, capsules, i);
    LinkNames(c, chat, rows, capsules, j);
    DistinctPlacesDistinctRows(c, chat, rows, capsules, i, j);
    assert rows[i] in versions && rows[j] in versions;
    DistinctRowsDistinctIds(versions, rows[i], rows[j]);
  }

  // ----- the project a caller names -----

  ghost predicate MovesChat(s: Step, chat: string) {
    s.NamespaceStep? && s.chat == chat
  }

  function NamespaceIn(w: World, chat: string): Option<Namespace> {
    if chat in w.namespaces then Some(w.namespaces[chat]) else None
  }

  lemma {:induction false} NamespaceStands(c: Codec, start: World, steps: seq<Step>, i: nat, chat: string)
    requires i <= |steps| && forall k :: i <= k < |steps| ==> !MovesChat(steps[k], chat)
    ensures NamespaceIn(Run(c, start, steps), chat) == NamespaceIn(Run(c, start, steps[..i]), chat)
  {
    if i == |steps| {
      assert steps[..i] == steps;
    } else {
      var init := steps[..|steps| - 1];
      NamespaceStands(c, start, init, i, chat);
      assert init[..i] == steps[..i];
      assert !MovesChat(steps[|steps| - 1], chat);
    }
  }

  /** The project a caller names is checked against what it read before its transaction, here after step `i` of the run,
      and the row is written with what is read inside it. The named project is the stored one if and only if the two
      reads agree; so it is whenever no step in between moved the chat. */
  lemma NamedProjectIsStoredUnlessMoved(c: Codec, start: World, steps: seq<Step>, i: nat, a: CreateCall)
    requires i <= |steps| && a.observed == NamespaceIn(Run(c, start, steps[..i]), a.chat)
    requires Text.Strip(a.project) != ""
    requires var w := Run(c, start, steps); CreateOutcome(c, w.tables, w.namespaces, a).Ok?
    ensures var w := Run(c, start, steps);
            var stored := CreateOutcome(c, w.tables, w.namespaces, a).value.projectId;
            && (stored == Text.Strip(a.project) <==> NamespaceIn(w, a.chat).Some? && a.observed.value.projectId == NamespaceIn(w, a.chat).value.projectId)
            && ((forall k :: i <= k < |steps| ==> !MovesChat(steps[k], a.chat)) ==> stored == Text.Strip(a.project))
  {
    var w := Run(c, start, steps);
    var project, capsules := CreateFacts(c, w.tables, w.namespaces, a);
    if forall k :: i <= k < |steps| ==> !MovesChat(steps[k], a.chat) {
      NamespaceStands(c, start, steps, i, a.chat);
    }
  }

  /** A create that named the project "old" succeeds and stores "new": the chat was moved after it was read. */
  lemma MovedChatStoresAnotherProject(c: Codec, a: CreateCall, steps: seq<Step>)
    requires steps == [NamespaceStep("chat", Namespace("old", "active")), NamespaceStep("chat", Namespace("new", "active"))]
    requires a.chat == "chat" && a.project == "old" && a.observed == Some(Namespace("old", "active"))
    requires a.turn.requestedReceipts == [] && a.fault == NoFault
    ensures a.observed == NamespaceIn(Run(c, EMPTY, steps[..1]), "chat")
    ensures var w := Run(c, EMPTY, steps);
            CreateOutcome(c, w.tables, w.namespaces, a).Ok? && CreateOutcome(c, w.tables, w.namespaces, a).value.projectId == "new"
  {
    var first := steps[..1];
    assert first[..0] == [] && steps[..|steps| - 1] == first && first[0] == steps[0];
    assert Run(c, EMPTY, []) == EMPTY;
    assert Run(c, EMPTY, first) == EMPTY.(namespaces := map["chat" := Namespace("old", "active")]);
    assert Run(c, EMPTY, steps) == EMPTY.(namespaces := map["chat" := Namespace("new", "active")]);
    assert Validate(c, EMPTY.tables, "chat") == Accepted([]);
    assert Text.Strip("old") == "old";
  }

  // ----- the transcript head names the turns -----

  lemma JoinIsInjective(a: string, b: string, x: string, y: string)
    requires '\0' !in a && '\0' !in b && a + "\0" + x == b + "\0" + y
    ensures a == b && x == y
  {
    var s := a + "\0" + x;
    assert s[|a|] == '\0' && s[|b|] == '\0';
    forall k | 0 <= k < |a| ensures s[k] != '\0' {
      assert s[k] == a[k] && a[k] in a;
    }
    forall k | 0 <= k < |b| ensures s[k] != '\0' {
      assert s[k] == b[k] && b[k] in b;
    }
    assert a == s[..|a|] && b == s[..|b|];
    assert x == s[|a| + 1..] && y == s[|b| + 1..];
  }

  function SourceIds(c: Codec, turns: seq<Turn>): seq<string> {
    if turns == [] then [] else SourceIds(c, turns[..|turns| - 1]) + [SourceId(c, turns[|turns| - 1].userText)]
  }

  /** The transcript head of a chat that started from nothing. */
  function TranscriptHead(c: Codec, turns: seq<Turn>): string {
    HeadAfter(c, "", turns)
  }

  /** From one head, equally many turns lead to the same head if and only if they have the same source ids, in order. */
  lemma {:induction false} HeadAfterNamesTheTurns(c: Codec, head: string, s: seq<Turn>, t: seq<Turn>)
    requires SoundHash(c) && |s| == |t|
    ensures HeadAfter(c, head, s) == HeadAfter(c, head, t) <==> SourceIds(c, s) == SourceIds(c, t)
  {
    if s != [] {
      var si, ti := s[..|s| - 1], t[..|t| - 1];
      var x, y := SourceId(c, s[|s| - 1].userText), SourceId(c, t[|t| - 1].userText);
      HeadAfterNamesTheTurns(c, head, si, ti);
      if HeadAfter(c, head, s) == HeadAfter(c, head, t) {
        SameStepSameHead(c, head, si, ti, x, y);
      }
      SourceIdsLength(c, si);
      SourceIdsLength(c, ti);
      if SourceIds(c, s) == SourceIds(c, t) {
        assert SourceIds(c, s)[..|si|] == SourceIds(c, si) && SourceIds(c, t)[..|ti|] == SourceIds(c, ti);
        assert SourceIds(c, s)[|si|] == x && SourceIds(c, t)[|ti|] == y;
      }
    }
  }

  lemma {:induction false} SourceIdsLength(c: Codec, turns: seq<Turn>)
    ensures |SourceIds(c, turns)| == |turns|
  {
    if turns != [] {
      SourceIdsLength(c, turns[..|turns| - 1]);
    }
  }

  lemma SameStepSameHead(c: Codec, head: string, s: seq<Turn>, t: seq<Turn>, x: string, y: string)
    requires SoundHash(c) && |s| == |t|
    requires NextTranscriptHead(c, HeadAfter(c, head, s), x) == NextTranscriptHead(c, HeadAfter(c, head, t), y)
    ensures HeadAfter(c, head, s) == HeadAfter(c, head, t) && x == y
  {
    var a, b := HeadAfter(c, head, s), HeadAfter(c, head, t);
    assert a + "\0" + x == b + "\0" + y;
    if s == [] {
      assert a == b;
      assert x == (a + "\0" + x)[|a| + 1..] && y == (b + "\0" + y)[|b| + 1..];
    } else {
      HashedHeadHasNoNul(c, head, s);
      HashedHeadHasNoNul(c, head, t);
      JoinIsInjective(a, b, x, y);
    }
  }

  lemma HashedHeadHasNoNul(c: Codec, head: string, turns: seq<Turn>)
    requires SoundHash(c) && turns != []
    ensures '\0' !in HeadAfter(c, head, turns)
  {
  }

  /** From the empty head, equal transcript heads come from the same number of turns with the same source ids, in order. */
  lemma {:induction false} TranscriptHeadNamesTheTurns(c: Codec, s: seq<Turn>, t: seq<Turn>)
    requires SoundHash(c) && TranscriptHead(c, s) == TranscriptHead(c, t)
    ensures |s| == |t| && SourceIds(c, s) == SourceIds(c, t)
  {
    if s != [] && t != [] {
      var si, ti := s[..|s| - 1], t[..|t| - 1];
      HeadHasNoNul(c, si);
      HeadHasNoNul(c, ti);
      JoinIsInjective(TranscriptHead(c, si), TranscriptHead(c, ti), SourceId(c, s[|s| - 1].userText), SourceId(c, t[|t| - 1].userText));
      TranscriptHeadNamesTheTurns(c, si, ti);
    }
  }

  lemma HeadHasNoNul(c: Codec, turns: seq<Turn>)
    requires SoundHash(c)
    ensures '\0' !in TranscriptHead(c, turns)
  {
  }

  /** The head stored with the capsule of the `n`-th turn. */
  function HeadIn(verdict: Verdict, past: Past, n: nat): string {
    if verdict.Accepted? && 1 <= n && |past.base| + n <= |verdict.capsules| then verdict.capsules[|past.base| + n - 1].transcriptHead else ""
  }

  function StoredHead(c: Codec, w: World, chat: string, n: nat): string {
    HeadIn(Validate(c, w.tables, chat), PastOf(w, chat), n)
  }

  function BaseHead(past: Past): string {
    PreviousHead(LastCapsule(past.base))
  }

  lemma HeadInIsFold(c: Codec, verdict: Verdict, past: Past, n: nat)
    requires RecordsIn(c, verdict, past, n)
    ensures HeadIn(verdict, past, n) == HeadAfter(c, BaseHead(past), past.turns[..n])
  {
  }

  lemma RecordedHeadsNameTheTurns(c: Codec, verdict: Verdict, past: Past, m: nat, other: Verdict, otherPast: Past, n: nat)
    requires SoundHash(c) && RecordsIn(c, verdict, past, m) && RecordsIn(c, other, otherPast, n)
    requires BaseHead(past) == BaseHead(otherPast) && (BaseHead(past) == "" || m == n)
    requires HeadIn(verdict, past, m) == HeadIn(other, otherPast, n)
    ensures m == n && SourceIds(c, past.turns[..m]) == SourceIds(c, otherPast.turns[..n])
  {
    HeadInIsFold(c, verdict, past, m);
    HeadInIsFold(c, other, otherPast, n);
    if BaseHead(past) == "" {
      TranscriptHeadNamesTheTurns(c, past.turns[..m], otherPast.turns[..n]);
    } else {
      HeadAfterNamesTheTurns(c, BaseHead(past), past.turns[..m], otherPast.turns[..n]);
    }
  }

  /** In any run, two chats that began with the same head and then store equal heads recorded the same source ids, in the same
      order: as many of them when they began with none, and otherwise when compared after as many turns. */
  lemma EqualStoredHeadsNameEqualTurns(c: Codec, start: World, steps: seq<Step>, chat: string, m: nat, other: string, n: nat)
    requires Sound(c) && Founded(c, start)
    requires 1 <= m <= |PastOf(Run(c, start, steps), chat).turns| && 1 <= n <= |PastOf(Run(c, start, steps), other).turns|
    requires var w := Run(c, start, steps);
             && BaseHead(PastOf(w, chat)) == BaseHead(PastOf(w, other)) && (BaseHead(PastOf(w, chat)) == "" || m == n)
             && StoredHead(c, w, chat, m) == StoredHead(c, w, other, n)
    ensures var w := Run(c, start, steps);
            m == n && SourceIds(c, PastOf(w, chat).turns[..m]) == SourceIds(c, PastOf(w, other).turns[..n])
  {
    CapsulesEqualBatchRecomputation(c, start, steps, chat, m);
    CapsulesEqualBatchRecomputation(c, start, steps, other, n);
    var w := Run(c, start, steps);
    RecordedHeadsNameTheTurns(c, Validate(c, w.tables, chat), PastOf(w, chat), m, Validate(c, w.tables, other), PastOf(w, other), n);
  }

  // ----- numbers stay numbers -----

  /** No version number is stored as text or bytes. */
  ghost predicate NoText(versions: seq<Row>) {
    forall r :: r in versions ==> StorageRank(r.fields.versionNumber) <= 2
  }

  /** Creates and erasures never store text for a version number. */
  lemma {:induction false} RunsStoreNoText(c: Codec, start: World, steps: seq<Step>)
    requires NoText(start.tables.versions)
    ensures NoText(Run(c, start, steps).tables.versions)
  {
    if steps != [] {
      var before := Run(c, start, steps[..|steps| - 1]);
      RunsStoreNoText(c, start, steps[..|steps| - 1]);
      match steps[|steps| - 1] {
        case CreateStep(a) => CreateStoresNoText(c, before, a);
        case EraseStep(law, e) => ChatRowsAfterDelete(before.tables.versions, e.chat, e.chat);
        case NamespaceStep(_, _) =>
      }
    }
  }

  lemma CreateStoresNoText(c: Codec, w: World, a: CreateCall)
    requires NoText(w.tables.versions)
    ensures NoText(AfterCreate(c, w.tables, w.namespaces, a).versions)
  {
    if CreateOutcome(c, w.tables, w.namespaces, a).Ok? {
      var project, capsules := CreateFacts(c, w.tables, w.namespaces, a);
    }
  }

  /** So from such tables, empty ones included, the validation a create repeats after its writes never fails. */
  lemma WriteValidationNeverFails(c: Codec, start: World, steps: seq<Step>, a: CreateCall)
    requires NoText(start.tables.versions)
    ensures var w := Run(c, start, steps); CreateOutcome(c, w.tables, w.namespaces, a) != Err(WriteValidationFailed)
  {
    RunsStoreNoText(c, start, steps);
    NoTextNoFailure(c, Run(c, start, steps), a);
  }

  lemma NoTextNoFailure(c: Codec, w: World, a: CreateCall)
    requires NoText(w.tables.versions)
    ensures CreateOutcome(c, w.tables, w.namespaces, a) != Err(WriteValidationFailed)
  {
    forall i | 0 <= i < |w.tables.versions| ensures StorageRank(w.tables.versions[i].fields.versionNumber) <= 2 {
      assert w.tables.versions[i] in w.tables.versions;
    }
    assert !HoldsText(w.tables.versions, a.chat);
  }
}

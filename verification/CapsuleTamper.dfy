/** Tampering with stored rows: with the `record_hash` and head values left alone, a chain that still validates
    is the chain that was written (core/active_context_capsule.py, `_capsule_from_row`, `_validated_capsule_chain`). */
module CapsuleTamper {
  import opened Wrappers
  import opened CapsuleRecords
  import opened CapsuleBuild
  import opened CapsuleChain
  import opened CapsuleReceipts
  import opened CapsuleTables
  import opened CapsuleBackfill
  import CapsuleRuns
  import CapsuleStore
  import Text

  /** Every stored row decodes. */
  ghost predicate Intact(c: Codec, t: Tables) {
    forall r :: r in t.versions ==> DecodeRow(c, r).Decodes?
  }

  /** `now` is `was` after any edits, deletions, copies, reorderings or moves between chats, as long as every row still
      carries a record hash that some row of `was` carried, and the chat's head is what it was. */
  ghost predicate TamperedFrom(now: Tables, was: Tables, chat: string) {
    && (forall r :: r in now.versions ==> exists s :: s in was.versions && s.recordHash == r.recordHash)
    && HeadOf(now.heads, chat) == HeadOf(was.heads, chat)
  }

  /** Decoding reaches this row's version number, and reading it raises. */
  predicate Trips(c: Codec, row: Row) {
    PassesFirstChecks(c, row.fields) && Effective(c, row.fields.versionNumber) == None
  }

  /** A tampered row decodes to a capsule that was written, is refused, or raises; it raises exactly on its number. */
  lemma TamperedRow(c: Codec, now: Tables, was: Tables, chat: string, r: Row) returns (s: Row)
    requires Sound(c) && Intact(c, was) && TamperedFrom(now, was, chat) && r in now.versions
    ensures s in was.versions && DecodeRow(c, s).Decodes?
    ensures DecodeRow(c, r) == Raises <==> Trips(c, r)
    ensures DecodeRow(c, r).Decodes? ==> DecodeRow(c, r) == DecodeRow(c, s)
  {
    s :| s in was.versions && s.recordHash == r.recordHash;
    DecodedNames(c, s);
    if Effective(c, r.fields.versionNumber).Some? && DecodeRow(c, r) != Refused {
      SameHashSameCapsule(c, r, s);
    }
  }

  lemma WrittenPlace(c: Codec, was: Tables, chat: string, capsules: seq<Capsule>, s: Row, capsule: Capsule, i: nat)
    requires IsChain(c, chat, ChatRows(was.versions, chat), capsules)
    requires s in was.versions && DecodeRow(c, s) == Decodes(capsule) && capsule.chatId == chat && capsule.versionNumber == i + 1
    ensures i < |capsules| && capsule == capsules[i]
  {
    DecodedNames(c, s);
    var j := RowHasPlace(c, was, chat, capsules, s);
  }

  /** A chain read off tampered rows is the beginning of the chain that was written. */
  lemma TamperedPlace(c: Codec, now: Tables, was: Tables, chat: string, capsules: seq<Capsule>, rows: seq<Row>, found: seq<Capsule>, i: nat)
    requires Sound(c) && Intact(c, was) && TamperedFrom(now, was, chat)
    requires IsChain(c, chat, ChatRows(was.versions, chat), capsules)
    requires (forall r :: r in rows ==> r in now.versions) && IsChain(c, chat, rows, found) && i < |found|
    ensures i < |capsules| && found[i] == capsules[i]
  {
    assert IsLink(c, chat, rows, found, i) && rows[i] in rows;
    var s := TamperedRow(c, now, was, chat, rows[i]);
    WrittenPlace(c, was, chat, capsules, s, found[i], i);
  }

  lemma TamperedPrefix(c: Codec, now: Tables, was: Tables, chat: string, capsules: seq<Capsule>, rows: seq<Row>, found: seq<Capsule>)
    requires Sound(c) && Intact(c, was) && TamperedFrom(now, was, chat)
    requires IsChain(c, chat, ChatRows(was.versions, chat), capsules)
    requires (forall r :: r in rows ==> r in now.versions) && IsChain(c, chat, rows, found)
    ensures found <= capsules
  {
    forall i: nat | i < |found| ensures i < |capsules| && found[i] == capsules[i] {
      TamperedPlace(c, now, was, chat, capsules, rows, found, i);
    }
    if found != [] {
      var last := found[|found| - 1];
    }
    assert |found| <= |capsules| && forall i: nat :: i < |found| ==> found[i] == capsules[i];
  }

  /** A prefix of a chain that ends in the same version id is the whole chain. */
  lemma SameLastSameChain(c: Codec, versions: seq<Row>, chat: string, capsules: seq<Capsule>, found: seq<Capsule>)
    requires PrimaryKey(versions) && IsChain(c, chat, ChatRows(versions, chat), capsules)
    requires found <= capsules && LastVersion(found) == LastVersion(capsules)
    ensures found == capsules
  {
    if |found| < |capsules| {
      ChatRowsMembers(versions, chat);
      CapsuleRuns.DistinctPlacesDistinctIds(c, versions, chat, ChatRows(versions, chat), capsules, |found| - 1, |capsules| - 1);
    }
  }

  /** A tampered table that still validates holds, for this chat, exactly the capsules that were written. */
  lemma AcceptedMeansIntact(c: Codec, now: Tables, was: Tables, chat: string, capsules: seq<Capsule>, found: seq<Capsule>)
    requires Sound(c) && Intact(c, was) && PrimaryKey(was.versions) && TamperedFrom(now, was, chat)
    requires Validate(c, was, chat) == Accepted(capsules) && Validate(c, now, chat) == Accepted(found)
    ensures found == capsules
  {
    AcceptedIffChain(c, chat, ChatRows(was.versions, chat), HeadOf(was.heads, chat), capsules);
    AcceptedIffChain(c, chat, ChatRows(now.versions, chat), HeadOf(now.heads, chat), found);
    ChatRowsMembers(now.versions, chat);
    TamperedPrefix(c, now, was, chat, capsules, ChatRows(now.versions, chat), found);
    SameLastSameChain(c, was.versions, chat, capsules, found);
  }

  /** In query order, the first `i` rows are a beginning of the chain that was written, and row `i` trips the decoder. */
  ghost predicate TripsAt(c: Codec, rows: seq<Row>, chat: string, capsules: seq<Capsule>, i: nat) {
    i < |rows| && i <= |capsules| && Trips(c, rows[i]) && IsChain(c, chat, rows[..i], capsules[..i])
  }

  /** The chat's rows begin as they were written, up to a row whose payload hash and mode hold but whose version number
      cannot be read. */
  ghost predicate Tripped(c: Codec, t: Tables, chat: string, capsules: seq<Capsule>) {
    exists i: nat :: TripsAt(c, ChatRows(t.versions, chat), chat, capsules, i)
  }

  lemma RaisedMeansTripped(c: Codec, now: Tables, was: Tables, chat: string, capsules: seq<Capsule>, rows: seq<Row>, j: nat, found: seq<Capsule>)
    requires Sound(c) && Intact(c, was) && TamperedFrom(now, was, chat)
    requires IsChain(c, chat, ChatRows(was.versions, chat), capsules)
    requires (forall r :: r in rows ==> r in now.versions) && RaisesAt(c, chat, rows, j, found)
    ensures TripsAt(c, rows, chat, capsules, j)
  {
    assert rows[j] in rows;
    var s := TamperedRow(c, now, was, chat, rows[j]);
    TamperedPrefix(c, now, was, chat, capsules, rows[..j], found);
    assert found == capsules[..j];
  }

  lemma TrippedMeansRaised(c: Codec, now: Tables, was: Tables, chat: string, capsules: seq<Capsule>, rows: seq<Row>, i: nat)
    requires Sound(c) && Intact(c, was) && TamperedFrom(now, was, chat)
    requires (forall r :: r in rows ==> r in now.versions) && TripsAt(c, rows, chat, capsules, i)
    ensures RaisesAt(c, chat, rows, i, capsules[..i])
  {
    assert rows[i] in rows;
    var s := TamperedRow(c, now, was, chat, rows[i]);
  }

  /** Tampering makes the validator raise if and only if it leaves such a row behind an unharmed beginning of the chain. */
  lemma TamperingRaisesIff(c: Codec, now: Tables, was: Tables, chat: string, capsules: seq<Capsule>)
    requires Sound(c) && Intact(c, was) && TamperedFrom(now, was, chat) && Validate(c, was, chat) == Accepted(capsules)
    ensures Validate(c, now, chat) == ValidatorRaises <==> Tripped(c, now, chat, capsules)
  {
    AcceptedIffChain(c, chat, ChatRows(was.versions, chat), HeadOf(was.heads, chat), capsules);
    TamperedRowsRaiseIff(c, now, was, chat, capsules);
  }

  lemma TamperedRowsRaiseIff(c: Codec, now: Tables, was: Tables, chat: string, capsules: seq<Capsule>)
    requires Sound(c) && Intact(c, was) && TamperedFrom(now, was, chat) && IsChain(c, chat, ChatRows(was.versions, chat), capsules)
    ensures Validate(c, now, chat) == ValidatorRaises <==> Tripped(c, now, chat, capsules)
  {
    var rows := ChatRows(now.versions, chat);
    ChatRowsMembers(now.versions, chat);
    ValidatorRaisesIff(c, chat, rows, HeadOf(now.heads, chat));
    if j: nat, found :| RaisesAt(c, chat, rows, j, found) {
      RaisedMeansTripped(c, now, was, chat, capsules, rows, j, found);
    }
    if i: nat :| TripsAt(c, rows, chat, capsules, i) {
      TrippedMeansRaised(c, now, was, chat, capsules, rows, i);
    }
  }

  lemma TamperingLeavesHashes(c: Codec, now: Tables, was: Tables, chat: string)
    requires Intact(c, was) && TamperedFrom(now, was, chat)
    ensures !HashMissing(now.versions)
  {
    forall i | 0 <= i < |now.versions| ensures now.versions[i].recordHash != "" {
      var r := now.versions[i];
      assert r in now.versions;
      var s :| s in was.versions && s.recordHash == r.recordHash;
      assert DecodeRow(c, s).Decodes?;
    }
  }

  /** Loading after any tampering raises exactly where the validator trips; otherwise it returns the last capsule as it was
      written, or nothing. */
  lemma LoadReturnsWrittenOrNothing(c: Codec, now: Tables, was: Tables, chat: string, clean: string, capsules: seq<Capsule>)
    requires Sound(c) && Intact(c, was) && PrimaryKey(was.versions)
    requires clean == Text.Strip(chat) && TamperedFrom(now, was, clean)
    requires Validate(c, was, clean) == Accepted(capsules)
    ensures if clean != "" && Tripped(c, now, clean, capsules) then CapsuleStore.LatestOf(c, now, chat) == Err(ChainUnreadable)
            else CapsuleStore.LatestOf(c, now, chat) in {Ok(None), Ok(LastCapsule(capsules))}
  {
    TamperingLeavesHashes(c, now, was, clean);
    TamperingRaisesIff(c, now, was, clean, capsules);
    var verdict := Validate(c, now, clean);
    if verdict.Accepted? {
      AcceptedMeansIntact(c, now, was, clean, capsules, verdict.capsules);
    }
  }

  /** What the validator says of a chain that it must not accept. */
  ghost predicate TurnedDown(c: Codec, t: Tables, chat: string, capsules: seq<Capsule>) {
    Validate(c, t, chat) == if Tripped(c, t, chat, capsules) then ValidatorRaises else Invalid
  }

  /** After deleting one or more of a chat's rows validation never accepts: it rejects, or raises where it trips. */
  lemma DeletionIsRejected(c: Codec, now: Tables, was: Tables, chat: string, capsules: seq<Capsule>)
    requires Sound(c) && Intact(c, was) && PrimaryKey(was.versions) && TamperedFrom(now, was, chat)
    requires Validate(c, was, chat) == Accepted(capsules)
    requires |ChatRows(now.versions, chat)| < |ChatRows(was.versions, chat)|
    ensures TurnedDown(c, now, chat, capsules)
  {
    TamperingRaisesIff(c, now, was, chat, capsules);
    var verdict := Validate(c, now, chat);
    if verdict.Accepted? {
      AcceptedMeansIntact(c, now, was, chat, capsules, verdict.capsules);
      AcceptedIffChain(c, chat, ChatRows(was.versions, chat), HeadOf(was.heads, chat), capsules);
      AcceptedIffChain(c, chat, ChatRows(now.versions, chat), HeadOf(now.heads, chat), verdict.capsules);
    }
  }

  lemma {:induction false} ChatRowsCount(table: seq<Row>, k: nat, row: Row, chat: string)
    requires k < |table| && table[k].fields.chatId == chat
    ensures |ChatRows(table[k := row], chat)| == |ChatRows(table, chat)| - (if row.fields.chatId == chat then 0 else 1)
  {
    var edited := table[k := row];
    InsertMembers(table[0], ChatRows(table[1..], chat));
    InsertMembers(edited[0], ChatRows(edited[1..], chat));
    if k == 0 {
      assert edited[1..] == table[1..];
    } else {
      assert edited[1..] == table[1..][k - 1 := row];
      ChatRowsCount(table[1..], k - 1, row, chat);
    }
  }

  function Edited(was: Tables, k: nat, edited: Fields): Tables
    requires k < |was.versions|
  {
    was.(versions := was.versions[k := was.versions[k].(fields := edited)])
  }

  /** After editing any column of one of a chat's rows, its `record_hash` aside, so that it does not decode as before,
      moving it to another chat included, validation never accepts: it rejects, or raises where it trips. */
  lemma EditIsRejected(c: Codec, was: Tables, chat: string, capsules: seq<Capsule>, k: nat, edited: Fields)
    requires Sound(c) && Intact(c, was) && PrimaryKey(was.versions)
    requires Validate(c, was, chat) == Accepted(capsules)
    requires k < |was.versions| && was.versions[k].fields.chatId == chat
    requires DecodeRow(c, was.versions[k].(fields := edited)) != DecodeRow(c, was.versions[k])
    ensures TurnedDown(c, Edited(was, k, edited), chat, capsules)
  {
    var original, row := was.versions[k], was.versions[k].(fields := edited);
    var now := Edited(was, k, edited);
    EditKeepsHashes(was, k, edited, chat);
    if edited.chatId != chat {
      ChatRowsCount(was.versions, k, row, chat);
      DeletionIsRejected(c, now, was, chat, capsules);
    } else {
      TamperingRaisesIff(c, now, was, chat, capsules);
      EditedRowIsNotWritten(c, original, row);
      assert now.versions[k] == row;
      if Validate(c, now, chat).Accepted? {
        AcceptedRowDecodes(c, now, chat, row);
      }
    }
  }

  lemma EditedRowIsNotWritten(c: Codec, original: Row, row: Row)
    requires Sound(c) && DecodeRow(c, original).Decodes? && row.recordHash == original.recordHash
    requires DecodeRow(c, row) != DecodeRow(c, original)
    ensures !DecodeRow(c, row).Decodes?
  {
    if DecodeRow(c, row).Decodes? {
      SameHashSameCapsule(c, row, original);
    }
  }

  lemma EditKeepsHashes(was: Tables, k: nat, edited: Fields, chat: string)
    requires k < |was.versions|
    ensures TamperedFrom(Edited(was, k, edited), was, chat)
  {
    var versions := was.versions[k := was.versions[k].(fields := edited)];
    forall r | r in versions ensures exists s :: s in was.versions && s.recordHash == r.recordHash {
      var i :| 0 <= i < |versions| && versions[i] == r;
      assert was.versions[i] in was.versions;
    }
  }

  /** What a run leaves behind is intact, so all of the above applies to it. */
  lemma RunsAreIntact(c: Codec, start: CapsuleRuns.World, steps: seq<CapsuleRuns.Step>)
    requires Sound(c) && CapsuleRuns.Founded(c, start)
    ensures var t := CapsuleRuns.Run(c, start, steps).tables; Intact(c, t) && PrimaryKey(t.versions)
  {
    var w := CapsuleRuns.Run(c, start, steps);
    CapsuleRuns.RunHolds(c, start, steps);
    forall r | r in w.tables.versions ensures DecodeRow(c, r).Decodes? {
      assert CapsuleRuns.ChatHolds(c, w, r.fields.chatId);
      AcceptedRowDecodes(c, w.tables, r.fields.chatId, r);
    }
  }

  // ----- one row whose number is text -----

  /** The chat "chat" after its first turn, with the version number stored as `v`. */
  function FirstVersionAs(c: Codec, a: CreateCall, project: string, v: Column): Tables {
    var row := PendingRow(c, a, project, None);
    Tables([row.(fields := row.fields.(versionNumber := v))], map["chat" := VersionId(a)])
  }

  lemma FirstVersionRows(c: Codec, a: CreateCall, project: string, v: Column)
    requires a.chat == "chat"
    ensures var t := FirstVersionAs(c, a, project, v); ChatRows(t.versions, "chat") == t.versions
  {
    var t := FirstVersionAs(c, a, project, v);
    assert ChatRows(t.versions[1..], "chat") == [];
  }

  /** A first version stored as anything that reads as 1 validates. */
  lemma ReadableFirstVersionValidates(c: Codec, a: CreateCall, project: string, v: Column)
    requires Sound(c) && a.chat == "chat" && Effective(c, v) == Some(1)
    ensures Validate(c, FirstVersionAs(c, a, project, v), "chat") == Accepted([PendingCapsule(c, a, project, None)])
  {
    var t, capsule := FirstVersionAs(c, a, project, v), PendingCapsule(c, a, project, None);
    FirstVersionRows(c, a, project, v);
    NewRowDecodes(c, None, a.turn, Verified(c, a.ledger, a.chat, project), t.versions[0].fields, v, a.chat, project, VersionId(a), a.createdAt);
    assert IsLink(c, "chat", t.versions, [capsule], 0);
    AcceptedIffChain(c, "chat", t.versions, Some(VersionId(a)), [capsule]);
  }

  lemma UnreadableFirstVersionRaises(c: Codec, a: CreateCall, project: string, v: Column)
    requires a.chat == "chat" && Effective(c, v) == None && RecordHash(c, PendingFields(c, a, project, None), 1) != ""
    ensures Validate(c, FirstVersionAs(c, a, project, v), "chat") == ValidatorRaises
  {
    var t := FirstVersionAs(c, a, project, v);
    FirstVersionRows(c, a, project, v);
    assert t.versions[..0] == [];
    assert RaisesAt(c, "chat", t.versions, 0, []);
    ValidatorRaisesIff(c, "chat", t.versions, HeadOf(t.heads, "chat"));
  }

  lemma LoadingRaises(c: Codec, t: Tables)
    requires Validate(c, t, "chat") == ValidatorRaises && !HashMissing(t.versions)
    ensures CapsuleStore.LatestOf(c, t, "chat") == Err(ChainUnreadable)
  {
    assert Text.Strip("chat") == "chat";
  }

  lemma FirstVersionIsHashed(c: Codec, a: CreateCall, project: string, v: Column, w: Column)
    requires SoundHash(c)
    ensures RecordHash(c, PendingFields(c, a, project, None), 1) != ""
    ensures !HashMissing(FirstVersionAs(c, a, project, v).versions)
    ensures TamperedFrom(FirstVersionAs(c, a, project, v), FirstVersionAs(c, a, project, w), "chat")
  {
    var was, now := FirstVersionAs(c, a, project, w), FirstVersionAs(c, a, project, v);
    assert was.versions[0] in was.versions && now.versions[0].recordHash == was.versions[0].recordHash;
  }

  /** Setting the version number of a chat's only row to something that cannot be read, the text "x" or a number beyond
      the range of floats, and changing nothing else, makes loading raise. */
  lemma UnreadableNumberMakesLoadingRaise(c: Codec, a: CreateCall, project: string, v: Column)
    requires Sound(c) && a.chat == "chat" && ((v == Words("x") && c.toInt(v) == None) || v == Infinite(false))
    ensures Validate(c, FirstVersionAs(c, a, project, Whole(1)), "chat") == Accepted([PendingCapsule(c, a, project, None)])
    ensures TamperedFrom(FirstVersionAs(c, a, project, v), FirstVersionAs(c, a, project, Whole(1)), "chat")
    ensures CapsuleStore.LatestOf(c, FirstVersionAs(c, a, project, v), "chat") == Err(ChainUnreadable)
  {
    ReadableFirstVersionValidates(c, a, project, Whole(1));
    FirstVersionIsHashed(c, a, project, v, Whole(1));
    UnreadableFirstVersionRaises(c, a, project, v);
    LoadingRaises(c, FirstVersionAs(c, a, project, v));
  }

  /** Setting it to empty text leaves a chain that validates and to which no further version can be added. */
  lemma EmptyTextBlocksCreates(c: Codec, a: CreateCall, project: string, b: CreateCall, namespaces: map<string, Namespace>)
    requires Sound(c) && a.chat == "chat" && b.chat == "chat" && VersionId(a) != VersionId(b)
    requires b.observed == Some(Namespace(project, "active")) && Text.Strip(b.project) == "" && b.fault == NoFault
    requires b.turn.requestedReceipts == [] && namespaces == map["chat" := Namespace(project, "active")]
    ensures var t := FirstVersionAs(c, a, project, Words(""));
            && Validate(c, t, "chat") == Accepted([PendingCapsule(c, a, project, None)])
            && CreateOutcome(c, t, namespaces, b) == Err(WriteValidationFailed)
  {
    var t := FirstVersionAs(c, a, project, Words(""));
    var capsules := [PendingCapsule(c, a, project, None)];
    ReadableFirstVersionValidates(c, a, project, Words(""));
    FirstVersionIsHashed(c, a, project, Words(""), Whole(1));
    CreateReachesWrites(c, t, namespaces, b, project, capsules);
    FirstVersionHoldsText(c, a, project, b);
  }

  lemma FirstVersionHoldsText(c: Codec, a: CreateCall, project: string, b: CreateCall)
    requires VersionId(a) != VersionId(b)
    ensures var versions := FirstVersionAs(c, a, project, Words("")).versions;
            !UsesVersionId(versions, VersionId(b)) && (a.chat == "chat" ==> HoldsText(versions, "chat"))
  {
    var versions := FirstVersionAs(c, a, project, Words("")).versions;
    assert StorageRank(versions[0].fields.versionNumber) == 3;
  }
}

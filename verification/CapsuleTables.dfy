/** The two capsule tables as values, and what one successful create does to them. */
module CapsuleTables {
  import opened Wrappers
  import opened CapsuleRecords
  import opened CapsuleChain
  import opened CapsuleBuild
  import opened CapsuleReceipts
  import Text

  datatype Tables = Tables(versions: seq<Row>, heads: map<string, string>)

  datatype Namespace = Namespace(projectId: string, lifecycleState: string)

  function HeadOf(heads: map<string, string>, chat: string): Option<string> {
    if chat in heads then Some(heads[chat]) else None
  }

  function Validate(c: Codec, t: Tables, chat: string): Verdict {
    VerdictOn(c, chat, ChatRows(t.versions, chat), HeadOf(t.heads, chat))
  }

  /** The INSERT would break PRIMARY KEY(version_id) or UNIQUE(chat_id, version_number). */
  predicate Clashes(versions: seq<Row>, f: Fields) {
    exists i :: 0 <= i < |versions| &&
      (versions[i].fields.versionId == f.versionId
       || (versions[i].fields.chatId == f.chatId && versions[i].fields.versionNumber == f.versionNumber))
  }

  predicate UsesVersionId(versions: seq<Row>, versionId: string) {
    exists i :: 0 <= i < |versions| && versions[i].fields.versionId == versionId
  }

  /** A version number of the chat is stored as text or bytes. */
  predicate HoldsText(versions: seq<Row>, chat: string) {
    exists i :: 0 <= i < |versions| && versions[i].fields.chatId == chat && StorageRank(versions[i].fields.versionNumber) > 2
  }

  /** Where the storage engine gives up on a write, if it does. */
  datatype Fault = NoFault | AtInsert | AtHead | AtCommit

  /** One call of `create_shadow_capsule`: its arguments, the namespace it read BEFORE its transaction, the
      stored receipts, the random part of the version id, the time, and what the engine does to it. */
  datatype CreateCall = CreateCall(
    chat: string,
    project: string,
    turn: Turn,
    observed: Option<Namespace>,
    ledger: Ledger,
    nonce: string,
    createdAt: string,
    fault: Fault)

  datatype CreateError = NoNamespace | ChatNotActive | ProjectMismatch | RecordHashMissing | ChainCorrupt
                       | ChainUnreadable | ReceiptUnreadable | EngineFailed | WriteValidationFailed

  function VersionId(a: CreateCall): string {
    "capsule-" + a.nonce
  }

  function LastCapsule(capsules: seq<Capsule>): Option<Capsule> {
    if capsules == [] then None else Some(capsules[|capsules| - 1])
  }

  function PendingBody(c: Codec, a: CreateCall, project: string, previous: Option<Capsule>): Body {
    NewBody(c, previous, a.turn, Verified(c, a.ledger, a.chat, project))
  }

  function PendingFields(c: Codec, a: CreateCall, project: string, previous: Option<Capsule>): Fields {
    NewFields(c, a.chat, project, previous, PendingBody(c, a, project, previous), a.turn, VersionId(a), a.createdAt)
  }

  function PendingRow(c: Codec, a: CreateCall, project: string, previous: Option<Capsule>): Row {
    var f := PendingFields(c, a, project, previous);
    Row(f, RecordHash(c, f, NextNumber(previous)))
  }

  function PendingCapsule(c: Codec, a: CreateCall, project: string, previous: Option<Capsule>): Capsule {
    var f := PendingFields(c, a, project, previous);
    NewCapsule(f, NextNumber(previous), RecordHash(c, f, NextNumber(previous)), PendingBody(c, a, project, previous))
  }

  predicate HashMissing(versions: seq<Row>) {
    exists i :: 0 <= i < |versions| && versions[i].recordHash == ""
  }

  /** Reading the record of some requested receipt raises. */
  predicate SomeReceiptRaises(c: Codec, a: CreateCall) {
    exists i :: 0 <= i < |a.turn.requestedReceipts| && ReceiptRaises(c, a.ledger, a.turn.requestedReceipts[i], a.chat)
  }

  /** What the writes of a create on an accepted chain come to. The validation after them fails exactly where the chat
      holds a version number as text or bytes: the new number then sorts before it. */
  function WriteOutcome(c: Codec, versions: seq<Row>, a: CreateCall, project: string, capsules: seq<Capsule>): Result<Capsule, CreateError> {
    if a.fault in {AtInsert, AtHead} || UsesVersionId(versions, VersionId(a)) then Err(EngineFailed)
    else if HoldsText(versions, a.chat) then Err(WriteValidationFailed)
    else if a.fault == AtCommit then Err(EngineFailed)
    else Ok(PendingCapsule(c, a, project, LastCapsule(capsules)))
  }

  /** What a create comes to. */
  function CreateOutcome(c: Codec, t: Tables, namespaces: map<string, Namespace>, a: CreateCall): Result<Capsule, CreateError> {
    if a.observed == None then Err(NoNamespace)
    else if a.observed.value.lifecycleState != "active" then Err(ChatNotActive)
    else if Text.Strip(a.project) != "" && Text.Strip(a.project) != a.observed.value.projectId then Err(ProjectMismatch)
    else if HashMissing(t.versions) then Err(RecordHashMissing)
    else if a.chat !in namespaces || namespaces[a.chat].lifecycleState != "active" then Err(ChatNotActive)
    else match Validate(c, t, a.chat)
      case Invalid => Err(ChainCorrupt)
      case ValidatorRaises => Err(ChainUnreadable)
      case Accepted(capsules) =>
        if SomeReceiptRaises(c, a) then Err(ReceiptUnreadable)
        else WriteOutcome(c, t.versions, a, namespaces[a.chat].projectId, capsules)
  }

  function WithPending(c: Codec, t: Tables, a: CreateCall, project: string, capsules: seq<Capsule>): Tables {
    Tables(t.versions + [PendingRow(c, a, project, LastCapsule(capsules))], t.heads[a.chat := VersionId(a)])
  }

  function AfterCreate(c: Codec, t: Tables, namespaces: map<string, Namespace>, a: CreateCall): Tables {
    if CreateOutcome(c, t, namespaces, a).Ok? then
      WithPending(c, t, a, namespaces[a.chat].projectId, Validate(c, t, a.chat).capsules)
    else t
  }

  /** A create that passes every check before its writes comes to what its writes come to. */
  lemma CreateReachesWrites(c: Codec, t: Tables, namespaces: map<string, Namespace>, a: CreateCall, project: string, capsules: seq<Capsule>)
    requires a.observed == Some(Namespace(project, "active")) && Text.Strip(a.project) == ""
    requires a.chat in namespaces && namespaces[a.chat] == Namespace(project, "active")
    requires !HashMissing(t.versions) && Validate(c, t, a.chat) == Accepted(capsules) && !SomeReceiptRaises(c, a)
    ensures CreateOutcome(c, t, namespaces, a) == WriteOutcome(c, t.versions, a, project, capsules)
  {
  }

  /** What a create that returns found, and what it leaves. */
  lemma CreateFacts(c: Codec, t: Tables, namespaces: map<string, Namespace>, a: CreateCall) returns (project: string, capsules: seq<Capsule>)
    requires CreateOutcome(c, t, namespaces, a).Ok?
    ensures a.observed.Some? && (Text.Strip(a.project) != "" ==> Text.Strip(a.project) == a.observed.value.projectId)
    ensures a.chat in namespaces && project == namespaces[a.chat].projectId && Validate(c, t, a.chat) == Accepted(capsules)
    ensures !HoldsText(t.versions, a.chat) && !UsesVersionId(t.versions, VersionId(a))
    ensures CreateOutcome(c, t, namespaces, a).value == PendingCapsule(c, a, project, LastCapsule(capsules))
    ensures AfterCreate(c, t, namespaces, a) == WithPending(c, t, a, project, capsules)
  {
    project, capsules := namespaces[a.chat].projectId, Validate(c, t, a.chat).capsules;
  }

  // ----- a create extends an accepted chain by one link -----

  /** A number read as `k` at most is stored below every larger one, unless it is stored as text or bytes. */
  lemma ReadNumberIsLow(c: Codec, v: Column, k: nat, n: int)
    requires Effective(c, v) == Some(k) && 1 <= k < n
    ensures v != Whole(n)
    ensures StorageRank(v) <= 2 ==> ColumnBefore(v, Whole(n))
  {
  }

  /** Every stored row of an accepted chat reads as one of its versions. */
  lemma AcceptedNumberIsRead(c: Codec, t: Tables, chat: string, capsules: seq<Capsule>, row: Row) returns (k: nat)
    requires Validate(c, t, chat) == Accepted(capsules) && row in t.versions && row.fields.chatId == chat
    ensures 1 <= k <= |capsules| && Effective(c, row.fields.versionNumber) == Some(k)
  {
    AcceptedIffChain(c, chat, ChatRows(t.versions, chat), HeadOf(t.heads, chat), capsules);
    k := ChainNumberIsRead(c, t, chat, capsules, row);
  }

  lemma ChainNumberIsRead(c: Codec, t: Tables, chat: string, capsules: seq<Capsule>, row: Row) returns (k: nat)
    requires IsChain(c, chat, ChatRows(t.versions, chat), capsules) && row in t.versions && row.fields.chatId == chat
    ensures 1 <= k <= |capsules| && Effective(c, row.fields.versionNumber) == Some(k)
  {
    var i := RowHasPlace(c, t, chat, capsules, row);
    DecodedNames(c, row);
    k := i + 1;
  }

  /** In an accepted chat of `n` rows without text for a number, every stored version number is below `n + 1`. */
  lemma AcceptedVersionsAreLow(c: Codec, t: Tables, chat: string, capsules: seq<Capsule>)
    requires Validate(c, t, chat) == Accepted(capsules) && !HoldsText(t.versions, chat)
    ensures forall r :: r in t.versions && r.fields.chatId == chat ==> ColumnBefore(r.fields.versionNumber, Whole(|capsules| + 1))
  {
    forall r | r in t.versions && r.fields.chatId == chat ensures ColumnBefore(r.fields.versionNumber, Whole(|capsules| + 1)) {
      var i :| 0 <= i < |t.versions| && t.versions[i] == r;
      var k := AcceptedNumberIsRead(c, t, chat, capsules, r);
      ReadNumberIsLow(c, r.fields.versionNumber, k, |capsules| + 1);
    }
  }

  lemma AcceptedNextNumber(c: Codec, t: Tables, chat: string, capsules: seq<Capsule>)
    requires Validate(c, t, chat) == Accepted(capsules)
    ensures NextNumber(LastCapsule(capsules)) == |capsules| + 1
  {
    if capsules != [] {
      AcceptedVersionNumber(c, t, chat, capsules, |capsules| - 1);
    }
  }

  lemma AcceptedVersionNumber(c: Codec, t: Tables, chat: string, capsules: seq<Capsule>, i: nat)
    requires Validate(c, t, chat) == Accepted(capsules) && i < |capsules|
    ensures capsules[i].versionNumber == i + 1
  {
    AcceptedIffChain(c, chat, ChatRows(t.versions, chat), HeadOf(t.heads, chat), capsules);
    assert IsLink(c, chat, ChatRows(t.versions, chat), capsules, i);
  }

  lemma VerdictVersionNumber(c: Codec, t: Tables, chat: string, i: nat)
    requires Validate(c, t, chat).Accepted? && i < |Validate(c, t, chat).capsules|
    ensures Validate(c, t, chat).capsules[i].versionNumber == i + 1
  {
    AcceptedVersionNumber(c, t, chat, Validate(c, t, chat).capsules, i);
  }

  /** Every stored row of an accepted chat is one of its links. */
  lemma RowHasPlace(c: Codec, t: Tables, chat: string, capsules: seq<Capsule>, row: Row) returns (i: nat)
    requires IsChain(c, chat, ChatRows(t.versions, chat), capsules)
    requires row in t.versions && row.fields.chatId == chat
    ensures i < |capsules| && ChatRows(t.versions, chat)[i] == row
    ensures DecodeRow(c, row) == Decodes(capsules[i]) && capsules[i].versionNumber == i + 1
  {
    var rows := ChatRows(t.versions, chat);
    ChatRowsMembers(t.versions, chat);
    i :| i < |rows| && rows[i] == row;
    assert IsLink(c, chat, rows, capsules, i);
  }

  lemma AcceptedRowDecodes(c: Codec, t: Tables, chat: string, row: Row)
    requires Validate(c, t, chat).Accepted? && row in t.versions && row.fields.chatId == chat
    ensures DecodeRow(c, row).Decodes?
  {
    var capsules := Validate(c, t, chat).capsules;
    AcceptedIffChain(c, chat, ChatRows(t.versions, chat), HeadOf(t.heads, chat), capsules);
    var i := RowHasPlace(c, t, chat, capsules, row);
  }

  lemma ChainExtends(c: Codec, chat: string, rows: seq<Row>, capsules: seq<Capsule>, row: Row, capsule: Capsule)
    requires IsChain(c, chat, rows, capsules)
    requires DecodeRow(c, row) == Decodes(capsule)
    requires capsule.chatId == chat && capsule.versionNumber == |capsules| + 1
    requires capsule.previousVersionId == if capsules == [] then "" else capsules[|capsules| - 1].versionId
    ensures IsChain(c, chat, rows + [row], capsules + [capsule])
  {
    forall i: nat | i < |rows| + 1 ensures IsLink(c, chat, rows + [row], capsules + [capsule], i) {
      if i < |rows| {
        assert IsLink(c, chat, rows, capsules, i);
      }
    }
  }

  /** The pending row decodes to the pending capsule, which is the next link. */
  lemma PendingRowIsNextLink(c: Codec, t: Tables, a: CreateCall, project: string, capsules: seq<Capsule>)
    requires Sound(c) && Validate(c, t, a.chat) == Accepted(capsules)
    ensures var row, capsule := PendingRow(c, a, project, LastCapsule(capsules)), PendingCapsule(c, a, project, LastCapsule(capsules));
            && DecodeRow(c, row) == Decodes(capsule)
            && row.fields.chatId == capsule.chatId == a.chat
            && row.fields.versionNumber == Whole(|capsules| + 1) && capsule.versionNumber == |capsules| + 1
            && capsule.versionId == VersionId(a)
            && capsule.previousVersionId == if capsules == [] then "" else capsules[|capsules| - 1].versionId
  {
    var previous := LastCapsule(capsules);
    AcceptedNextNumber(c, t, a.chat, capsules);
    NewRowDecodes(c, previous, a.turn, Verified(c, a.ledger, a.chat, project), PendingFields(c, a, project, previous),
                  Whole(NextNumber(previous)), a.chat, project, VersionId(a), a.createdAt);
  }

  lemma NextLinkExtends(c: Codec, t: Tables, chat: string, capsules: seq<Capsule>, row: Row, capsule: Capsule)
    requires Validate(c, t, chat) == Accepted(capsules) && DecodeRow(c, row) == Decodes(capsule) && !HoldsText(t.versions, chat)
    requires row.fields.chatId == capsule.chatId == chat
    requires row.fields.versionNumber == Whole(|capsules| + 1) && capsule.versionNumber == |capsules| + 1
    requires capsule.previousVersionId == if capsules == [] then "" else capsules[|capsules| - 1].versionId
    ensures Validate(c, Tables(t.versions + [row], t.heads[chat := capsule.versionId]), chat) == Accepted(capsules + [capsule])
  {
    var rows := ChatRows(t.versions, chat);
    AcceptedVersionsAreLow(c, t, chat, capsules);
    AcceptedIffChain(c, chat, rows, HeadOf(t.heads, chat), capsules);
    ChainExtends(c, chat, rows, capsules, row, capsule);
    ChatRowsAppend(t.versions, row, chat);
    AcceptedIffChain(c, chat, rows + [row], Some(capsule.versionId), capsules + [capsule]);
  }

  /** The row of the highest version ends its chain, so nothing in it is of a higher storage class. */
  lemma HighestVersionIsLast(c: Codec, chat: string, rows: seq<Row>, found: seq<Capsule>, row: Row, r: Row)
    requires IsChain(c, chat, rows, found) && RankSorted(rows) && row in rows && r in rows
    requires DecodeRow(c, row).Decodes? && DecodeRow(c, row).capsule.versionNumber == |rows|
    ensures StorageRank(r.fields.versionNumber) <= StorageRank(row.fields.versionNumber)
  {
    var p: nat :| p < |rows| && rows[p] == row;
    var q: nat :| q < |rows| && rows[q] == r;
    PlaceIsNumber(c, chat, rows, found, p);
    LastRanksHighest(rows, p, q);
  }

  lemma LastRanksHighest(rows: seq<Row>, p: nat, q: nat)
    requires RankSorted(rows) && q <= p < |rows|
    ensures StorageRank(rows[q].fields.versionNumber) <= StorageRank(rows[p].fields.versionNumber)
  {
  }

  lemma PlaceIsNumber(c: Codec, chat: string, rows: seq<Row>, found: seq<Capsule>, p: nat)
    requires IsChain(c, chat, rows, found) && p < |rows| && DecodeRow(c, rows[p]).Decodes?
    ensures DecodeRow(c, rows[p]).capsule.versionNumber == p + 1
  {
    assert IsLink(c, chat, rows, found, p);
  }

  /** Behind a number stored as text the next link is not last in the ordered query, so the chain with it does not validate. */
  lemma TextBlocksNextLink(c: Codec, t: Tables, chat: string, capsules: seq<Capsule>, row: Row, capsule: Capsule, after: Tables)
    requires Validate(c, t, chat) == Accepted(capsules) && DecodeRow(c, row) == Decodes(capsule) && HoldsText(t.versions, chat)
    requires row.fields.chatId == chat && row.fields.versionNumber.Number? && capsule.versionNumber == |capsules| + 1
    requires after.versions == t.versions + [row]
    ensures !Validate(c, after, chat).Accepted?
  {
    AcceptedIffChain(c, chat, ChatRows(t.versions, chat), HeadOf(t.heads, chat), capsules);
    var rows := ChatRows(after.versions, chat);
    ChatRowsOneMore(t.versions, row);
    ChatRowsSorted(after.versions, chat);
    ChatRowsMembers(after.versions, chat);
    var i :| 0 <= i < |t.versions| && t.versions[i].fields.chatId == chat && StorageRank(t.versions[i].fields.versionNumber) > 2;
    assert after.versions[i] == t.versions[i] && after.versions[|t.versions|] == row;
    if Validate(c, after, chat).Accepted? {
      BlockedChain(c, after, chat, row, t.versions[i]);
    }
  }

  lemma BlockedChain(c: Codec, after: Tables, chat: string, row: Row, r: Row)
    requires Validate(c, after, chat).Accepted? && RankSorted(ChatRows(after.versions, chat))
    requires row in ChatRows(after.versions, chat) && r in ChatRows(after.versions, chat)
    requires DecodeRow(c, row).Decodes? && DecodeRow(c, row).capsule.versionNumber == |ChatRows(after.versions, chat)|
    ensures StorageRank(r.fields.versionNumber) <= StorageRank(row.fields.versionNumber)
  {
    var rows, found := ChatRows(after.versions, chat), Validate(c, after, chat).capsules;
    AcceptedIffChain(c, chat, rows, HeadOf(after.heads, chat), found);
    HighestVersionIsLast(c, chat, rows, found, row, r);
  }

  /** Inserting the pending row and moving the head makes the chat's chain one longer, ending in the pending capsule, and it
      validates, if and only if the chat holds no version number as text or bytes. */
  lemma PendingRowExtends(c: Codec, t: Tables, a: CreateCall, project: string, capsules: seq<Capsule>)
    requires Sound(c) && Validate(c, t, a.chat) == Accepted(capsules)
    ensures !HoldsText(t.versions, a.chat) ==>
              Validate(c, WithPending(c, t, a, project, capsules), a.chat) == Accepted(capsules + [PendingCapsule(c, a, project, LastCapsule(capsules))])
    ensures HoldsText(t.versions, a.chat) ==> !Validate(c, WithPending(c, t, a, project, capsules), a.chat).Accepted?
  {
    var row, capsule := PendingRow(c, a, project, LastCapsule(capsules)), PendingCapsule(c, a, project, LastCapsule(capsules));
    PendingRowIsNextLink(c, t, a, project, capsules);
    if HoldsText(t.versions, a.chat) {
      TextBlocksNextLink(c, t, a.chat, capsules, row, capsule, WithPending(c, t, a, project, capsules));
    } else {
      NextLinkExtends(c, t, a.chat, capsules, row, capsule);
    }
  }

  /** The chat's chain validates and ends in this capsule. */
  predicate EndsIn(verdict: Verdict, capsule: Capsule) {
    verdict.Accepted? && verdict.capsules != [] && verdict.capsules[|verdict.capsules| - 1] == capsule
  }

  lemma WriteStandsIff(c: Codec, t: Tables, a: CreateCall, project: string, capsules: seq<Capsule>)
    requires Sound(c) && Validate(c, t, a.chat) == Accepted(capsules)
    ensures EndsIn(Validate(c, WithPending(c, t, a, project, capsules), a.chat), PendingCapsule(c, a, project, LastCapsule(capsules)))
       <==> !HoldsText(t.versions, a.chat)
  {
    PendingRowExtends(c, t, a, project, capsules);
  }

  /** The UNIQUE(chat_id, version_number) constraint never refuses a create. */
  lemma PendingNumberIsFree(c: Codec, t: Tables, a: CreateCall, project: string, capsules: seq<Capsule>)
    requires Validate(c, t, a.chat) == Accepted(capsules)
    ensures Clashes(t.versions, PendingFields(c, a, project, LastCapsule(capsules)))
       <==> UsesVersionId(t.versions, VersionId(a))
  {
    AcceptedNextNumber(c, t, a.chat, capsules);
    var f := PendingFields(c, a, project, LastCapsule(capsules));
    assert f.chatId == a.chat && f.versionId == VersionId(a) && f.versionNumber == Whole(|capsules| + 1);
    forall i | 0 <= i < |t.versions| && t.versions[i].fields.chatId == f.chatId
      ensures t.versions[i].fields.versionNumber != f.versionNumber
    {
      var k := AcceptedNumberIsRead(c, t, a.chat, capsules, t.versions[i]);
      ReadNumberIsLow(c, t.versions[i].fields.versionNumber, k, |capsules| + 1);
    }
  }
}

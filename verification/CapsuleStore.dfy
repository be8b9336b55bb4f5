/** The capsule store: create, erase, migrate and load over the version and head tables
    (core/active_context_capsule.py). Every operation is one transaction; a failure rolls it back. */
module CapsuleStore {
  import opened Wrappers
  import opened CapsuleRecords
  import opened CapsuleChain
  import opened CapsuleBuild
  import opened CapsuleReceipts
  import opened CapsuleTables
  import opened CapsuleErase
  import opened CapsuleBackfill
  import opened Json
  import Text

  class CapsuleStore {
    const codec: Codec
    var versions: seq<Row>
    var heads: map<string, string>
    var namespaces: map<string, Namespace>
    var updateTrigger: Option<string>  // SQL of context_capsule_versions_no_update
    var deleteTrigger: Option<string>  // SQL of context_capsule_versions_no_delete

    constructor (codec: Codec)
      ensures this.codec == codec && Stored() == Tables([], map[]) && namespaces == map[]
      ensures updateTrigger == None && deleteTrigger == None
    {
      this.codec := codec;
      versions, heads, namespaces := [], map[], map[];
      updateTrigger, deleteTrigger := None, None;
    }

    function Stored(): Tables
      reads this
    {
      Tables(versions, heads)
    }

    // ----- create_shadow_capsule -----

    /** A create that raises leaves both tables as they were; a create that returns has appended exactly the
        returned capsule's row and moved the head to it. */
    method Create(a: CreateCall) returns (r: Result<Capsule, CreateError>)
      requires Sound(codec)
      modifies this`versions, this`heads
      ensures r == CreateOutcome(codec, old(Stored()), namespaces, a)
      ensures Stored() == AfterCreate(codec, old(Stored()), namespaces, a)
    {
      if a.observed == None {
        return Err(NoNamespace);
      }
      if a.observed.value.lifecycleState != "active" {
        return Err(ChatNotActive);
      }
      var requested := Text.Strip(a.project);
      if requested != "" && requested != a.observed.value.projectId {
        return Err(ProjectMismatch);
      }
      if HashMissing(versions) {
        return Err(RecordHashMissing);
      }
      // BEGIN IMMEDIATE: from here to the return, no other writer runs.
      if a.chat !in namespaces || namespaces[a.chat].lifecycleState != "active" {
        return Err(ChatNotActive);
      }
      var verdict := ValidatedCapsuleChain(codec, a.chat, ChatRows(versions, a.chat), HeadOf(heads, a.chat));
      if verdict.ValidatorRaises? {
        return Err(ChainUnreadable);
      }
      if verdict.Invalid? {
        return Err(ChainCorrupt);
      }
      var unreadable := ReadReceipts(a);
      if unreadable {
        return Err(ReceiptUnreadable);
      }
      r := WriteVersion(a, namespaces[a.chat].projectId, verdict.capsules);
    }

    /** Every requested receipt is read before anything is written. */
    method ReadReceipts(a: CreateCall) returns (unreadable: bool)
      ensures unreadable <==> SomeReceiptRaises(codec, a)
    {
      for i := 0 to |a.turn.requestedReceipts|
        invariant forall j :: 0 <= j < i ==> !ReceiptRaises(codec, a.ledger, a.turn.requestedReceipts[j], a.chat)
      {
        if ReceiptRaises(codec, a.ledger, a.turn.requestedReceipts[i], a.chat) {
          return true;
        }
      }
      return false;
    }

    /** Whether the stored chain validates and ends in the capsule just written. */
    method IsWritten(capsule: Capsule) returns (written: bool)
      ensures written <==> EndsIn(Validate(codec, Stored(), capsule.chatId), capsule)
    {
      var verdict := ValidatedCapsuleChain(codec, capsule.chatId, ChatRows(versions, capsule.chatId), HeadOf(heads, capsule.chatId));
      written := verdict.Accepted? && verdict.capsules != [] && verdict.capsules[|verdict.capsules| - 1] == capsule;
    }

    /** The writes of a create on an accepted chain, the validation after them, and the commit. */
    method WriteVersion(a: CreateCall, project: string, capsules: seq<Capsule>) returns (r: Result<Capsule, CreateError>)
      requires Sound(codec) && Validate(codec, Stored(), a.chat) == Accepted(capsules)
      modifies this`versions, this`heads
      ensures r == WriteOutcome(codec, old(versions), a, project, capsules)
      ensures Stored() == if r.Err? then old(Stored()) else WithPending(codec, old(Stored()), a, project, capsules)
    {
      var savedVersions, savedHeads := versions, heads;
      var row := PendingRow(codec, a, project, LastCapsule(capsules));
      var capsule := PendingCapsule(codec, a, project, LastCapsule(capsules));
      PendingNumberIsFree(codec, Stored(), a, project, capsules);
      WriteStandsIff(codec, Stored(), a, project, capsules);
      if a.fault == AtInsert || Clashes(versions, row.fields) {
        return Err(EngineFailed);
      }
      versions := versions + [row];
      if a.fault == AtHead {
        versions := savedVersions;
        return Err(EngineFailed);
      }
      heads := heads[a.chat := capsule.versionId];
      var asWritten := IsWritten(capsule);
      if !asWritten || a.fault == AtCommit {
        versions, heads := savedVersions, savedHeads;
        return Err(if asWritten then EngineFailed else WriteValidationFailed);
      }
      return Ok(capsule);
    }

    // ----- erase_capsule_versions_for_forget -----

    /** Inside a savepoint: drop the chat's head, lift the delete trigger, delete its rows, put the trigger back.
        `EraseOutcome` has no case for rows that survive the delete, so that last check never fires. */
    method Erase(law: ForgetLaw, e: EraseCall) returns (r: Result<nat, EraseError>)
      modifies this`versions, this`heads, this`deleteTrigger
      ensures r == EraseOutcome(codec, law, old(Stored()), e)
      ensures Stored() == AfterErase(codec, law, old(Stored()), e)
      ensures deleteTrigger == old(deleteTrigger)
    {
      if Text.IsBlank(e.chat) || Text.IsBlank(e.token) {
        return Ok(0);
      }
      // SAVEPOINT forget_capsule_versions
      var savedVersions, savedHeads, savedTrigger := versions, heads, deleteTrigger;
      var rows := ChatRows(versions, e.chat);
      var carrying := false;
      for i := 0 to |rows|
        invariant forall j :: 0 <= j < i ==> codec.loads(rows[j].fields.capsuleJson).Some?
        invariant carrying <==> exists j :: 0 <= j < i && RowCarries(codec, law, rows[j], e.token)
      {
        var payload := codec.loads(rows[i].fields.capsuleJson);
        if payload == None {
          return Err(PayloadUnreadable);
        }
        carrying := carrying || law.carries(law.render(payload.value), e.token);
      }
      if !carrying {
        return Ok(0);
      }
      heads := heads - {e.chat};
      deleteTrigger := None;
      var deleted := e.fault !in {AtHeads, AtDropTrigger, AtDelete} && deleteTrigger == None && !Referenced(rows, heads);
      if deleted {
        versions := WithoutChat(versions, e.chat);
        deleteTrigger := savedTrigger;
      }
      ChatRowsAfterDelete(savedVersions, e.chat, e.chat);
      var remaining := deleted && ChatRows(versions, e.chat) != [];
      if !deleted || e.fault in {AtRestoreTrigger, AtRelease} || remaining {
        versions, heads, deleteTrigger := savedVersions, savedHeads, savedTrigger;
        return Err(if remaining then EraseNotVerified else EraseEngineFailed);
      }
      return Ok(|rows|);
    }

    // ----- ensure_active_capsule_schema -----

    /** Checks every chat before it writes anything; then fills in every record hash. */
    method BackfillLegacyRecordHashes() returns (r: Result<(), BackfillError>)
      requires PrimaryKey(versions)
      modifies this`versions, this`updateTrigger
      ensures r.Ok? <==> forall chat :: chat in Chats(old(versions)) ==> LegacyProblem(codec, old(Stored()), chat) == None
      ensures r.Err? ==> exists chat :: chat in Chats(old(versions)) && LegacyProblem(codec, old(Stored()), chat) == Some(r.error)
      ensures r.Ok? ==> versions == AllRehashed(codec, old(versions))
      ensures r.Err? ==> versions == old(versions) && updateTrigger == old(updateTrigger)
    {
      var checked := CheckLegacyChats();
      if checked.Err? {
        return Err(checked.error);
      }
      var updates := checked.value;
      if updates == map[] {
        assert Updated(updates, versions) == versions;
        return Ok(());
      }
      updateTrigger := None;
      versions := Updated(updates, versions);
      return Ok(());
    }

    method CheckLegacyChats() returns (r: Result<map<string, string>, BackfillError>)
      requires PrimaryKey(versions)
      ensures r.Ok? ==> forall chat :: chat in Chats(versions) ==> LegacyProblem(codec, Stored(), chat) == None
      ensures r.Err? ==> exists chat :: chat in Chats(versions) && LegacyProblem(codec, Stored(), chat) == Some(r.error)
      ensures r.Ok? ==> Updated(r.value, versions) == AllRehashed(codec, versions)
    {
      var chats := Chats(versions);
      var updates: map<string, string> := map[];
      ghost var done: seq<Row> := [];
      for k := 0 to |chats|
        invariant forall j :: 0 <= j < k ==> LegacyProblem(codec, Stored(), chats[j]) == None
        invariant forall j :: 0 <= j < k ==> forall row :: row in ChatRows(versions, chats[j]) ==> row in done
        invariant Covers(codec, versions, updates, done)
      {
        var problem;
        problem, updates := CheckLegacyChat(chats[k], updates, done);
        if problem.Some? {
          return Err(problem.value);
        }
        done := done + ChatRows(versions, chats[k]);
      }
      EveryRowIsOfSomeChat(versions, done);
      CoveredUpdateRehashes(codec, versions, updates, done);
      return Ok(updates);
    }

    /** One chat's turn in the migration: its rows, in order, then its head. */
    method CheckLegacyChat(chat: string, updates: map<string, string>, ghost done: seq<Row>)
      returns (problem: Option<BackfillError>, updated: map<string, string>)
      requires PrimaryKey(versions) && Covers(codec, versions, updates, done)
      ensures problem == LegacyProblem(codec, Stored(), chat)
      ensures problem == None ==> Covers(codec, versions, updated, done + ChatRows(versions, chat))
    {
      ChatRowsMembers(versions, chat);
      problem, updated := CheckLegacyRows(ChatRows(versions, chat), updates, done);
      if problem == None {
        problem := LegacyHeadProblem(ChatRows(versions, chat), HeadOf(heads, chat));
      }
    }

    method CheckLegacyRows(rows: seq<Row>, updates: map<string, string>, ghost done: seq<Row>)
      returns (problem: Option<BackfillError>, updated: map<string, string>)
      requires PrimaryKey(versions) && Covers(codec, versions, updates, done) && forall r :: r in rows ==> r in versions
      ensures problem == LegacyRowsProblem(codec, rows, 0, "")
      ensures problem == None ==> Covers(codec, versions, updated, done + rows)
    {
      updated := updates;
      ghost var taken := done;
      assert done + rows[..0] == done;
      var previousId := "";
      for i := 0 to |rows|
        invariant LegacyRowsProblem(codec, rows, 0, "") == LegacyRowsProblem(codec, rows, i, previousId)
        invariant taken == done + rows[..i] && Covers(codec, versions, updated, taken)
      {
        problem, updated := NoteLegacyRow(rows[i], i, previousId, updated, taken);
        if problem.Some? {
          return;
        }
        taken := taken + [rows[i]];
        assert taken == done + rows[..i + 1];
        previousId := rows[i].fields.versionId;
      }
      assert rows[..|rows|] == rows;
      problem := None;
    }

    /** A sound row's record hash joins the update list. */
    method NoteLegacyRow(row: Row, i: nat, previousId: string, updates: map<string, string>, ghost done: seq<Row>)
      returns (problem: Option<BackfillError>, updated: map<string, string>)
      requires PrimaryKey(versions) && Covers(codec, versions, updates, done) && row in versions
      ensures problem == LegacyRowProblem(codec, row, i, previousId)
      ensures problem == None ==> Covers(codec, versions, updated, done + [row])
    {
      var recordHash;
      problem, recordHash := CheckLegacyRow(row, i, previousId);
      updated := updates;
      if problem == None {
        CoversOneMore(codec, versions, updates, done, row);
        updated := updates[row.fields.versionId := recordHash];
      }
    }

    /** One row's turn: the problem with it, or the record hash it is to carry, over the version number it was read as. */
    method CheckLegacyRow(row: Row, i: nat, previousId: string) returns (problem: Option<BackfillError>, recordHash: string)
      ensures problem == LegacyRowProblem(codec, row, i, previousId)
      ensures problem == None ==> recordHash == HashOf(codec, row)
    {
      var f := row.fields;
      if codec.hash(f.capsuleJson) != f.payloadHash || f.mode !in MODES {
        return Some(LegacyChainCorrupt), "";
      }
      var number := Effective(codec, f.versionNumber);
      if number == None {
        return Some(LegacyNumberUnreadable), "";
      }
      if number.value != i + 1 || f.previousVersionId != previousId {
        return Some(LegacyChainCorrupt), "";
      }
      var payload := codec.loads(f.capsuleJson);
      if payload == None || !payload.value.JObject? {
        return Some(LegacyPayloadCorrupt), "";
      }
      return None, RecordHash(codec, f, i + 1);
    }

    // ----- load_latest_capsule -----

    /** None for a chat whose chain does not validate; an error where the validator itself raises. */
    method LoadLatest(chat: string) returns (r: Result<Option<Capsule>, CreateError>)
      ensures r == LatestOf(codec, Stored(), chat)
    {
      var clean := Text.Strip(chat);
      if clean == "" {
        return Ok(None);
      }
      if HashMissing(versions) {
        return Err(RecordHashMissing);
      }
      var verdict := ValidatedCapsuleChain(codec, clean, ChatRows(versions, clean), HeadOf(heads, clean));
      if verdict.ValidatorRaises? {
        return Err(ChainUnreadable);
      }
      if verdict.Invalid? || verdict.capsules == [] {
        return Ok(None);
      }
      return Ok(Some(verdict.capsules[|verdict.capsules| - 1]));
    }
  }

  function LatestOf(c: Codec, t: Tables, chat: string): Result<Option<Capsule>, CreateError> {
    var clean := Text.Strip(chat);
    if clean == "" then Ok(None)
    else if HashMissing(t.versions) then Err(RecordHashMissing)
    else match Validate(c, t, clean)
      case ValidatorRaises => Err(ChainUnreadable)
      case Invalid => Ok(None)
      case Accepted(capsules) => Ok(LastCapsule(capsules))
  }
}

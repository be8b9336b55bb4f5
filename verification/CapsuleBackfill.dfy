/** The legacy migration, as a value: what it checks, what it writes, and what the validator then says
    (core/active_context_capsule.py, `_backfill_legacy_capsule_record_hashes`). */
module CapsuleBackfill {
  import opened Wrappers
  import opened CapsuleRecords
  import opened CapsuleChain
  import opened CapsuleTables
  import opened Json

  datatype BackfillError = LegacyChainCorrupt | LegacyNumberUnreadable | LegacyPayloadCorrupt | LegacyHeadCorrupt

  /** What is wrong with one row, the `i`-th of its chat, after the version `previousId`. */
  function LegacyRowProblem(c: Codec, row: Row, i: nat, previousId: string): Option<BackfillError> {
    var f := row.fields;
    if !PassesFirstChecks(c, f) then Some(LegacyChainCorrupt)
    else match Effective(c, f.versionNumber)
      case None => Some(LegacyNumberUnreadable)
      case Some(n) =>
        if n != i + 1 || f.previousVersionId != previousId then Some(LegacyChainCorrupt)
        else match c.loads(f.capsuleJson)
          case Some(JObject(_)) => None
          case _ => Some(LegacyPayloadCorrupt)
  }

  /** What the inner loop finds wrong with the rows from `i` on, if anything. */
  function LegacyRowsProblem(c: Codec, rows: seq<Row>, i: nat, previousId: string): Option<BackfillError>
    requires i <= |rows|
    decreases |rows| - i
  {
    if i == |rows| then None
    else if LegacyRowProblem(c, rows[i], i, previousId).Some? then LegacyRowProblem(c, rows[i], i, previousId)
    else LegacyRowsProblem(c, rows, i + 1, rows[i].fields.versionId)
  }

  function LegacyHeadProblem(rows: seq<Row>, head: Option<string>): Option<BackfillError> {
    if head == None || rows == [] || head.value != rows[|rows| - 1].fields.versionId then Some(LegacyHeadCorrupt) else None
  }

  function LegacyProblem(c: Codec, t: Tables, chat: string): Option<BackfillError> {
    var rows := ChatRows(t.versions, chat);
    if LegacyRowsProblem(c, rows, 0, "").Some? then LegacyRowsProblem(c, rows, 0, "") else LegacyHeadProblem(rows, HeadOf(t.heads, chat))
  }

  /** The chats that have rows, by first appearance. */
  function Chats(versions: seq<Row>): seq<string> {
    if versions == [] then []
    else
      var init, last := versions[..|versions| - 1], versions[|versions| - 1].fields.chatId;
      if last in Chats(init) then Chats(init) else Chats(init) + [last]
  }

  lemma {:induction false} ChatsCoverTable(versions: seq<Row>)
    ensures forall r :: r in versions ==> r.fields.chatId in Chats(versions)
  {
    if versions != [] {
      var init := versions[..|versions| - 1];
      ChatsCoverTable(init);
      assert versions == init + [versions[|versions| - 1]];
    }
  }

  /** The row's record hash, over its version number as it is read. */
  function HashOf(c: Codec, row: Row): string {
    match Effective(c, row.fields.versionNumber)
    case Some(n) => RecordHash(c, row.fields, n)
    case None => ""
  }

  lemma EveryRowIsOfSomeChat(versions: seq<Row>, done: seq<Row>)
    requires forall chat :: chat in Chats(versions) ==> forall row :: row in ChatRows(versions, chat) ==> row in done
    ensures forall row :: row in versions ==> row in done
  {
    ChatsCoverTable(versions);
    forall row | row in versions ensures row in done {
      ChatRowsMembers(versions, row.fields.chatId);
    }
  }

  function Rehashed(c: Codec, row: Row): Row {
    row.(recordHash := HashOf(c, row))
  }

  function AllRehashed(c: Codec, rows: seq<Row>): seq<Row> {
    seq(|rows|, i requires 0 <= i < |rows| => Rehashed(c, rows[i]))
  }

  /** PRIMARY KEY(version_id) */
  ghost predicate PrimaryKey(versions: seq<Row>) {
    forall i, j :: 0 <= i < j < |versions| ==> versions[i].fields.versionId != versions[j].fields.versionId
  }

  /** The update list holds this row's record hash under its version id. */
  predicate UpdatesRow(c: Codec, updates: map<string, string>, row: Row) {
    row.fields.versionId in updates && updates[row.fields.versionId] == HashOf(c, row)
  }

  /** `done` are rows of the table, and the update list covers them. */
  ghost predicate Covers(c: Codec, versions: seq<Row>, updates: map<string, string>, done: seq<Row>) {
    forall row :: row in done ==> row in versions && UpdatesRow(c, updates, row)
  }

  lemma CoversOneMore(c: Codec, versions: seq<Row>, updates: map<string, string>, done: seq<Row>, row: Row)
    requires PrimaryKey(versions) && Covers(c, versions, updates, done) && row in versions
    ensures Covers(c, versions, updates[row.fields.versionId := HashOf(c, row)], done + [row])
  {
    var more := updates[row.fields.versionId := HashOf(c, row)];
    forall other | other in done + [row] ensures other in versions && UpdatesRow(c, more, other) {
      if other in done && other.fields.versionId == row.fields.versionId {
        var i :| 0 <= i < |versions| && versions[i] == row;
        var j :| 0 <= j < |versions| && versions[j] == other;
      }
    }
  }

  lemma CoveredUpdateRehashes(c: Codec, versions: seq<Row>, updates: map<string, string>, done: seq<Row>)
    requires Covers(c, versions, updates, done) && forall row :: row in versions ==> row in done
    ensures Updated(updates, versions) == AllRehashed(c, versions)
  {
    forall i | 0 <= i < |versions| ensures UpdatesRow(c, updates, versions[i]) {
      assert versions[i] in versions;
    }
  }

  /** UPDATE ... SET record_hash = ? WHERE version_id = ?, for every listed pair. */
  function Updated(updates: map<string, string>, versions: seq<Row>): seq<Row> {
    seq(|versions|, i requires 0 <= i < |versions| =>
      if versions[i].fields.versionId in updates
      then versions[i].(recordHash := updates[versions[i].fields.versionId])
      else versions[i])
  }

  // ----- what the migration accepts -----

  /** Row `i` of the chat is a well-formed legacy version: hash and mode hold, its number reads as `i + 1`, it names the row
      before it, and its payload is a JSON object. */
  predicate WellFormedAt(c: Codec, rows: seq<Row>, i: nat)
    requires i < |rows|
  {
    var f := rows[i].fields;
    && c.hash(f.capsuleJson) == f.payloadHash && f.mode in {"shadow", "active", "rejected"}
    && Effective(c, f.versionNumber) == Some(i + 1)
    && f.previousVersionId == (if i == 0 then "" else rows[i - 1].fields.versionId)
    && c.loads(f.capsuleJson).Some? && c.loads(f.capsuleJson).value.JObject?
  }

  lemma {:induction false} RowsSoundIff(c: Codec, rows: seq<Row>, i: nat, previousId: string)
    requires i <= |rows| && previousId == (if i == 0 then "" else rows[i - 1].fields.versionId)
    ensures LegacyRowsProblem(c, rows, i, previousId) == None <==> forall j: nat :: i <= j < |rows| ==> WellFormedAt(c, rows, j)
    decreases |rows| - i
  {
    if i < |rows| {
      RowsSoundIff(c, rows, i + 1, rows[i].fields.versionId);
      RowSoundIff(c, rows, i, previousId);
    }
  }

  lemma RowSoundIff(c: Codec, rows: seq<Row>, i: nat, previousId: string)
    requires i < |rows| && previousId == (if i == 0 then "" else rows[i - 1].fields.versionId)
    ensures LegacyRowProblem(c, rows[i], i, previousId) == None <==> WellFormedAt(c, rows, i)
  {
  }

  /** A chat passes the migration if and only if each of its rows, in query order, is well formed and its head names the last. */
  lemma LegacySoundIff(c: Codec, t: Tables, chat: string)
    ensures var rows := ChatRows(t.versions, chat);
            LegacyProblem(c, t, chat) == None <==>
              && (forall i: nat :: i < |rows| ==> WellFormedAt(c, rows, i))
              && rows != [] && HeadOf(t.heads, chat) == Some(rows[|rows| - 1].fields.versionId)
  {
    RowsSoundIff(c, ChatRows(t.versions, chat), 0, "");
  }

  // ----- after the migration -----

  lemma AllRehashedCons(c: Codec, row: Row, rows: seq<Row>)
    ensures AllRehashed(c, [row] + rows) == [Rehashed(c, row)] + AllRehashed(c, rows)
  {
  }

  lemma {:induction false} InsertRehashed(c: Codec, row: Row, rows: seq<Row>)
    ensures Insert(Rehashed(c, row), AllRehashed(c, rows)) == AllRehashed(c, Insert(row, rows))
  {
    AllRehashedCons(c, row, rows);
    if rows != [] {
      var first, rest := rows[0], rows[1..];
      assert rows == [first] + rest;
      AllRehashedCons(c, first, rest);
      assert RowBefore(Rehashed(c, row), Rehashed(c, first)) <==> RowBefore(row, first);
      if !RowBefore(row, first) {
        InsertRehashed(c, row, rest);
        AllRehashedCons(c, first, Insert(row, rest));
        assert AllRehashed(c, rows)[1..] == AllRehashed(c, rest);
      }
    }
  }

  lemma {:induction false} ChatRowsRehashed(c: Codec, versions: seq<Row>, chat: string)
    ensures ChatRows(AllRehashed(c, versions), chat) == AllRehashed(c, ChatRows(versions, chat))
  {
    if versions != [] {
      assert AllRehashed(c, versions)[1..] == AllRehashed(c, versions[1..]);
      ChatRowsRehashed(c, versions[1..], chat);
      InsertRehashed(c, versions[0], ChatRows(versions[1..], chat));
    }
  }

  function PayloadOf(c: Codec, row: Row): map<string, Json> {
    match c.loads(row.fields.capsuleJson)
    case Some(JObject(payload)) => payload
    case _ => map[]
  }

  /** From row `i` on, every stored payload holds only lists Python can walk where the decoder walks one. */
  predicate WalkableFrom(c: Codec, rows: seq<Row>, i: nat)
    requires i <= |rows|
    decreases |rows| - i
  {
    i < |rows| ==> Walkable(c, PayloadOf(c, rows[i])) && WalkableFrom(c, rows, i + 1)
  }

  /** What the decoding of a migrated row must be. */
  ghost predicate DecodesAs(c: Codec, decoding: Decoding, walkable: bool, f: Fields) {
    if walkable then
      decoding.Decodes? && decoding.capsule.versionId == f.versionId && decoding.capsule.chatId == f.chatId
      && decoding.capsule.previousVersionId == f.previousVersionId && Effective(c, f.versionNumber) == Some(decoding.capsule.versionNumber)
    else decoding == Raises
  }

  lemma RehashedRowDecodes(c: Codec, row: Row)
    requires Sound(c) && PassesFirstChecks(c, row.fields) && Effective(c, row.fields.versionNumber).Some?
    requires c.loads(row.fields.capsuleJson).Some? && c.loads(row.fields.capsuleJson).value.JObject?
    ensures DecodesAs(c, DecodeRow(c, Rehashed(c, row)), Walkable(c, PayloadOf(c, row)), row.fields)
  {
    assert Rehashed(c, row).recordHash != "";
  }

  /** What the validator's scan must come to on migrated rows from `i` on. */
  ghost predicate ScansAs(scan: Scan, walkable: bool, rows: seq<Row>, i: nat)
    requires i <= |rows|
  {
    if walkable then
      scan.Chain? && |scan.capsules| == |rows| - i
      && (i < |rows| ==> scan.capsules[|rows| - i - 1].versionId == rows[|rows| - 1].fields.versionId)
    else scan == ScanRaises
  }

  lemma {:induction false} MigratedRowsScan(c: Codec, chat: string, rows: seq<Row>, decoded: seq<Decoding>, i: nat, previous: Option<Capsule>, previousId: string)
    requires i <= |rows| == |decoded|
    requires forall j: nat :: j < |rows| ==> DecodesAs(c, decoded[j], Walkable(c, PayloadOf(c, rows[j])), rows[j].fields)
    requires forall j :: 0 <= j < |rows| ==> rows[j].fields.chatId == chat
    requires if i == 0 then previous == None && previousId == ""
             else previous.Some? && previous.value.chatId == chat && previous.value.versionNumber == i && previous.value.versionId == previousId
    requires LegacyRowsProblem(c, rows, i, previousId) == None
    ensures ScansAs(ScanFrom(chat, decoded, i, previous), WalkableFrom(c, rows, i), rows, i)
    decreases |rows| - i
  {
    if i < |rows| && decoded[i].Decodes? {
      MigratedRowsScan(c, chat, rows, decoded, i + 1, Some(decoded[i].capsule), rows[i].fields.versionId);
    }
  }

  lemma {:induction false} LegacyRowsAreSound(c: Codec, rows: seq<Row>, i: nat, previousId: string, j: nat)
    requires i <= j < |rows| && LegacyRowsProblem(c, rows, i, previousId) == None
    ensures var f := rows[j].fields;
            && PassesFirstChecks(c, f) && Effective(c, f.versionNumber).Some?
            && c.loads(f.capsuleJson).Some? && c.loads(f.capsuleJson).value.JObject?
    decreases j - i
  {
    if i < j {
      LegacyRowsAreSound(c, rows, i + 1, rows[i].fields.versionId, j);
    }
  }

  ghost predicate AllDecodeAs(c: Codec, rows: seq<Row>, decoded: seq<Decoding>) {
    |decoded| == |rows|
    && forall j: nat :: j < |rows| ==> DecodesAs(c, decoded[j], Walkable(c, PayloadOf(c, rows[j])), rows[j].fields)
  }

  lemma MigratedRowsDecode(c: Codec, rows: seq<Row>)
    requires Sound(c) && LegacyRowsProblem(c, rows, 0, "") == None
    ensures AllDecodeAs(c, rows, Decodings(c, AllRehashed(c, rows)))
  {
    forall j: nat | j < |rows|
      ensures DecodesAs(c, Decodings(c, AllRehashed(c, rows))[j], Walkable(c, PayloadOf(c, rows[j])), rows[j].fields)
    {
      LegacyRowsAreSound(c, rows, 0, "", j);
      RehashedRowDecodes(c, rows[j]);
      assert AllRehashed(c, rows)[j] == Rehashed(c, rows[j]);
    }
  }

  lemma MigratedVerdict(c: Codec, chat: string, rows: seq<Row>, decoded: seq<Decoding>, head: Option<string>)
    requires decoded == Decodings(c, AllRehashed(c, rows)) && AllDecodeAs(c, rows, decoded)
    requires forall j :: 0 <= j < |rows| ==> rows[j].fields.chatId == chat
    requires LegacyRowsProblem(c, rows, 0, "") == None && LegacyHeadProblem(rows, head) == None
    ensures var verdict := VerdictOn(c, chat, AllRehashed(c, rows), head);
            if WalkableFrom(c, rows, 0) then verdict.Accepted? && |verdict.capsules| == |rows| else verdict == ValidatorRaises
  {
    MigratedRowsScan(c, chat, rows, decoded, 0, None, "");
  }

  /** For a chat the migration found sound, the migrated rows validate IF AND ONLY IF every payload can be walked;
      otherwise the validator raises. The migration itself only asks that each payload be a JSON object. */
  lemma MigratedChatValidatesIff(c: Codec, t: Tables, chat: string)
    requires Sound(c) && LegacyProblem(c, t, chat) == None
    ensures var verdict := Validate(c, Tables(AllRehashed(c, t.versions), t.heads), chat);
            if WalkableFrom(c, ChatRows(t.versions, chat), 0)
            then verdict.Accepted? && |verdict.capsules| == |ChatRows(t.versions, chat)|
            else verdict == ValidatorRaises
  {
    var rows := ChatRows(t.versions, chat);
    ChatRowsMembers(t.versions, chat);
    ChatRowsRehashed(c, t.versions, chat);
    forall j | 0 <= j < |rows| ensures rows[j].fields.chatId == chat {
      assert rows[j] in rows;
    }
    MigratedRowsDecode(c, rows);
    MigratedVerdict(c, chat, rows, Decodings(c, AllRehashed(c, rows)), HeadOf(t.heads, chat));
  }

  /** A legacy chat of one row whose payload is `{"decisions": 1}`. */
  function NumberedDecisions(c: Codec): Tables {
    var encoded := c.dumps(JObject(map["decisions" := JInt(1)]));
    var f := Fields("v1", Whole(1), "chat", "", "", "shadow", encoded, "", c.hash(encoded), "");
    Tables([Row(f, "")], map["chat" := "v1"])
  }

  /** The migration accepts that chat, and the validator then raises on it. */
  lemma MigratedChatCanBeUnreadable(c: Codec)
    requires Sound(c)
    ensures LegacyProblem(c, NumberedDecisions(c), "chat") == None
    ensures Validate(c, Tables(AllRehashed(c, NumberedDecisions(c).versions), NumberedDecisions(c).heads), "chat") == ValidatorRaises
  {
    var t := NumberedDecisions(c);
    var row := t.versions[0];
    assert ChatRows(t.versions, "chat") == [row] by {
      assert ChatRows(t.versions[1..], "chat") == [];
    }
    var payload := map["decisions" := JInt(1)];
    assert c.loads(row.fields.capsuleJson) == Some(JObject(payload));
    assert LegacyRowsProblem(c, [row], 1, "v1") == None;
    assert !WalkableAt(c, payload, "decisions") by {
      assert Get(payload, "decisions") == JInt(1);
    }
    assert PayloadOf(c, row) == payload;
    assert !WalkableFrom(c, [row], 0);
    MigratedChatValidatesIff(c, t, "chat");
  }
}

/** When the receipt of an action counts for a chat and its project (core/active_context_capsule.py,
    `_verified_action_record`). */
module CapsuleReceipts {
  import opened Wrappers
  import opened Json
  import opened CapsuleRecords
  import Text

  /** The stored receipts by id, whether a text is an ISO date, and `dict` of a list (None where it raises). */
  datatype Ledger = Ledger(
    receipts: map<string, map<string, Json>>,
    isDate: string -> bool,
    pairs: seq<Json> -> Option<map<string, Json>>)

  const OUTCOMES := map["tool_executed" := "succeeded", "tool_failed" := "failed", "tool_preview" := "pending_approval"]

  /** `str(fields.get(key) or "")` */
  function RawAt(c: Codec, fields: map<string, Json>, key: string): string {
    if Truthy(Get(fields, key)) then c.str(Get(fields, key)) else ""
  }

  function TextAt(c: Codec, fields: map<string, Json>, key: string): string {
    Text.Strip(RawAt(c, fields, key))
  }

  function FieldsOf(j: Json): map<string, Json> {
    if j.JObject? then j.fields else map[]
  }

  /** The action record of a stored receipt; None where reading it as a mapping raises. */
  function ReadRecord(ledger: Ledger, receipt: map<string, Json>): Option<map<string, Json>> {
    match Get(receipt, "execution")
    case JObject(execution) => AsDict(ledger.pairs, Get(execution, "action_record"))
    case _ => Some(map[])
  }

  function RecordOf(ledger: Ledger, id: string): map<string, Json>
    requires id in ledger.receipts
  {
    var record := ReadRecord(ledger, ledger.receipts[id]);
    if record.Some? then record.value else map[]
  }

  /** `_stable_json_hash` */
  function StableHash(c: Codec, j: Json): string {
    c.hash(c.dumps(j))
  }

  /** What `record_hash` covers. */
  function Hashed(record: map<string, Json>): Json {
    JObject(record - {"occurred_at", "record_hash"})
  }

  /** The receipt is stored under its own id and session; only then is its record read. */
  predicate NamesReceipt(c: Codec, ledger: Ledger, id: string, chat: string) {
    && id in ledger.receipts && id != ""
    && TextAt(c, ledger.receipts[id], "receipt_key") == id && TextAt(c, ledger.receipts[id], "session_id") == chat
  }

  /** Reading the record of this receipt raises, and with it the whole create. */
  predicate ReceiptRaises(c: Codec, ledger: Ledger, id: string, chat: string) {
    NamesReceipt(c, ledger, id, chat) && ReadRecord(ledger, ledger.receipts[id]) == None
  }

  /** Whether `dict(value or {})` raises. */
  predicate NoMapping(ledger: Ledger, j: Json) {
    match j
    case JBool(b) => b
    case JInt(n) => n < 0 || 0 < n
    case JFloat(x) => x.Finite? ==> 0 < x.mantissa
    case JStr(s) => 0 < |s|
    case JList(items) => 0 < |items| && ledger.pairs(items) == None
    case _ => false
  }

  /** The record names the receipt, the chat and the project, and says what was done. */
  predicate NamesAction(c: Codec, record: map<string, Json>, id: string, chat: string, project: string) {
    var origin, kind := Get(record, "origin"), TextAt(c, record, "action_type");
    && Get(record, "schema") == JStr("tool_action_receipt_v1")
    && TextAt(c, record, "receipt_id") == id && TextAt(c, record, "action_id") != ""
    && kind in OUTCOMES && TextAt(c, record, "tool_name") != ""
    && origin.JObject? && TextAt(c, origin.fields, "chat_id") == chat && TextAt(c, origin.fields, "project_id") == project
    && Get(record, "parameters").JObject? && Get(record, "result").JObject?
    && TextAt(c, Get(record, "result").fields, "summary") != ""
    && TextAt(c, Get(record, "result").fields, "outcome") == OUTCOMES[kind]
  }

  /** The record agrees with the receipt around it, and with its own three hashes. */
  predicate HashesHold(c: Codec, receipt: map<string, Json>, record: map<string, Json>) {
    var arguments := Get(receipt, "arguments");
    && TextAt(c, receipt, "tool_name") == TextAt(c, record, "tool_name")
    && TextAt(c, receipt, "idempotency_key") == TextAt(c, record, "action_id")
    && StableHash(c, if Truthy(arguments) then arguments else JObject(map[])) == StableHash(c, Get(record, "parameters"))
    && RawAt(c, record, "parameters_hash") == StableHash(c, Get(record, "parameters"))
    && RawAt(c, record, "result_hash") == StableHash(c, Get(record, "result"))
    && RawAt(c, record, "record_hash") == StableHash(c, Hashed(record))
  }

  predicate Verifies(c: Codec, ledger: Ledger, id: string, chat: string, project: string) {
    && NamesReceipt(c, ledger, id, chat)
    && ReadRecord(ledger, ledger.receipts[id]).Some?
    && var record := RecordOf(ledger, id);
       && NamesAction(c, record, id, chat, project)
       && ledger.isDate(RawAt(c, record, "occurred_at"))
       && HashesHold(c, ledger.receipts[id], record)
  }

  /** The receipts that verify for this chat and project, with the summary of each result. */
  function Verified(c: Codec, ledger: Ledger, chat: string, project: string): map<string, string> {
    map id | id in ledger.receipts && Verifies(c, ledger, id, chat, project)
      :: RawAt(c, FieldsOf(Get(RecordOf(ledger, id), "result")), "summary")
  }

  /** A receipt makes a create raise if and only if it is stored under its id for this chat and holds, in place of its action
      record, something that is no mapping and cannot be made one. */
  lemma ReceiptRaisesIff(c: Codec, ledger: Ledger, id: string, chat: string)
    requires id in ledger.receipts
    ensures var receipt := ledger.receipts[id];
            ReceiptRaises(c, ledger, id, chat) <==>
              && id != "" && TextAt(c, receipt, "receipt_key") == id && TextAt(c, receipt, "session_id") == chat
              && Get(receipt, "execution").JObject? && NoMapping(ledger, Get(Get(receipt, "execution").fields, "action_record"))
  {
  }

  lemma HashedFieldsAgree(before: map<string, Json>, after: map<string, Json>, key: string)
    requires before - {"occurred_at", "record_hash"} == after - {"occurred_at", "record_hash"}
    requires key != "occurred_at" && key != "record_hash"
    ensures Get(before, key) == Get(after, key)
  {
    var hashed := before - {"occurred_at", "record_hash"};
    assert key in before <==> key in hashed;
    assert key in after <==> key in hashed;
  }

  lemma VerifiedFacts(c: Codec, ledger: Ledger, id: string, chat: string, project: string)
    requires Verifies(c, ledger, id, chat, project)
    ensures var record := RecordOf(ledger, id);
            && RawAt(c, record, "record_hash") == StableHash(c, Hashed(record))
            && TextAt(c, FieldsOf(Get(record, "origin")), "chat_id") == chat
            && TextAt(c, FieldsOf(Get(record, "origin")), "project_id") == project
            && Verified(c, ledger, chat, project)[id] == RawAt(c, FieldsOf(Get(record, "result")), "summary")
  {
  }

  /** A receipt that counts names an action and a tool, the ones its own record was stored for. */
  lemma VerifiedReceiptNamesItsAction(c: Codec, ledger: Ledger, id: string, chat: string, project: string)
    requires Verifies(c, ledger, id, chat, project)
    ensures var receipt, record := ledger.receipts[id], RecordOf(ledger, id);
            && TextAt(c, record, "receipt_id") == TextAt(c, receipt, "receipt_key") == id != ""
            && TextAt(c, record, "action_id") == TextAt(c, receipt, "idempotency_key") != ""
            && TextAt(c, record, "tool_name") == TextAt(c, receipt, "tool_name") != ""
  {
  }

  /** One record counts under one receipt: copied into another, it does not. */
  lemma RecordCountsOnce(c: Codec, ledger: Ledger, id: string, other: string, chat: string, project: string)
    requires Verifies(c, ledger, id, chat, project) && id != other
    requires other in ledger.receipts && RecordOf(ledger, other) == RecordOf(ledger, id)
    ensures !Verifies(c, ledger, other, chat, project)
  {
    VerifiedReceiptNamesItsAction(c, ledger, id, chat, project);
  }

  /** A record that still verifies under the hash it once verified under is that record, its date aside: no edit of its
      origin, parameters, result or outcome goes unnoticed. */
  lemma VerifiedRecordIsIntact(c: Codec, was: Ledger, now: Ledger, id: string, chat: string, project: string, other: string, elsewhere: string)
    requires Sound(c) && Verifies(c, was, id, chat, project) && Verifies(c, now, id, other, elsewhere)
    requires RawAt(c, RecordOf(was, id), "record_hash") == RawAt(c, RecordOf(now, id), "record_hash")
    ensures RecordOf(was, id) - {"occurred_at", "record_hash"} == RecordOf(now, id) - {"occurred_at", "record_hash"}
    ensures chat == other && project == elsewhere
    ensures Verified(c, was, chat, project)[id] == Verified(c, now, other, elsewhere)[id]
  {
    VerifiedFacts(c, was, id, chat, project);
    VerifiedFacts(c, now, id, other, elsewhere);
    var before, after := RecordOf(was, id), RecordOf(now, id);
    HashTellsApart(c, Hashed(before), Hashed(after));
    HashedFieldsAgree(before, after, "origin");
    HashedFieldsAgree(before, after, "result");
  }

  /** A receipt counts for one chat and one project. */
  lemma VerifiedReceiptIsBound(c: Codec, ledger: Ledger, id: string, chat: string, project: string, other: string, elsewhere: string)
    requires Verifies(c, ledger, id, chat, project)
    ensures Verifies(c, ledger, id, other, elsewhere) <==> other == chat && elsewhere == project
  {
    VerifiedFacts(c, ledger, id, chat, project);
    if Verifies(c, ledger, id, other, elsewhere) {
      VerifiedFacts(c, ledger, id, other, elsewhere);
    }
  }

  lemma SameHashSameFields(c: Codec, arguments: Json, parameters: Json)
    requires Sound(c) && parameters.JObject?
    requires StableHash(c, if Truthy(arguments) then arguments else JObject(map[])) == StableHash(c, parameters)
    ensures FieldsOf(arguments) == parameters.fields
  {
    HashTellsApart(c, if Truthy(arguments) then arguments else JObject(map[]), parameters);
  }

  /** What a verified receipt says was passed to the tool is what its record says. */
  lemma VerifiedArgumentsAreParameters(c: Codec, ledger: Ledger, id: string, chat: string, project: string)
    requires Sound(c) && Verifies(c, ledger, id, chat, project)
    ensures FieldsOf(Get(ledger.receipts[id], "arguments")) == FieldsOf(Get(RecordOf(ledger, id), "parameters"))
  {
    SameHashSameFields(c, Get(ledger.receipts[id], "arguments"), Get(RecordOf(ledger, id), "parameters"));
  }

  /** The result hash of a receipt that counts stands for its result, and the parameters hash for its parameters: receipts with
      equal hashes, wherever stored, agree there. */
  lemma VerifiedHashesName(c: Codec, one: Ledger, id: string, chat: string, project: string,
                           two: Ledger, other: string, elsewhere: string, another: string)
    requires Sound(c) && Verifies(c, one, id, chat, project) && Verifies(c, two, other, elsewhere, another)
    ensures var a, b := RecordOf(one, id), RecordOf(two, other);
            && (RawAt(c, a, "result_hash") == RawAt(c, b, "result_hash") <==> Get(a, "result") == Get(b, "result"))
            && (RawAt(c, a, "parameters_hash") == RawAt(c, b, "parameters_hash") <==> Get(a, "parameters") == Get(b, "parameters"))
  {
    var a, b := RecordOf(one, id), RecordOf(two, other);
    HashesStandFor(c, one, id, chat, project);
    HashesStandFor(c, two, other, elsewhere, another);
    if RawAt(c, a, "result_hash") == RawAt(c, b, "result_hash") {
      HashTellsApart(c, Get(a, "result"), Get(b, "result"));
    }
    if RawAt(c, a, "parameters_hash") == RawAt(c, b, "parameters_hash") {
      HashTellsApart(c, Get(a, "parameters"), Get(b, "parameters"));
    }
  }

  lemma HashesStandFor(c: Codec, ledger: Ledger, id: string, chat: string, project: string)
    requires Verifies(c, ledger, id, chat, project)
    ensures var record := RecordOf(ledger, id);
            && RawAt(c, record, "result_hash") == StableHash(c, Get(record, "result"))
            && RawAt(c, record, "parameters_hash") == StableHash(c, Get(record, "parameters"))
  {
  }
}

/** How the receipt of an action comes about, and when a capsule may rest on it (core/agent_runtime/orchestrator.py,
    core/runtime_continuity.py). */
module CapsuleEmission {
  import opened Wrappers
  import opened Json
  import opened CapsuleRecords
  import opened CapsuleReceipts
  import Text

  /** A terminal tool event with a named tool, as `build_tool_action_record` has cleaned it: the identifiers are those given or
      generated, and the texts are redacted. */
  datatype Action = Action(
    session: string, chat: string, project: string,
    receiptId: string, actionId: string, tool: string,
    event: string, mode: string, status: string, ok: bool, summary: string,
    parameters: map<string, Json>, occurredAt: string,
    extras: map<string, Json>)  // actor, target, failure, identifiers and approval

  /** What a receipt is stored for: a terminal event, a tool name, a session, and identifiers, which are never empty. */
  predicate Emits(a: Action) {
    && a.event in OUTCOMES && !Text.IsBlank(a.session) && !Text.IsBlank(a.tool) && !Text.IsBlank(a.receiptId) && !Text.IsBlank(a.actionId)
    && "occurred_at" !in a.extras && "record_hash" !in a.extras
  }

  function Outcome(a: Action): string {
    if a.event == "tool_failed" || a.mode == "tool_failed" then "failed"
    else if a.event == "tool_preview" then "pending_approval"
    else "succeeded"
  }

  function ResultOf(a: Action): Json {
    JObject(map["outcome" := JStr(Outcome(a)), "ok" := JBool(a.ok), "status" := JStr(a.status), "mode" := JStr(a.mode),
                "summary" := JStr(a.summary)])
  }

  function OriginOf(a: Action): Json {
    JObject(map["chat_id" := JStr(a.chat), "project_id" := JStr(a.project)])
  }

  /** What the record says of the action, but for the hash over all of it and the date. */
  function Body(c: Codec, a: Action): map<string, Json> {
    a.extras + map[
      "schema" := JStr("tool_action_receipt_v1"),
      "receipt_id" := JStr(a.receiptId),
      "action_id" := JStr(a.actionId),
      "action_type" := JStr(a.event),
      "tool_name" := JStr(a.tool),
      "parameters" := JObject(a.parameters),
      "parameters_hash" := JStr(StableHash(c, JObject(a.parameters))),
      "result" := ResultOf(a),
      "result_hash" := JStr(StableHash(c, ResultOf(a))),
      "origin" := OriginOf(a)
    ]
  }

  function Sealed(c: Codec, body: map<string, Json>, occurredAt: string): map<string, Json> {
    body["occurred_at" := JStr(occurredAt)]["record_hash" := JStr(StableHash(c, JObject(body)))]
  }

  /** `build_tool_action_record` */
  function Record(c: Codec, a: Action): map<string, Json> {
    Sealed(c, Body(c, a), a.occurredAt)
  }

  function ExecutionOf(record: map<string, Json>): Json {
    JObject(map["action_record" := JObject(record)])
  }

  /** The row `store_tool_receipt` adds. */
  function StoredRow(a: Action, execution: Json): map<string, Json> {
    map["receipt_key" := JStr(Text.Strip(a.receiptId)), "session_id" := JStr(Text.Strip(a.session)),
        "tool_name" := JStr(Text.Strip(a.tool)), "idempotency_key" := JStr(Text.Strip(a.actionId)),
        "arguments" := JObject(a.parameters), "execution" := execution]
  }

  /** `emit_runtime_event`: the record is stored; of a receipt stored before, only the execution is replaced. */
  function Emit(c: Codec, ledger: Ledger, a: Action): Ledger {
    var key, execution := Text.Strip(a.receiptId), ExecutionOf(Record(c, a));
    ledger.(receipts := ledger.receipts[key := if key in ledger.receipts then ledger.receipts[key]["execution" := execution]
                                               else StoredRow(a, execution)])
  }

  /** The chat and project the receipt was made for, and a result whose outcome is the event's: only an event that failed may
      have the mode of a failure. */
  predicate Fits(ledger: Ledger, a: Action, chat: string, project: string) {
    && Text.Strip(a.chat) == chat && Text.Strip(a.project) == project && !Text.IsBlank(a.summary)
    && (a.mode == "tool_failed" ==> a.event == "tool_failed")
    && ledger.isDate(a.occurredAt)
  }

  // ----- what the record and the row hold, key by key -----

  ghost predicate NamesTheAction(record: map<string, Json>, a: Action) {
    && Get(record, "schema") == JStr("tool_action_receipt_v1") && Get(record, "receipt_id") == JStr(a.receiptId)
    && Get(record, "action_id") == JStr(a.actionId) && Get(record, "action_type") == JStr(a.event)
    && Get(record, "tool_name") == JStr(a.tool) && Get(record, "origin") == OriginOf(a)
  }

  ghost predicate HoldsTheAction(c: Codec, record: map<string, Json>, a: Action) {
    && Get(record, "parameters") == JObject(a.parameters) && Get(record, "parameters_hash") == JStr(StableHash(c, JObject(a.parameters)))
    && Get(record, "result") == ResultOf(a) && Get(record, "result_hash") == JStr(StableHash(c, ResultOf(a)))
  }

  ghost predicate IsSealed(c: Codec, record: map<string, Json>, occurredAt: string) {
    Get(record, "record_hash") == JStr(StableHash(c, Hashed(record))) && Get(record, "occurred_at") == JStr(occurredAt)
  }

  ghost predicate KeepsTheAction(c: Codec, row: map<string, Json>, first: Action) {
    && Get(row, "receipt_key") == JStr(Text.Strip(first.receiptId)) && Get(row, "session_id") == JStr(Text.Strip(first.session))
    && Get(row, "tool_name") == JStr(Text.Strip(first.tool)) && Get(row, "idempotency_key") == JStr(Text.Strip(first.actionId))
    && Get(row, "arguments") == JObject(first.parameters)
  }

  lemma BodyNames(c: Codec, a: Action)
    ensures Get(Body(c, a), "schema") == JStr("tool_action_receipt_v1") && Get(Body(c, a), "receipt_id") == JStr(a.receiptId)
  {
  }

  lemma BodyNamesTool(c: Codec, a: Action)
    ensures Get(Body(c, a), "action_id") == JStr(a.actionId) && Get(Body(c, a), "action_type") == JStr(a.event)
    ensures Get(Body(c, a), "tool_name") == JStr(a.tool) && Get(Body(c, a), "origin") == OriginOf(a)
  {
  }

  lemma BodyHolds(c: Codec, a: Action)
    ensures HoldsTheAction(c, Body(c, a), a)
  {
  }

  lemma BodyIsUnsealed(c: Codec, a: Action)
    requires Emits(a)
    ensures "occurred_at" !in Body(c, a) && "record_hash" !in Body(c, a)
  {
  }

  lemma SealedIsSealed(c: Codec, body: map<string, Json>, occurredAt: string)
    requires "occurred_at" !in body && "record_hash" !in body
    ensures IsSealed(c, Sealed(c, body, occurredAt), occurredAt)
  {
    assert Sealed(c, body, occurredAt) - {"occurred_at", "record_hash"} == body;
  }

  lemma SealedKeeps(c: Codec, body: map<string, Json>, occurredAt: string, key: string)
    requires key != "occurred_at" && key != "record_hash"
    ensures Get(Sealed(c, body, occurredAt), key) == Get(body, key)
  {
  }

  lemma SealedNames(c: Codec, body: map<string, Json>, a: Action)
    requires NamesTheAction(body, a)
    ensures NamesTheAction(Sealed(c, body, a.occurredAt), a)
  {
    SealedKeeps(c, body, a.occurredAt, "schema");
    SealedKeeps(c, body, a.occurredAt, "receipt_id");
    SealedKeeps(c, body, a.occurredAt, "action_id");
    SealedKeeps(c, body, a.occurredAt, "action_type");
    SealedKeeps(c, body, a.occurredAt, "tool_name");
    SealedKeeps(c, body, a.occurredAt, "origin");
  }

  lemma SealedHolds(c: Codec, body: map<string, Json>, a: Action)
    requires HoldsTheAction(c, body, a)
    ensures HoldsTheAction(c, Sealed(c, body, a.occurredAt), a)
  {
    SealedKeeps(c, body, a.occurredAt, "parameters");
    SealedKeeps(c, body, a.occurredAt, "parameters_hash");
    SealedKeeps(c, body, a.occurredAt, "result");
    SealedKeeps(c, body, a.occurredAt, "result_hash");
  }

  lemma RecordSays(c: Codec, a: Action)
    requires Emits(a)
    ensures var record := Record(c, a);
            NamesTheAction(record, a) && HoldsTheAction(c, record, a) && IsSealed(c, record, a.occurredAt)
  {
    BodyNames(c, a);
    BodyNamesTool(c, a);
    BodyHolds(c, a);
    BodyIsUnsealed(c, a);
    SealedNames(c, Body(c, a), a);
    SealedHolds(c, Body(c, a), a);
    SealedIsSealed(c, Body(c, a), a.occurredAt);
  }

  lemma RowKeeps(c: Codec, first: Action, execution: Json)
    ensures KeepsTheAction(c, StoredRow(first, execution), first) && Get(StoredRow(first, execution), "execution") == execution
  {
  }

  // ----- what the checks of a receipt read there -----

  lemma TextOfText(c: Codec, fields: map<string, Json>, key: string, s: string)
    requires Sound(c) && Get(fields, key) == JStr(s)
    ensures RawAt(c, fields, key) == s && TextAt(c, fields, key) == Text.Strip(s)
  {
    assert c.str(JStr(s)) == s;
  }

  /** The outcomes and events are their own stripped text. */
  lemma PlainNames(s: string)
    requires s in OUTCOMES || s == "succeeded" || s == "failed" || s == "pending_approval"
    ensures Text.Strip(s) == s
  {
  }

  lemma OutcomeFits(a: Action)
    requires a.event in OUTCOMES
    ensures Outcome(a) == OUTCOMES[a.event] <==> (a.mode == "tool_failed" ==> a.event == "tool_failed")
  {
  }

  lemma ResultReads(c: Codec, a: Action)
    requires Sound(c)
    ensures var result := ResultOf(a);
            && result.JObject? && TextAt(c, result.fields, "summary") == Text.Strip(a.summary) && RawAt(c, result.fields, "summary") == a.summary
            && TextAt(c, result.fields, "outcome") == Text.Strip(Outcome(a))
  {
    var result := ResultOf(a).fields;
    TextOfText(c, result, "summary", a.summary);
    TextOfText(c, result, "outcome", Outcome(a));
  }

  lemma OriginReads(c: Codec, a: Action)
    requires Sound(c)
    ensures var origin := OriginOf(a);
            && origin.JObject? && TextAt(c, origin.fields, "chat_id") == Text.Strip(a.chat)
            && TextAt(c, origin.fields, "project_id") == Text.Strip(a.project)
  {
    var origin := OriginOf(a).fields;
    TextOfText(c, origin, "chat_id", a.chat);
    TextOfText(c, origin, "project_id", a.project);
  }

  lemma NamesActionIff(c: Codec, record: map<string, Json>, a: Action, chat: string, project: string)
    requires Sound(c) && Emits(a) && NamesTheAction(record, a) && HoldsTheAction(c, record, a)
    ensures NamesAction(c, record, Text.Strip(a.receiptId), chat, project) <==>
            Text.Strip(a.chat) == chat && Text.Strip(a.project) == project && !Text.IsBlank(a.summary)
            && (a.mode == "tool_failed" ==> a.event == "tool_failed")
  {
    TextOfText(c, record, "receipt_id", a.receiptId);
    TextOfText(c, record, "action_id", a.actionId);
    TextOfText(c, record, "tool_name", a.tool);
    TextOfText(c, record, "action_type", a.event);
    PlainNames(a.event);
    OutcomeFits(a);
    PlainNames(Outcome(a));
    ResultReads(c, a);
    OriginReads(c, a);
  }

  lemma SameHashIff(c: Codec, arguments: map<string, Json>, parameters: map<string, Json>)
    requires Sound(c)
    ensures StableHash(c, if Truthy(JObject(arguments)) then JObject(arguments) else JObject(map[])) == StableHash(c, JObject(parameters))
            <==> arguments == parameters
  {
    if StableHash(c, if Truthy(JObject(arguments)) then JObject(arguments) else JObject(map[])) == StableHash(c, JObject(parameters)) {
      HashTellsApart(c, if Truthy(JObject(arguments)) then JObject(arguments) else JObject(map[]), JObject(parameters));
    }
  }

  lemma HashesHoldIff(c: Codec, row: map<string, Json>, record: map<string, Json>, first: Action, last: Action)
    requires Sound(c) && KeepsTheAction(c, row, first)
    requires NamesTheAction(record, last) && HoldsTheAction(c, record, last) && IsSealed(c, record, last.occurredAt)
    ensures HashesHold(c, row, record) <==>
            Text.Strip(first.tool) == Text.Strip(last.tool) && Text.Strip(first.actionId) == Text.Strip(last.actionId)
            && first.parameters == last.parameters
  {
    TextOfText(c, row, "tool_name", Text.Strip(first.tool));
    TextOfText(c, row, "idempotency_key", Text.Strip(first.actionId));
    Text.StripTwice(first.tool);
    Text.StripTwice(first.actionId);
    TextOfText(c, record, "tool_name", last.tool);
    TextOfText(c, record, "action_id", last.actionId);
    TextOfText(c, record, "parameters_hash", StableHash(c, JObject(last.parameters)));
    TextOfText(c, record, "result_hash", StableHash(c, ResultOf(last)));
    TextOfText(c, record, "record_hash", StableHash(c, Hashed(record)));
    SameHashIff(c, first.parameters, last.parameters);
  }

  lemma NamesReceiptIff(c: Codec, ledger: Ledger, first: Action, id: string, chat: string)
    requires Sound(c) && id in ledger.receipts && KeepsTheAction(c, ledger.receipts[id], first) && id == Text.Strip(first.receiptId) != ""
    ensures NamesReceipt(c, ledger, id, chat) <==> Text.Strip(first.session) == chat
  {
    TextOfText(c, ledger.receipts[id], "receipt_key", Text.Strip(first.receiptId));
    TextOfText(c, ledger.receipts[id], "session_id", Text.Strip(first.session));
    Text.StripTwice(first.receiptId);
    Text.StripTwice(first.session);
  }

  lemma RecordIsRead(ledger: Ledger, id: string, record: map<string, Json>)
    requires id in ledger.receipts && Get(ledger.receipts[id], "execution") == ExecutionOf(record) && record != map[]
    ensures ReadRecord(ledger, ledger.receipts[id]) == Some(record) && RecordOf(ledger, id) == record
  {
    assert Get(ExecutionOf(record).fields, "action_record") == JObject(record);
  }

  lemma RowVerifiesIff(c: Codec, ledger: Ledger, first: Action, last: Action, chat: string, project: string)
    requires Sound(c) && Emits(first) && Emits(last) && Text.Strip(first.receiptId) == Text.Strip(last.receiptId)
    requires Text.Strip(last.receiptId) in ledger.receipts
    requires KeepsTheAction(c, ledger.receipts[Text.Strip(last.receiptId)], first)
    requires Get(ledger.receipts[Text.Strip(last.receiptId)], "execution") == ExecutionOf(Record(c, last))
    ensures Verifies(c, ledger, Text.Strip(last.receiptId), chat, project) <==>
            && Text.Strip(first.session) == chat && Fits(ledger, last, chat, project)
            && Text.Strip(first.tool) == Text.Strip(last.tool) && Text.Strip(first.actionId) == Text.Strip(last.actionId)
            && first.parameters == last.parameters
    ensures Verifies(c, ledger, Text.Strip(last.receiptId), chat, project) ==>
              Verified(c, ledger, chat, project)[Text.Strip(last.receiptId)] == last.summary
  {
    var id, record := Text.Strip(last.receiptId), Record(c, last);
    RecordSays(c, last);
    RecordIsRead(ledger, id, record);
    NamesReceiptIff(c, ledger, first, id, chat);
    TextOfText(c, record, "occurred_at", last.occurredAt);
    NamesActionIff(c, record, last, chat, project);
    HashesHoldIff(c, ledger.receipts[id], record, first, last);
    ResultReads(c, last);
    if Verifies(c, ledger, id, chat, project) {
      VerifiedFacts(c, ledger, id, chat, project);
    }
  }

  /** A receipt counts for a chat and its project if and only if it was stored in the chat's session for an action of that chat
      and project, with a summary and a date, and a failing mode came with a failing event. What a capsule then quotes is the
      summary of the action. */
  lemma EmittedReceiptVerifiesIff(c: Codec, ledger: Ledger, a: Action, chat: string, project: string)
    requires Sound(c) && Emits(a) && Text.Strip(a.receiptId) !in ledger.receipts
    ensures var id, after := Text.Strip(a.receiptId), Emit(c, ledger, a);
            && (Verifies(c, after, id, chat, project) <==> Text.Strip(a.session) == chat && Fits(ledger, a, chat, project))
            && (Verifies(c, after, id, chat, project) ==> Verified(c, after, chat, project)[id] == a.summary)
  {
    RowKeeps(c, a, ExecutionOf(Record(c, a)));
    RowVerifiesIff(c, Emit(c, ledger, a), a, a, chat, project);
  }

  lemma ReplacedExecution(c: Codec, row: map<string, Json>, first: Action, execution: Json)
    requires KeepsTheAction(c, row, first)
    ensures KeepsTheAction(c, row["execution" := execution], first) && Get(row["execution" := execution], "execution") == execution
  {
  }

  /** When another action is stored under the same receipt, the receipt counts if and only if it would count for the later
      action in the session of the earlier one, and both used the same tool, action id and parameters. */
  lemma ReemittedReceiptVerifiesIff(c: Codec, ledger: Ledger, first: Action, last: Action, chat: string, project: string)
    requires Sound(c) && Emits(first) && Emits(last) && Text.Strip(first.receiptId) == Text.Strip(last.receiptId)
    requires Text.Strip(last.receiptId) !in ledger.receipts
    ensures Verifies(c, Emit(c, Emit(c, ledger, first), last), Text.Strip(last.receiptId), chat, project) <==>
            && Text.Strip(first.session) == chat && Fits(ledger, last, chat, project)
            && Text.Strip(first.tool) == Text.Strip(last.tool) && Text.Strip(first.actionId) == Text.Strip(last.actionId)
            && first.parameters == last.parameters
  {
    RowKeeps(c, first, ExecutionOf(Record(c, first)));
    ReplacedExecution(c, StoredRow(first, ExecutionOf(Record(c, first))), first, ExecutionOf(Record(c, last)));
    RowVerifiesIff(c, Emit(c, Emit(c, ledger, first), last), first, last, chat, project);
  }

  /** A tool event that says it was executed, with the mode of a failure, leaves a receipt that no capsule can rest on. */
  lemma FailedModeIsNeverVerified(c: Codec, ledger: Ledger, a: Action, chat: string, project: string)
    requires Sound(c) && Emits(a) && Text.Strip(a.receiptId) !in ledger.receipts
    requires a.event == "tool_executed" && a.mode == "tool_failed"
    ensures !Verifies(c, Emit(c, ledger, a), Text.Strip(a.receiptId), chat, project)
  {
    EmittedReceiptVerifiesIff(c, ledger, a, chat, project);
  }
}

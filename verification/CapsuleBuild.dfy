/** The capsule one turn adds to a chain, and the row that stores it
    (core/active_context_capsule.py, `create_shadow_capsule`). */
module CapsuleBuild {
  import opened Wrappers
  import opened Claims
  import opened Json
  import opened CapsuleRecords
  import Text

  /** One finalized turn. Which sentences read as decisions or constraints is the recognizers' business, and so
      is the sorted order of the requested receipt ids; both arrive decided. */
  datatype Turn = Turn(
    userText: string,
    decisionSentences: seq<string>,
    constraintSentences: seq<string>,
    requestedActions: seq<string>,   // receipt ids of the actions the caller reports as verified
    requestedReceipts: seq<string>,  // every requested receipt id, those of the actions included
    requestId: string)

  const WINDOW := 12

  function SourceId(c: Codec, userText: string): string {
    "turn:" + Text.Take(c.hash(userText), 24)
  }

  /** `_claim` */
  function MakeClaim(c: Codec, text: string, sourceType: string, sourceId: string): Option<CapsuleClaim> {
    var clean, source := c.clean(text), Text.Strip(sourceId);
    if clean == "" || source == "" then None else Some(CapsuleClaim(clean, sourceType, source, c.hash(clean)))
  }

  function SentenceClaims(c: Codec, sentences: seq<string>, sourceId: string): seq<CapsuleClaim> {
    if sentences == [] then []
    else
      var rest := SentenceClaims(c, sentences[1..], sourceId);
      match MakeClaim(c, sentences[0], "transcript_user", sourceId)
      case Some(claim) => [claim] + rest
      case None => rest
  }

  function DecisionClaims(c: Codec, turn: Turn): seq<CapsuleClaim> {
    SentenceClaims(c, turn.decisionSentences, SourceId(c, turn.userText))
  }

  function ConstraintClaims(c: Codec, turn: Turn): seq<CapsuleClaim> {
    SentenceClaims(c, turn.constraintSentences, SourceId(c, turn.userText))
  }

  /** The requested receipts that the ledger verifies for this chat and project; `ledger` holds exactly those
      that do, with the summary of each result. */
  function VerifiedReceipts(requested: seq<string>, ledger: map<string, string>): seq<string> {
    if requested == [] then []
    else
      var rest := VerifiedReceipts(requested[1..], ledger);
      if !Text.IsBlank(requested[0]) && requested[0] in ledger then [requested[0]] + rest else rest
  }

  function ActionClaims(c: Codec, requested: seq<string>, ledger: map<string, string>): seq<CapsuleClaim> {
    if requested == [] then []
    else
      var rest := ActionClaims(c, requested[1..], ledger);
      if requested[0] !in ledger then rest
      else match MakeClaim(c, ledger[requested[0]], "verified_action", requested[0])
        case Some(claim) => [claim] + rest
        case None => rest
  }

  /** `_content_hash("\0".join([previous head, source id]))` */
  function NextTranscriptHead(c: Codec, head: string, sourceId: string): string {
    c.hash(head + "\0" + sourceId)
  }

  function PreviousDecisions(previous: Option<Capsule>): seq<CapsuleClaim> {
    if previous.Some? then previous.value.decisions else []
  }

  function PreviousConstraints(previous: Option<Capsule>): seq<CapsuleClaim> {
    if previous.Some? then previous.value.constraints else []
  }

  function PreviousHead(previous: Option<Capsule>): string {
    if previous.Some? then previous.value.transcriptHead else ""
  }

  datatype Body = Body(
    objective: Option<CapsuleClaim>,
    decisions: seq<CapsuleClaim>,
    constraints: seq<CapsuleClaim>,
    unresolvedWork: seq<CapsuleClaim>,
    verifiedActions: seq<CapsuleClaim>,
    receiptReferences: seq<string>)

  function Objective(c: Codec, turn: Turn): Option<CapsuleClaim> {
    MakeClaim(c, turn.userText, "transcript_user", SourceId(c, turn.userText))
  }

  function NewBody(c: Codec, previous: Option<Capsule>, turn: Turn, ledger: map<string, string>): Body {
    var objective := Objective(c, turn);
    Body(objective,
         Window(PreviousDecisions(previous) + DecisionClaims(c, turn), WINDOW),
         Window(PreviousConstraints(previous) + ConstraintClaims(c, turn), WINDOW),
         if objective.Some? then [objective.value] else [],
         Window(ActionClaims(c, turn.requestedActions, ledger), WINDOW),
         VerifiedReceipts(turn.requestedReceipts, ledger))
  }

  function StringsJson(items: seq<string>): seq<Json> {
    seq(|items|, i requires 0 <= i < |items| => JStr(items[i]))
  }

  function BodyJson(body: Body, requestId: string): Json {
    JObject(map[
      "request_lineage" := JStr(Text.Strip(requestId)),
      "objective" := OptionalClaimJson(body.objective),
      "decisions" := JList(ClaimsJson(body.decisions)),
      "constraints" := JList(ClaimsJson(body.constraints)),
      "system_state" := JList([]),
      "unresolved_work" := JList(ClaimsJson(body.unresolvedWork)),
      "verified_actions" := JList(ClaimsJson(body.verifiedActions)),
      "receipt_references" := JList(StringsJson(body.receiptReferences))
    ])
  }

  function NextNumber(previous: Option<Capsule>): int {
    if previous.Some? then previous.value.versionNumber + 1 else 1
  }

  function NewFields(c: Codec, chat: string, project: string, previous: Option<Capsule>, body: Body, turn: Turn,
                     versionId: string, createdAt: string): Fields {
    var encoded := c.dumps(BodyJson(body, turn.requestId));
    Fields(versionId,
           Whole(NextNumber(previous)),
           chat, project,
           if previous.Some? then previous.value.versionId else "",
           "shadow", encoded,
           NextTranscriptHead(c, PreviousHead(previous), SourceId(c, turn.userText)),
           c.hash(encoded), createdAt)
  }

  /** The capsule `create_shadow_capsule` returns: the fields it stores beside the body it encoded. */
  function NewCapsule(f: Fields, n: int, recordHash: string, body: Body): Capsule {
    Capsule(f.versionId, n, f.chatId, f.projectId, f.previousVersionId, f.mode,
            body.objective, body.decisions, body.constraints, [], body.unresolvedWork, body.verifiedActions,
            body.receiptReferences, f.transcriptHead, f.payloadHash, recordHash, f.createdAt)
  }

  // ----- what is written is what is read back -----

  lemma {:induction false} ReferencesReadBack(c: Codec, requested: seq<string>, ledger: map<string, string>)
    requires Sound(c)
    ensures var ids := VerifiedReceipts(requested, ledger); ReadReferences(c, StringsJson(ids)) == ids
  {
    if requested != [] {
      ReferencesReadBack(c, requested[1..], ledger);
      var ids := VerifiedReceipts(requested, ledger);
      if !Text.IsBlank(requested[0]) && requested[0] in ledger {
        assert StringsJson(ids)[1..] == StringsJson(ids[1..]);
      }
    }
  }

  lemma ClaimReadsBack(c: Codec, claim: Option<CapsuleClaim>)
    requires Sound(c)
    ensures ClaimFromDict(c, OptionalClaimJson(claim)) == claim
  {
  }

  lemma ListReadsBack(c: Codec, items: seq<Json>)
    ensures Items(c, JList(items)) == Some(items)
  {
  }

  ghost predicate HoldsBody(payload: map<string, Json>, body: Body) {
    && Get(payload, "objective") == OptionalClaimJson(body.objective)
    && Get(payload, "decisions") == JList(ClaimsJson(body.decisions))
    && Get(payload, "constraints") == JList(ClaimsJson(body.constraints))
    && Get(payload, "system_state") == JList(ClaimsJson([]))
    && Get(payload, "unresolved_work") == JList(ClaimsJson(body.unresolvedWork))
    && Get(payload, "verified_actions") == JList(ClaimsJson(body.verifiedActions))
    && Get(payload, "receipt_references") == JList(StringsJson(body.receiptReferences))
  }

  lemma BodyJsonHoldsBody(body: Body, requestId: string)
    ensures HoldsBody(BodyJson(body, requestId).fields, body)
  {
    assert ClaimsJson([]) == [];
  }

  lemma ClaimListReadsBack(c: Codec, payload: map<string, Json>, key: string, claims: seq<CapsuleClaim>)
    requires Sound(c) && Get(payload, key) == JList(ClaimsJson(claims))
    ensures WalkableAt(c, payload, key) && ClaimsAt(c, payload, key) == claims
  {
    ListReadsBack(c, ClaimsJson(claims));
    ReadClaimsOfWritten(c, claims);
  }

  lemma PayloadReadsBack(c: Codec, body: Body, payload: map<string, Json>, f: Fields, n: int, recordHash: string)
    requires Sound(c) && HoldsBody(payload, body)
    requires ReadReferences(c, StringsJson(body.receiptReferences)) == body.receiptReferences
    ensures Walkable(c, payload) && CapsuleOf(c, f, n, recordHash, payload) == NewCapsule(f, n, recordHash, body)
  {
    ClaimReadsBack(c, body.objective);
    ClaimListReadsBack(c, payload, "decisions", body.decisions);
    ClaimListReadsBack(c, payload, "constraints", body.constraints);
    ClaimListReadsBack(c, payload, "system_state", []);
    ClaimListReadsBack(c, payload, "unresolved_work", body.unresolvedWork);
    ClaimListReadsBack(c, payload, "verified_actions", body.verifiedActions);
    ListReadsBack(c, StringsJson(body.receiptReferences));
  }

  lemma StoredFieldsDecode(c: Codec, f: Fields, n: int, recordHash: string, body: Body, payload: map<string, Json>)
    requires Walkable(c, payload) && CapsuleOf(c, f, n, recordHash, payload) == NewCapsule(f, n, recordHash, body)
    requires f.mode == "shadow" && f.payloadHash == c.hash(f.capsuleJson) && c.loads(f.capsuleJson) == Some(JObject(payload))
    requires Effective(c, f.versionNumber) == Some(n) && recordHash == RecordHash(c, f, n) != ""
    ensures DecodeRow(c, Row(f, recordHash)) == Decodes(NewCapsule(f, n, recordHash, body))
  {
  }

  /** A stored row decodes to exactly the capsule that `create_shadow_capsule` built, whatever its column holds that reads
      as the capsule's number. */
  lemma NewRowDecodes(c: Codec, previous: Option<Capsule>, turn: Turn, ledger: map<string, string>, f: Fields, v: Column,
                      chat: string, project: string, versionId: string, createdAt: string)
    requires Sound(c) && Effective(c, v) == Some(NextNumber(previous))
    requires f == NewFields(c, chat, project, previous, NewBody(c, previous, turn, ledger), turn, versionId, createdAt).(versionNumber := v)
    ensures DecodeRow(c, Row(f, RecordHash(c, f, NextNumber(previous))))
         == Decodes(NewCapsule(f, NextNumber(previous), RecordHash(c, f, NextNumber(previous)), NewBody(c, previous, turn, ledger)))
  {
    var body, n := NewBody(c, previous, turn, ledger), NextNumber(previous);
    ReferencesReadBack(c, turn.requestedReceipts, ledger);
    BodyJsonHoldsBody(body, turn.requestId);
    PayloadReadsBack(c, body, BodyJson(body, turn.requestId).fields, f, n, RecordHash(c, f, n));
    StoredFieldsDecode(c, f, n, RecordHash(c, f, n), body, BodyJson(body, turn.requestId).fields);
  }
}

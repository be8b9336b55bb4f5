/** Capsule rows, their hashes, and what a stored row decodes to (core/active_context_capsule.py).

    The hash, the JSON encoder and the text cleaner are given functions: `Codec` holds them and `Sound` states
    what is assumed of them, which some codec meets. Nothing is assumed about the bytes they produce. */
module CapsuleRecords {
  import opened Wrappers
  import opened Claims
  import opened Json
  import JsonText
  import Text

  /** What the column `version_number` can hold. It is declared INTEGER, so text that spells a number in full is stored as
      that number; other text and bytes are stored as they are. */
  datatype Column = Number(x: real) | Infinite(negative: bool) | Words(s: string) | Bytes(s: string)

  datatype Codec = Codec(
    hash: string -> string,              // `_content_hash`
    dumps: Json -> string,               // `json.dumps` with sorted keys
    loads: string -> Option<Json>,       // `json.loads`; None where it raises
    str: Json -> string,                 // `str(value)`
    toInt: Column -> Option<int>,        // `int(value)` of text or bytes; None where it raises
    keys: map<string, Json> -> seq<string>, // the keys of a decoded object, in its order
    clean: string -> string              // `_clean_text`: redacted, whitespace-joined, truncated
  )

  /** The hash has no collisions, is never empty and is NUL-free (it is hexadecimal). */
  ghost predicate SoundHash(c: Codec) {
    && (forall x, y :: c.hash(x) == c.hash(y) ==> x == y)
    && (forall x :: c.hash(x) != "" && '\0' !in c.hash(x))
  }

  /** Beside that, JSON text reads back as the value it was written from, and `str` leaves text as it is. */
  ghost predicate Sound(c: Codec) {
    && SoundHash(c)
    && (forall j :: c.loads(c.dumps(j)) == Some(j))
    && (forall s :: c.str(JStr(s)) == s)
  }

  /** These assumptions can be met. */
  lemma SoundCodecExists()
    ensures exists c: Codec :: Sound(c)
  {
    var c: Codec := Codec(s => JsonText.Spelled(s), j => JsonText.Written(j), s => JsonText.Read(s),
                   (j: Json) => if j.JStr? then j.s else "", _ => None, _ => [], s => s);
    forall x: string, y: string | c.hash(x) == c.hash(y) ensures x == y {
      JsonText.SpelledUnique(x, y);
    }
    forall x: string ensures c.hash(x) != "" && '\0' !in c.hash(x) {
      JsonText.SpelledIsPlain(x);
    }
    forall j: Json ensures c.loads(c.dumps(j)) == Some(j) {
      JsonText.ReadsBack(j);
    }
    assert Sound(c);
  }

  /** The columns `_capsule_record_hash` covers. */
  datatype Fields = Fields(
    versionId: string,
    versionNumber: Column,
    chatId: string,
    projectId: string,
    previousVersionId: string,
    mode: string,
    capsuleJson: string,
    transcriptHead: string,
    payloadHash: string,
    createdAt: string)

  datatype Row = Row(fields: Fields, recordHash: string)

  datatype Capsule = Capsule(
    versionId: string,
    versionNumber: int,
    chatId: string,
    projectId: string,
    previousVersionId: string,
    mode: string,
    objective: Option<CapsuleClaim>,
    decisions: seq<CapsuleClaim>,
    constraints: seq<CapsuleClaim>,
    systemState: seq<CapsuleClaim>,
    unresolvedWork: seq<CapsuleClaim>,
    verifiedActions: seq<CapsuleClaim>,
    receiptReferences: seq<string>,
    transcriptHead: string,
    payloadHash: string,
    recordHash: string,
    createdAt: string)

  const MODES := {"shadow", "active", "rejected"}

  function Whole(n: int): Column {
    Number(n as real)
  }

  /** `int(row["version_number"] or 1)`: zero and nothing read as 1, a fraction is cut off; None where it raises. */
  function Effective(c: Codec, v: Column): Option<int> {
    match v
    case Number(x) => Some(if x == 0.0 then 1 else Trunc(x))
    case Infinite(_) => None
    case _ => if v.s == "" then Some(1) else c.toInt(v)
  }

  function RecordJson(f: Fields, n: int): Json {
    JObject(map[
      "schema" := JStr("context_capsule_record_v2"),
      "version_id" := JStr(f.versionId),
      "version_number" := JInt(n),
      "chat_id" := JStr(f.chatId),
      "project_id" := JStr(f.projectId),
      "previous_version_id" := JStr(f.previousVersionId),
      "mode" := JStr(f.mode),
      "capsule_json" := JStr(f.capsuleJson),
      "transcript_head_hash" := JStr(f.transcriptHead),
      "payload_hash" := JStr(f.payloadHash),
      "created_at" := JStr(f.createdAt)
    ])
  }

  /** `_capsule_record_hash`, over the version number as it was read. */
  function RecordHash(c: Codec, f: Fields, n: int): string {
    c.hash(c.dumps(RecordJson(f, n)))
  }

  lemma HashTellsApart(c: Codec, i: Json, j: Json)
    requires Sound(c) && c.hash(c.dumps(i)) == c.hash(c.dumps(j))
    ensures i == j
  {
    assert c.loads(c.dumps(i)) == Some(i) && c.loads(c.dumps(j)) == Some(j);
  }

  lemma RecordJsonHoldsNames(f: Fields, m: int, g: Fields, n: int)
    requires RecordJson(f, m) == RecordJson(g, n)
    ensures f.versionId == g.versionId && m == n && f.chatId == g.chatId
    ensures f.projectId == g.projectId && f.previousVersionId == g.previousVersionId
  {
    var a, b := RecordJson(f, m).fields, RecordJson(g, n).fields;
    assert a["version_id"] == b["version_id"] && a["version_number"] == b["version_number"];
    assert a["chat_id"] == b["chat_id"] && a["project_id"] == b["project_id"];
    assert a["previous_version_id"] == b["previous_version_id"];
  }

  lemma RecordJsonHoldsContents(f: Fields, m: int, g: Fields, n: int)
    requires RecordJson(f, m) == RecordJson(g, n)
    ensures f.mode == g.mode && f.capsuleJson == g.capsuleJson && f.transcriptHead == g.transcriptHead
    ensures f.payloadHash == g.payloadHash && f.createdAt == g.createdAt
  {
    var a, b := RecordJson(f, m).fields, RecordJson(g, n).fields;
    assert a["mode"] == b["mode"] && a["capsule_json"] == b["capsule_json"];
    assert a["transcript_head_hash"] == b["transcript_head_hash"];
    assert a["payload_hash"] == b["payload_hash"] && a["created_at"] == b["created_at"];
  }

  /** Equal record hashes come from equal values in all ten hashed columns, the version number as it was read. */
  lemma RecordHashBindsEveryField(c: Codec, f: Fields, m: int, g: Fields, n: int)
    requires Sound(c) && RecordHash(c, f, m) == RecordHash(c, g, n)
    ensures m == n && f.(versionNumber := g.versionNumber) == g
  {
    HashTellsApart(c, RecordJson(f, m), RecordJson(g, n));
    RecordJsonHoldsNames(f, m, g, n);
    RecordJsonHoldsContents(f, m, g, n);
  }

  // ----- claims in JSON -----

  /** `asdict(claim)` */
  function ClaimJson(claim: CapsuleClaim): Json {
    JObject(map[
      "text" := JStr(claim.text),
      "source_type" := JStr(claim.sourceType),
      "source_id" := JStr(claim.sourceId),
      "content_hash" := JStr(claim.contentHash)
    ])
  }

  function OptionalClaimJson(claim: Option<CapsuleClaim>): Json {
    if claim.Some? then ClaimJson(claim.value) else JNull
  }

  function ClaimsJson(claims: seq<CapsuleClaim>): seq<Json> {
    seq(|claims|, i requires 0 <= i < |claims| => ClaimJson(claims[i]))
  }

  /** `_claim_from_dict` */
  function ClaimFromDict(c: Codec, j: Json): Option<CapsuleClaim> {
    if j.JObject? && {"text", "source_type", "source_id", "content_hash"} <= j.fields.Keys then
      Some(CapsuleClaim(c.str(j.fields["text"]), c.str(j.fields["source_type"]),
                        c.str(j.fields["source_id"]), c.str(j.fields["content_hash"])))
    else None
  }

  /** `list(value or [])`: None where Python raises TypeError, on a true number or boolean. */
  function Items(c: Codec, j: Json): Option<seq<Json>> {
    if !Truthy(j) then Some([])
    else match j
      case JList(items) => Some(items)
      case JStr(s) => Some(seq(|s|, i requires 0 <= i < |s| => JStr([s[i]])))
      case JObject(fields) => var names := c.keys(fields); Some(seq(|names|, i requires 0 <= i < |names| => JStr(names[i])))
      case _ => None
  }

  function ReadClaims(c: Codec, items: seq<Json>): seq<CapsuleClaim> {
    if items == [] then []
    else
      var rest := ReadClaims(c, items[1..]);
      match ClaimFromDict(c, items[0])
      case Some(claim) => [claim] + rest
      case None => rest
  }

  function ReadReferences(c: Codec, items: seq<Json>): seq<string> {
    if items == [] then []
    else
      var rest := ReadReferences(c, items[1..]);
      if Text.IsBlank(c.str(items[0])) then rest else [c.str(items[0])] + rest
  }

  lemma {:induction false} ReadClaimsOfWritten(c: Codec, claims: seq<CapsuleClaim>)
    requires Sound(c)
    ensures ReadClaims(c, ClaimsJson(claims)) == claims
  {
    if claims != [] {
      ReadClaimsOfWritten(c, claims[1..]);
      assert ClaimsJson(claims)[1..] == ClaimsJson(claims[1..]);
      assert claims == [claims[0]] + claims[1..];
    }
  }

  // ----- rows -----

  predicate WalkableAt(c: Codec, payload: map<string, Json>, key: string) {
    Items(c, Get(payload, key)).Some?
  }

  /** Every listed field of the payload can be walked: `list(value or [])` raises on none of them. */
  predicate Walkable(c: Codec, payload: map<string, Json>) {
    && WalkableAt(c, payload, "decisions") && WalkableAt(c, payload, "constraints")
    && WalkableAt(c, payload, "system_state") && WalkableAt(c, payload, "unresolved_work")
    && WalkableAt(c, payload, "verified_actions") && WalkableAt(c, payload, "receipt_references")
  }

  /** A number other than zero, or true. */
  predicate IsTrueNumber(j: Json) {
    match j
    case JBool(b) => b
    case JInt(n) => n < 0 || 0 < n
    case JFloat(x) => x.Finite? ==> 0 < x.mantissa
    case _ => false
  }

  /** Only a true number or boolean in one of the six lists cannot be walked. */
  lemma WalkableIff(c: Codec, payload: map<string, Json>)
    ensures Walkable(c, payload) <==>
            forall key | key in {"decisions", "constraints", "system_state", "unresolved_work", "verified_actions", "receipt_references"} ::
              key in payload ==> !IsTrueNumber(payload[key])
  {
    var lists := {"decisions", "constraints", "system_state", "unresolved_work", "verified_actions", "receipt_references"};
    assert Walkable(c, payload) <==> forall key :: key in lists ==> WalkableAt(c, payload, key);
    forall key ensures WalkableAt(c, payload, key) <==> (key in payload ==> !IsTrueNumber(payload[key])) {
    }
  }

  datatype Decoding = Refused | Raises | Decodes(capsule: Capsule)

  function ClaimsAt(c: Codec, payload: map<string, Json>, key: string): seq<CapsuleClaim> {
    var items := Items(c, Get(payload, key));
    if items.Some? then ReadClaims(c, items.value) else []
  }

  function ReferencesAt(c: Codec, payload: map<string, Json>, key: string): seq<string> {
    var items := Items(c, Get(payload, key));
    if items.Some? then ReadReferences(c, items.value) else []
  }

  function CapsuleOf(c: Codec, f: Fields, n: int, recordHash: string, payload: map<string, Json>): Capsule {
    Capsule(f.versionId, n, f.chatId, f.projectId, f.previousVersionId, f.mode,
            ClaimFromDict(c, Get(payload, "objective")),
            ClaimsAt(c, payload, "decisions"), ClaimsAt(c, payload, "constraints"),
            ClaimsAt(c, payload, "system_state"), ClaimsAt(c, payload, "unresolved_work"),
            ClaimsAt(c, payload, "verified_actions"), ReferencesAt(c, payload, "receipt_references"),
            f.transcriptHead, f.payloadHash, recordHash, f.createdAt)
  }

  /** The checks `_capsule_from_row` makes before it reads the version number. */
  predicate PassesFirstChecks(c: Codec, f: Fields) {
    c.hash(f.capsuleJson) == f.payloadHash && f.mode in MODES
  }

  /** The rest of `_capsule_from_row`, with the version number read as `n`. */
  function DecodeNumbered(c: Codec, f: Fields, n: int, recordHash: string): Decoding {
    if recordHash != RecordHash(c, f, n) then Refused
    else match c.loads(f.capsuleJson)
      case Some(JObject(payload)) => if Walkable(c, payload) then Decodes(CapsuleOf(c, f, n, recordHash, payload)) else Raises
      case _ => Refused
  }

  /** `_capsule_from_row` */
  function DecodeRow(c: Codec, row: Row): Decoding {
    if !PassesFirstChecks(c, row.fields) || row.recordHash == "" then Refused
    else match Effective(c, row.fields.versionNumber)
      case None => Raises
      case Some(n) => DecodeNumbered(c, row.fields, n, row.recordHash)
  }

  lemma DecodedNames(c: Codec, row: Row)
    requires DecodeRow(c, row).Decodes?
    ensures var cap := DecodeRow(c, row).capsule;
            && cap.versionId == row.fields.versionId && Effective(c, row.fields.versionNumber) == Some(cap.versionNumber)
            && cap.chatId == row.fields.chatId && cap.previousVersionId == row.fields.previousVersionId
            && row.recordHash == RecordHash(c, row.fields, cap.versionNumber) != ""
  {
  }

  /** A row whose number can be read and that is not refused decodes as any decoding row with its record hash does. */
  lemma SameHashSameCapsule(c: Codec, row: Row, other: Row)
    requires Sound(c) && row.recordHash == other.recordHash
    requires DecodeRow(c, row) != Refused && Effective(c, row.fields.versionNumber).Some? && DecodeRow(c, other).Decodes?
    ensures DecodeRow(c, row) == DecodeRow(c, other)
  {
    DecodedNames(c, other);
    RecordHashBindsEveryField(c, row.fields, Effective(c, row.fields.versionNumber).value,
                              other.fields, Effective(c, other.fields.versionNumber).value);
  }
}

/** Resuming a paid operation: the envelope, the approval and the bounds written down at dispatch, and the plan rebuilt
    from them later (adapters/usepod_adapter.py, `_resume_context`, `_approval_from_context`, `resume_paid_operation`;
    core/usepod/transport.py, `_envelope_record`, `_envelope_from_record`). */
module UsePodResume {
  import opened Wrappers
  import opened Json
  import opened UsePodPricing
  import JsonText

  /** A listed price; one that was missing, negative or no integer in the provider's feed is unknown. */
  datatype RoutePrice = RoutePrice(routeClass: string, provider: string, input: Option<nat>, output: Option<nat>)

  datatype Approval = Approval(
    approvalId: string,
    boundApprovalId: string,
    modelId: string,
    headerRoutingMode: string,
    headerProviders: string,
    pinnedProviders: seq<string>,
    maxInput: int,
    maxOutput: int,
    allowedRouteClasses: seq<string>,
    eligiblePrices: seq<RoutePrice>,
    fallbackExpected: bool,
    snapshotSha256: string,
    snapshotFetchedAt: Float,
    snapshotEvidence: string,
    snapshotAgeSeconds: Float,
    checkedAt: Float,
    notes: seq<string>)

  datatype Envelope = Envelope(
    operationId: string,
    transportMode: string,
    protocol: string,
    httpMethod: string,
    origin: string,
    pathTemplate: string,
    body: seq<bv8>,
    bodySha256: string,
    bindingSha256: string,
    controlHeaders: seq<(string, string)>,
    modelId: string,
    maxOutputTokens: int,
    streaming: bool,
    routeApprovalId: string,
    createdAt: Float)

  /** The part of a plan that judges an answer. */
  datatype JudgingPlan = JudgingPlan(
    approval: Approval,
    trust: map<string, Json>,
    envelope: Envelope,
    inputTokenBound: int,
    maxCharge: int)

  /** The given functions that write. */
  datatype Writers = Writers(
    dumps: Json -> string,
    base64: seq<bv8> -> string,
    display: int -> string)                        // a price as decimal text

  /** The given functions that read; None where Python raises. */
  datatype Readers = Readers(
    loads: string -> Option<Json>,
    str: Json -> string,
    toInt: Json -> Option<int>,                    // `int(value)`
    toFloat: Json -> Option<Float>,                // `float(value)`
    pairs: seq<Json> -> Option<map<string, Json>>, // `dict(items)`
    keys: map<string, Json> -> seq<string>,
    unbase64: string -> Option<seq<bv8>>,
    sha256: seq<bv8> -> string,
    binding: (string, string, string) -> string,   // of method, path template and body hash
    speaks: (string, string) -> bool,              // the transport mode and dialect exist
    headerValid: (string, string) -> bool)

  /** What was written reads back, and a conversion leaves alone what already is of its type. */
  ghost predicate Sound(w: Writers, r: Readers) {
    && (forall j :: w.dumps(j) != "" && r.loads(w.dumps(j)) == Some(j))
    && (forall s :: r.str(JStr(s)) == s)
    && (forall n :: r.toInt(JInt(n)) == Some(n))
    && (forall x :: r.toFloat(JFloat(x)) == Some(x))
    && (forall b :: r.unbase64(w.base64(b)) == Some(b))
  }

  /** The body hash has no collisions, and neither has the binding of method, path and body hash. */
  ghost predicate BindsApart(r: Readers) {
    && (forall a, b :: r.sha256(a) == r.sha256(b) ==> a == b)
    && (forall m, p, h, n, q, g :: r.binding(m, p, h) == r.binding(n, q, g) ==> m == n && p == q && h == g)
  }

  function Spelled(b: seq<bv8>): string {
    seq(|b|, i requires 0 <= i < |b| => b[i] as char)
  }

  function Unspelled(s: string): Option<seq<bv8>> {
    if forall i :: 0 <= i < |s| ==> s[i] as int < 256 then
      Some(seq(|s|, i requires 0 <= i < |s| => s[i] as bv8))
    else None
  }

  ghost function BoundText(httpMethod: string, path: string, bodyHash: string): string {
    JsonText.Written(JList([JStr(httpMethod), JStr(path), JStr(bodyHash)]))
  }

  lemma BoundTextBinds(m: string, p: string, h: string, n: string, q: string, g: string)
    requires BoundText(m, p, h) == BoundText(n, q, g)
    ensures m == n && p == q && h == g
  {
    var a, b := JList([JStr(m), JStr(p), JStr(h)]), JList([JStr(n), JStr(q), JStr(g)]);
    JsonText.ReadsBack(a);
    JsonText.ReadsBack(b);
    assert a.items[0] == b.items[0] && a.items[1] == b.items[1] && a.items[2] == b.items[2];
  }

  /** These assumptions can be met. */
  lemma SoundReadersExist()
    ensures exists w: Writers, r: Readers :: Sound(w, r) && BindsApart(r)
  {
    var w: Writers := Writers(j => JsonText.Written(j), b => Spelled(b), _ => "");
    var r: Readers := Readers(
      s => JsonText.Read(s), (j: Json) => if j.JStr? then j.s else "", (j: Json) => if j.JInt? then Some(j.n) else None,
      (j: Json) => if j.JFloat? then Some(j.x) else None, _ => None, _ => [], s => Unspelled(s), b => Spelled(b),
      (m, p, h) => BoundText(m, p, h), (_, _) => true, (_, _) => true);
    forall j: Json ensures w.dumps(j) != "" && r.loads(w.dumps(j)) == Some(j) {
      JsonText.ReadsBack(j);
    }
    forall b: seq<bv8> ensures r.unbase64(w.base64(b)) == Some(b) {
      forall i | 0 <= i < |b| ensures Spelled(b)[i] as int < 256 && Spelled(b)[i] as bv8 == b[i] {
      }
      assert Unspelled(Spelled(b)).value == b;
    }
    assert Sound(w, r);
    forall a: seq<bv8>, b: seq<bv8> | r.sha256(a) == r.sha256(b) ensures a == b {
      assert r.unbase64(w.base64(a)) == Some(a) && r.unbase64(w.base64(b)) == Some(b);
    }
    forall m, p, h, n, q, g | r.binding(m, p, h) == r.binding(n, q, g) ensures m == n && p == q && h == g {
      BoundTextBinds(m, p, h, n, q, g);
    }
  }

  // ----- writing -----

  function StringsJson(items: seq<string>): Json {
    JList(seq(|items|, i requires 0 <= i < |items| => JStr(items[i])))
  }

  function OptionalInt(n: Option<nat>): Json {
    if n.Some? then JInt(n.value) else JNull
  }

  /** `RoutePrice.as_dict` */
  function PriceJson(display: int -> string, p: RoutePrice): Json {
    JObject(map[
      "route_class" := JStr(p.routeClass),
      "provider" := JStr(p.provider),
      "input_microunits_per_million" := OptionalInt(p.input),
      "output_microunits_per_million" := OptionalInt(p.output),
      "input_usdc_per_million" := if p.input.Some? then JStr(display(p.input.value)) else JNull,
      "output_usdc_per_million" := if p.output.Some? then JStr(display(p.output.value)) else JNull
    ])
  }

  function PricesJson(display: int -> string, prices: seq<RoutePrice>): seq<Json> {
    seq(|prices|, i requires 0 <= i < |prices| => PriceJson(display, prices[i]))
  }

  function ApprovalJson(display: int -> string, a: Approval): map<string, Json> {
    map[
      "approval_id" := JStr(a.approvalId),
      "bound_approval_id" := JStr(a.boundApprovalId),
      "model_id" := JStr(a.modelId),
      "header_routing_mode" := JStr(a.headerRoutingMode),
      "header_providers" := JStr(a.headerProviders),
      "pinned_providers" := StringsJson(a.pinnedProviders),
      "max_input_microunits_per_million" := JInt(a.maxInput),
      "max_output_microunits_per_million" := JInt(a.maxOutput),
      "allowed_route_classes" := StringsJson(a.allowedRouteClasses),
      "eligible_prices" := JList(PricesJson(display, a.eligiblePrices)),
      "fallback_expected" := JBool(a.fallbackExpected),
      "snapshot_sha256" := JStr(a.snapshotSha256),
      "snapshot_fetched_at" := JFloat(a.snapshotFetchedAt),
      "snapshot_evidence" := JStr(a.snapshotEvidence),
      "snapshot_age_seconds" := JFloat(a.snapshotAgeSeconds),
      "checked_at" := JFloat(a.checkedAt),
      "notes" := StringsJson(a.notes)
    ]
  }

  /** `_resume_context` */
  function ContextJson(display: int -> string, p: JudgingPlan): map<string, Json> {
    map[
      "approval" := JObject(ApprovalJson(display, p.approval)),
      "trust" := JObject(p.trust),
      "input_token_bound" := JInt(p.inputTokenBound),
      "max_charge_atomic" := JInt(p.maxCharge)
    ]
  }

  function HeadersJson(headers: seq<(string, string)>): seq<Json> {
    seq(|headers|, i requires 0 <= i < |headers| => StringsJson([headers[i].0, headers[i].1]))
  }

  /** `_envelope_record` */
  function EnvelopeJson(base64: seq<bv8> -> string, e: Envelope): map<string, Json> {
    map[
      "operation_id" := JStr(e.operationId),
      "transport_mode" := JStr(e.transportMode),
      "protocol" := JStr(e.protocol),
      "method" := JStr(e.httpMethod),
      "origin" := JStr(e.origin),
      "path_template" := JStr(e.pathTemplate),
      "body_b64" := JStr(base64(e.body)),
      "body_sha256" := JStr(e.bodySha256),
      "binding_sha256" := JStr(e.bindingSha256),
      "control_headers" := JList(HeadersJson(e.controlHeaders)),
      "model_id" := JStr(e.modelId),
      "max_output_tokens" := JInt(e.maxOutputTokens),
      "stream" := JBool(e.streaming),
      "route_approval_id" := JStr(e.routeApprovalId),
      "created_at" := JFloat(e.createdAt)
    ]
  }

  // ----- reading -----

  /** `data[key]` */
  function Need(d: map<string, Json>, key: string): Option<Json> {
    if key in d then Some(d[key]) else None
  }

  /** What iterating over a value gives. */
  function Walk(r: Readers, j: Json): Option<seq<Json>> {
    match j
    case JList(items) => Some(items)
    case JStr(s) => Some(seq(|s|, i requires 0 <= i < |s| => JStr([s[i]])))
    case JObject(fields) => var names := r.keys(fields); Some(seq(|names|, i requires 0 <= i < |names| => JStr(names[i])))
    case _ => None
  }

  function TextAt(r: Readers, d: map<string, Json>, key: string): Option<string> {
    var j :- Need(d, key);
    Some(r.str(j))
  }

  function TextsAt(r: Readers, d: map<string, Json>, key: string): Option<seq<string>> {
    var j :- Need(d, key);
    var items :- Walk(r, j);
    Some(seq(|items|, i requires 0 <= i < |items| => r.str(items[i])))
  }

  function IntAt(r: Readers, d: map<string, Json>, key: string): Option<int> {
    var j :- Need(d, key);
    r.toInt(j)
  }

  function FloatAt(r: Readers, d: map<string, Json>, key: string): Option<Float> {
    var j :- Need(d, key);
    r.toFloat(j)
  }

  function BoolAt(d: map<string, Json>, key: string): Option<bool> {
    var j :- Need(d, key);
    Some(Truthy(j))
  }

  /** `int(context.get(key) or 0)` */
  function IntOrZero(r: Readers, d: map<string, Json>, key: string): Option<int> {
    if Truthy(Get(d, key)) then r.toInt(Get(d, key)) else Some(0)
  }

  /** `str(data.get(key) or "")` */
  function TextOrEmpty(r: Readers, d: map<string, Json>, key: string): string {
    if Truthy(Get(d, key)) then r.str(Get(d, key)) else ""
  }

  /** `_int_or_none`: what is neither null nor a non-negative integer is refused. */
  function ReadPrice(j: Json): Option<Option<nat>> {
    match j
    case JNull => Some(None)
    case JInt(n) => if n >= 0 then Some(Some(n)) else None
    case _ => None
  }

  /** `_route_price_from_dict` */
  function RoutePriceFrom(r: Readers, j: Json): Option<RoutePrice> {
    if !j.JObject? then None
    else
      var input :- ReadPrice(Get(j.fields, "input_microunits_per_million"));
      var output :- ReadPrice(Get(j.fields, "output_microunits_per_million"));
      Some(RoutePrice(TextOrEmpty(r, j.fields, "route_class"), TextOrEmpty(r, j.fields, "provider"), input, output))
  }

  function RoutePricesFrom(r: Readers, items: seq<Json>): Option<seq<RoutePrice>> {
    if items == [] then Some([])
    else
      var price :- RoutePriceFrom(r, items[0]);
      var rest :- RoutePricesFrom(r, items[1..]);
      Some([price] + rest)
  }

  function PricesAt(r: Readers, d: map<string, Json>, key: string): Option<seq<RoutePrice>> {
    var j :- Need(d, key);
    var items :- Walk(r, j);
    RoutePricesFrom(r, items)
  }

  /** `_approval_from_context` */
  function ApprovalFrom(r: Readers, d: map<string, Json>): Option<Approval> {
    var approvalId :- TextAt(r, d, "approval_id");
    var boundApprovalId :- TextAt(r, d, "bound_approval_id");
    var modelId :- TextAt(r, d, "model_id");
    var headerRoutingMode :- TextAt(r, d, "header_routing_mode");
    var headerProviders :- TextAt(r, d, "header_providers");
    var pinnedProviders :- TextsAt(r, d, "pinned_providers");
    var maxInput :- IntAt(r, d, "max_input_microunits_per_million");
    var maxOutput :- IntAt(r, d, "max_output_microunits_per_million");
    var allowedRouteClasses :- TextsAt(r, d, "allowed_route_classes");
    var eligiblePrices :- PricesAt(r, d, "eligible_prices");
    var fallbackExpected :- BoolAt(d, "fallback_expected");
    var snapshotSha256 :- TextAt(r, d, "snapshot_sha256");
    var snapshotFetchedAt :- FloatAt(r, d, "snapshot_fetched_at");
    var snapshotEvidence :- TextAt(r, d, "snapshot_evidence");
    var snapshotAgeSeconds :- FloatAt(r, d, "snapshot_age_seconds");
    var checkedAt :- FloatAt(r, d, "checked_at");
    var notes :- TextsAt(r, d, "notes");
    Some(Approval(approvalId, boundApprovalId, modelId, headerRoutingMode, headerProviders, pinnedProviders, maxInput, maxOutput,
                  allowedRouteClasses, eligiblePrices, fallbackExpected, snapshotSha256, snapshotFetchedAt, snapshotEvidence,
                  snapshotAgeSeconds, checkedAt, notes))
  }

  /** `for name, value in ...`: a header that does not unpack into two raises. */
  function HeaderFrom(r: Readers, j: Json): Option<(string, string)> {
    var parts :- Walk(r, j);
    if |parts| == 2 then Some((r.str(parts[0]), r.str(parts[1]))) else None
  }

  function HeadersFrom(r: Readers, items: seq<Json>): Option<seq<(string, string)>> {
    if items == [] then Some([])
    else
      var header :- HeaderFrom(r, items[0]);
      var rest :- HeadersFrom(r, items[1..]);
      Some([header] + rest)
  }

  function HeadersAt(r: Readers, d: map<string, Json>, key: string): Option<seq<(string, string)>> {
    var j :- Need(d, key);
    var items :- Walk(r, j);
    HeadersFrom(r, items)
  }

  function BodyAt(r: Readers, d: map<string, Json>, key: string): Option<seq<bv8>> {
    var text :- TextAt(r, d, key);
    r.unbase64(text)
  }

  /** What an envelope checks of itself whenever one is made. */
  predicate Lawful(r: Readers, e: Envelope) {
    && e.httpMethod == "POST" && r.speaks(e.transportMode, e.protocol)
    && r.sha256(e.body) == e.bodySha256 && r.binding(e.httpMethod, e.pathTemplate, e.bodySha256) == e.bindingSha256
    && (forall i :: 0 <= i < |e.controlHeaders| ==> r.headerValid(e.controlHeaders[i].0, e.controlHeaders[i].1))
    && e.maxOutputTokens >= 1
  }

  /** `_envelope_from_record` */
  function EnvelopeFrom(r: Readers, d: map<string, Json>): Option<Envelope> {
    var operationId :- TextAt(r, d, "operation_id");
    var transportMode :- TextAt(r, d, "transport_mode");
    var protocol :- TextAt(r, d, "protocol");
    var httpMethod :- TextAt(r, d, "method");
    var origin :- TextAt(r, d, "origin");
    var pathTemplate :- TextAt(r, d, "path_template");
    var body :- BodyAt(r, d, "body_b64");
    var bodySha256 :- TextAt(r, d, "body_sha256");
    var bindingSha256 :- TextAt(r, d, "binding_sha256");
    var controlHeaders :- HeadersAt(r, d, "control_headers");
    var modelId :- TextAt(r, d, "model_id");
    var maxOutputTokens :- IntAt(r, d, "max_output_tokens");
    var streaming :- BoolAt(d, "stream");
    var routeApprovalId :- TextAt(r, d, "route_approval_id");
    var createdAt :- FloatAt(r, d, "created_at");
    var e := Envelope(operationId, transportMode, protocol, httpMethod, origin, pathTemplate, body, bodySha256, bindingSha256,
                      controlHeaders, modelId, maxOutputTokens, streaming, routeApprovalId, createdAt);
    if Lawful(r, e) then Some(e) else None
  }

  function PlanFrom(r: Readers, context: map<string, Json>, record: map<string, Json>): Option<JudgingPlan> {
    var envelope :- EnvelopeFrom(r, record);
    var stored :- AsDict(r.pairs, Get(context, "approval"));
    var approval :- ApprovalFrom(r, stored);
    var trust :- AsDict(r.pairs, Get(context, "trust"));
    var inputTokenBound :- IntOrZero(r, context, "input_token_bound");
    var maxCharge :- IntOrZero(r, context, "max_charge_atomic");
    Some(JudgingPlan(approval, trust, envelope, inputTokenBound, maxCharge))
  }

  /** The plan `resume_paid_operation` builds from the two recorded texts. */
  function ResumedPlan(r: Readers, contextText: string, envelopeText: string): Option<JudgingPlan> {
    var context :- r.loads(if contextText == "" then "{}" else contextText);
    var record :- r.loads(envelopeText);
    if context.JObject? && record.JObject? then PlanFrom(r, context.fields, record.fields) else None
  }

  // ----- the round trip -----

  lemma TextsReadBack(w: Writers, r: Readers, d: map<string, Json>, key: string, items: seq<string>)
    requires Sound(w, r) && Need(d, key) == Some(StringsJson(items))
    ensures TextsAt(r, d, key) == Some(items)
  {
    var stored := StringsJson(items).items;
    assert items == seq(|stored|, i requires 0 <= i < |stored| => r.str(stored[i]));
  }

  /** `d` holds this value under the key. */
  predicate Says(d: map<string, Json>, key: string, j: Json) {
    Need(d, key) == Some(j)
  }

  lemma PriceReadsBack(w: Writers, r: Readers, p: RoutePrice)
    requires Sound(w, r)
    ensures RoutePriceFrom(r, PriceJson(w.display, p)) == Some(p)
  {
    var fields := PriceJson(w.display, p).fields;
    assert Get(fields, "input_microunits_per_million") == OptionalInt(p.input);
    assert Get(fields, "output_microunits_per_million") == OptionalInt(p.output);
    assert Get(fields, "route_class") == JStr(p.routeClass) && Get(fields, "provider") == JStr(p.provider);
  }

  lemma {:induction false} PricesReadBack(w: Writers, r: Readers, prices: seq<RoutePrice>)
    requires Sound(w, r)
    ensures RoutePricesFrom(r, PricesJson(w.display, prices)) == Some(prices)
  {
    if prices != [] {
      var rest := prices[1..];
      assert PricesJson(w.display, prices)[1..] == PricesJson(w.display, rest);
      PricesReadBack(w, r, rest);
      PriceReadsBack(w, r, prices[0]);
      assert prices == [prices[0]] + rest;
    }
  }

  lemma {:induction false} HeadersReadBack(w: Writers, r: Readers, headers: seq<(string, string)>)
    requires Sound(w, r)
    ensures HeadersFrom(r, HeadersJson(headers)) == Some(headers)
  {
    if headers != [] {
      var rest := headers[1..];
      assert HeadersJson(headers)[1..] == HeadersJson(rest);
      HeadersReadBack(w, r, rest);
      assert headers == [headers[0]] + rest;
    }
  }

  ghost predicate HoldsTexts(r: Readers, d: map<string, Json>, a: Approval) {
    && TextAt(r, d, "approval_id") == Some(a.approvalId) && TextAt(r, d, "bound_approval_id") == Some(a.boundApprovalId)
    && TextAt(r, d, "model_id") == Some(a.modelId) && TextAt(r, d, "header_routing_mode") == Some(a.headerRoutingMode)
    && TextAt(r, d, "header_providers") == Some(a.headerProviders) && TextAt(r, d, "snapshot_sha256") == Some(a.snapshotSha256)
    && TextAt(r, d, "snapshot_evidence") == Some(a.snapshotEvidence)
  }

  ghost predicate HoldsLists(r: Readers, d: map<string, Json>, a: Approval) {
    && TextsAt(r, d, "pinned_providers") == Some(a.pinnedProviders) && TextsAt(r, d, "notes") == Some(a.notes)
    && TextsAt(r, d, "allowed_route_classes") == Some(a.allowedRouteClasses) && PricesAt(r, d, "eligible_prices") == Some(a.eligiblePrices)
  }

  ghost predicate HoldsNumbers(r: Readers, d: map<string, Json>, a: Approval) {
    && IntAt(r, d, "max_input_microunits_per_million") == Some(a.maxInput)
    && IntAt(r, d, "max_output_microunits_per_million") == Some(a.maxOutput)
    && BoolAt(d, "fallback_expected") == Some(a.fallbackExpected)
    && FloatAt(r, d, "snapshot_fetched_at") == Some(a.snapshotFetchedAt)
    && FloatAt(r, d, "snapshot_age_seconds") == Some(a.snapshotAgeSeconds) && FloatAt(r, d, "checked_at") == Some(a.checkedAt)
  }

  ghost predicate SaysNames(d: map<string, Json>, a: Approval) {
    && Says(d, "approval_id", JStr(a.approvalId)) && Says(d, "bound_approval_id", JStr(a.boundApprovalId))
    && Says(d, "model_id", JStr(a.modelId)) && Says(d, "header_routing_mode", JStr(a.headerRoutingMode))
  }

  ghost predicate SaysSnapshot(d: map<string, Json>, a: Approval) {
    && Says(d, "header_providers", JStr(a.headerProviders))
    && Says(d, "snapshot_sha256", JStr(a.snapshotSha256)) && Says(d, "snapshot_evidence", JStr(a.snapshotEvidence))
  }

  lemma ApprovalSaysNames(display: int -> string, a: Approval)
    ensures SaysNames(ApprovalJson(display, a), a)
  {
  }

  lemma ApprovalSaysSnapshot(display: int -> string, a: Approval)
    ensures SaysSnapshot(ApprovalJson(display, a), a)
  {
  }

  lemma SaidTextsReadBack(w: Writers, r: Readers, d: map<string, Json>, a: Approval)
    requires Sound(w, r) && SaysNames(d, a) && SaysSnapshot(d, a)
    ensures HoldsTexts(r, d, a)
  {
  }

  ghost predicate SaysLists(display: int -> string, d: map<string, Json>, a: Approval) {
    && Says(d, "pinned_providers", StringsJson(a.pinnedProviders)) && Says(d, "notes", StringsJson(a.notes))
    && Says(d, "allowed_route_classes", StringsJson(a.allowedRouteClasses))
    && Says(d, "eligible_prices", JList(PricesJson(display, a.eligiblePrices)))
  }

  lemma ApprovalSaysLists(display: int -> string, a: Approval)
    ensures SaysLists(display, ApprovalJson(display, a), a)
  {
  }

  lemma SaidListsReadBack(w: Writers, r: Readers, d: map<string, Json>, a: Approval)
    requires Sound(w, r) && SaysLists(w.display, d, a)
    ensures HoldsLists(r, d, a)
  {
    TextsReadBack(w, r, d, "pinned_providers", a.pinnedProviders);
    TextsReadBack(w, r, d, "notes", a.notes);
    TextsReadBack(w, r, d, "allowed_route_classes", a.allowedRouteClasses);
    PricesReadBack(w, r, a.eligiblePrices);
  }

  ghost predicate SaysNumbers(d: map<string, Json>, a: Approval) {
    && Says(d, "max_input_microunits_per_million", JInt(a.maxInput)) && Says(d, "max_output_microunits_per_million", JInt(a.maxOutput))
    && Says(d, "fallback_expected", JBool(a.fallbackExpected)) && Says(d, "snapshot_fetched_at", JFloat(a.snapshotFetchedAt))
    && Says(d, "snapshot_age_seconds", JFloat(a.snapshotAgeSeconds)) && Says(d, "checked_at", JFloat(a.checkedAt))
  }

  lemma ApprovalSaysNumbers(display: int -> string, a: Approval)
    ensures SaysNumbers(ApprovalJson(display, a), a)
  {
  }

  lemma SaidNumbersReadBack(w: Writers, r: Readers, d: map<string, Json>, a: Approval)
    requires Sound(w, r) && SaysNumbers(d, a)
    ensures HoldsNumbers(r, d, a)
  {
  }

  lemma HeldApprovalIsRead(r: Readers, d: map<string, Json>, a: Approval)
    requires HoldsTexts(r, d, a) && HoldsLists(r, d, a) && HoldsNumbers(r, d, a)
    ensures ApprovalFrom(r, d) == Some(a)
  {
  }

  /** The approval rebuilt from a context is the one bound at dispatch. */
  lemma ApprovalReadsBack(w: Writers, r: Readers, a: Approval)
    requires Sound(w, r)
    ensures ApprovalFrom(r, ApprovalJson(w.display, a)) == Some(a)
  {
    var d := ApprovalJson(w.display, a);
    ApprovalSaysNames(w.display, a);
    ApprovalSaysSnapshot(w.display, a);
    SaidTextsReadBack(w, r, d, a);
    ApprovalSaysLists(w.display, a);
    SaidListsReadBack(w, r, d, a);
    ApprovalSaysNumbers(w.display, a);
    SaidNumbersReadBack(w, r, d, a);
    HeldApprovalIsRead(r, d, a);
  }

  ghost predicate HoldsNames(r: Readers, d: map<string, Json>, e: Envelope) {
    && TextAt(r, d, "operation_id") == Some(e.operationId) && TextAt(r, d, "transport_mode") == Some(e.transportMode)
    && TextAt(r, d, "protocol") == Some(e.protocol) && TextAt(r, d, "method") == Some(e.httpMethod)
    && TextAt(r, d, "origin") == Some(e.origin) && TextAt(r, d, "path_template") == Some(e.pathTemplate)
    && TextAt(r, d, "model_id") == Some(e.modelId) && TextAt(r, d, "route_approval_id") == Some(e.routeApprovalId)
    && FloatAt(r, d, "created_at") == Some(e.createdAt)
  }

  ghost predicate HoldsContents(r: Readers, d: map<string, Json>, e: Envelope) {
    && BodyAt(r, d, "body_b64") == Some(e.body) && HeadersAt(r, d, "control_headers") == Some(e.controlHeaders)
    && TextAt(r, d, "body_sha256") == Some(e.bodySha256) && TextAt(r, d, "binding_sha256") == Some(e.bindingSha256)
    && IntAt(r, d, "max_output_tokens") == Some(e.maxOutputTokens) && BoolAt(d, "stream") == Some(e.streaming)
  }

  ghost predicate SaysRequest(d: map<string, Json>, e: Envelope) {
    && Says(d, "operation_id", JStr(e.operationId)) && Says(d, "transport_mode", JStr(e.transportMode))
    && Says(d, "protocol", JStr(e.protocol)) && Says(d, "method", JStr(e.httpMethod)) && Says(d, "origin", JStr(e.origin))
  }

  ghost predicate SaysRoute(d: map<string, Json>, e: Envelope) {
    && Says(d, "path_template", JStr(e.pathTemplate)) && Says(d, "model_id", JStr(e.modelId))
    && Says(d, "route_approval_id", JStr(e.routeApprovalId)) && Says(d, "created_at", JFloat(e.createdAt))
  }

  ghost predicate SaysContents(base64: seq<bv8> -> string, d: map<string, Json>, e: Envelope) {
    && Says(d, "body_b64", JStr(base64(e.body))) && Says(d, "body_sha256", JStr(e.bodySha256))
    && Says(d, "binding_sha256", JStr(e.bindingSha256)) && Says(d, "control_headers", JList(HeadersJson(e.controlHeaders)))
    && Says(d, "max_output_tokens", JInt(e.maxOutputTokens)) && Says(d, "stream", JBool(e.streaming))
  }

  lemma EnvelopeSaysRequest(base64: seq<bv8> -> string, e: Envelope)
    ensures SaysRequest(EnvelopeJson(base64, e), e)
  {
  }

  lemma EnvelopeSaysRoute(base64: seq<bv8> -> string, e: Envelope)
    ensures SaysRoute(EnvelopeJson(base64, e), e)
  {
  }

  lemma EnvelopeSaysContents(base64: seq<bv8> -> string, e: Envelope)
    ensures SaysContents(base64, EnvelopeJson(base64, e), e)
  {
  }

  lemma SaidNamesReadBack(w: Writers, r: Readers, d: map<string, Json>, e: Envelope)
    requires Sound(w, r) && SaysRequest(d, e) && SaysRoute(d, e)
    ensures HoldsNames(r, d, e)
  {
  }

  lemma SaidContentsReadBack(w: Writers, r: Readers, d: map<string, Json>, e: Envelope)
    requires Sound(w, r) && SaysContents(w.base64, d, e)
    ensures HoldsContents(r, d, e)
  {
    HeadersReadBack(w, r, e.controlHeaders);
  }

  lemma HeldEnvelopeIsRead(r: Readers, d: map<string, Json>, e: Envelope)
    requires HoldsNames(r, d, e) && HoldsContents(r, d, e)
    ensures EnvelopeFrom(r, d) == if Lawful(r, e) then Some(e) else None
  {
  }

  /** The envelope rebuilt from its record is the one sealed, down to the bytes of its body; one that does not pass its
      own checks is refused. */
  lemma EnvelopeReadsBack(w: Writers, r: Readers, e: Envelope)
    requires Sound(w, r)
    ensures EnvelopeFrom(r, EnvelopeJson(w.base64, e)) == if Lawful(r, e) then Some(e) else None
  {
    var d := EnvelopeJson(w.base64, e);
    EnvelopeSaysRequest(w.base64, e);
    EnvelopeSaysRoute(w.base64, e);
    EnvelopeSaysContents(w.base64, e);
    SaidNamesReadBack(w, r, d, e);
    SaidContentsReadBack(w, r, d, e);
    HeldEnvelopeIsRead(r, d, e);
  }

  /** Which sealed envelopes are rebuilt: those of a POST with a known mode and dialect, a body that matches its hash, a binding
      that matches method, path and body hash, valid headers and a positive output ceiling. */
  lemma EnvelopeIsRebuiltIff(w: Writers, r: Readers, e: Envelope)
    requires Sound(w, r)
    ensures EnvelopeFrom(r, EnvelopeJson(w.base64, e)).Some? <==>
              && e.httpMethod == "POST" && r.speaks(e.transportMode, e.protocol)
              && r.sha256(e.body) == e.bodySha256 && r.binding("POST", e.pathTemplate, e.bodySha256) == e.bindingSha256
              && (forall h :: h in e.controlHeaders ==> r.headerValid(h.0, h.1))
              && 0 < e.maxOutputTokens
  {
    EnvelopeReadsBack(w, r, e);
    if Lawful(r, e) {
      forall h | h in e.controlHeaders ensures r.headerValid(h.0, h.1) {
        var i :| 0 <= i < |e.controlHeaders| && e.controlHeaders[i] == h;
      }
    }
  }

  /** Whatever was done to a record, the envelope rebuilt from it, if it bears the binding of the one sealed, sends the sealed
      bytes to the sealed path. */
  lemma RebuiltBytesAreSealed(r: Readers, sealedOne: Envelope, record: map<string, Json>)
    requires BindsApart(r) && Lawful(r, sealedOne)
    requires EnvelopeFrom(r, record).Some? && EnvelopeFrom(r, record).value.bindingSha256 == sealedOne.bindingSha256
    ensures var e := EnvelopeFrom(r, record).value;
            e.body == sealedOne.body && e.bodySha256 == sealedOne.bodySha256 && e.httpMethod == "POST" && e.pathTemplate == sealedOne.pathTemplate
  {
    RebuiltIsLawful(r, record);
    var e := EnvelopeFrom(r, record).value;
    assert r.binding(e.httpMethod, e.pathTemplate, e.bodySha256) == r.binding(sealedOne.httpMethod, sealedOne.pathTemplate, sealedOne.bodySha256);
    assert r.sha256(e.body) == r.sha256(sealedOne.body);
  }

  lemma RebuiltIsLawful(r: Readers, record: map<string, Json>)
    requires EnvelopeFrom(r, record).Some?
    ensures Lawful(r, EnvelopeFrom(r, record).value)
  {
  }

  lemma ContextReadsBack(w: Writers, r: Readers, p: JudgingPlan, context: map<string, Json>)
    requires Sound(w, r) && context == ContextJson(w.display, p)
    ensures AsDict(r.pairs, Get(context, "approval")) == Some(ApprovalJson(w.display, p.approval))
    ensures AsDict(r.pairs, Get(context, "trust")) == Some(p.trust)
    ensures IntOrZero(r, context, "input_token_bound") == Some(p.inputTokenBound)
    ensures IntOrZero(r, context, "max_charge_atomic") == Some(p.maxCharge)
  {
    assert "approval_id" in ApprovalJson(w.display, p.approval);
    assert Get(context, "approval") == JObject(ApprovalJson(w.display, p.approval)) && Get(context, "trust") == JObject(p.trust);
    assert Get(context, "input_token_bound") == JInt(p.inputTokenBound) && Get(context, "max_charge_atomic") == JInt(p.maxCharge);
  }

  lemma PlanReadsBack(w: Writers, r: Readers, p: JudgingPlan)
    requires Sound(w, r) && Lawful(r, p.envelope)
    ensures PlanFrom(r, ContextJson(w.display, p), EnvelopeJson(w.base64, p.envelope)) == Some(p)
  {
    ContextReadsBack(w, r, p, ContextJson(w.display, p));
    ApprovalReadsBack(w, r, p.approval);
    EnvelopeReadsBack(w, r, p.envelope);
  }

  /** The numbers the charge rule accepts; it refuses a negative one. */
  predicate Priceable(p: JudgingPlan) {
    p.approval.maxInput >= 0 && p.approval.maxOutput >= 0 && p.inputTokenBound >= 0 && p.envelope.maxOutputTokens >= 0
  }

  function BoundsOf(p: JudgingPlan): Bounds
    requires Priceable(p)
  {
    Bounds(p.approval.maxInput, p.approval.maxOutput, p.inputTokenBound, p.envelope.maxOutputTokens, p.maxCharge)
  }

  /** A resumed operation judges an answer exactly as its dispatch would have: the plan rebuilt from the two recorded texts
      is the dispatched one, with the same bytes to send, so every readable reply settles at the same token counts, cost
      bound and exceeds flag. */
  lemma ResumeAgreesWithDispatch(w: Writers, r: Readers, p: JudgingPlan, outcome: Outcome, usage: map<string, Json>)
    requires Sound(w, r) && Lawful(r, p.envelope) && Priceable(p)
    ensures var resumed := ResumedPlan(r, w.dumps(JObject(ContextJson(w.display, p))), w.dumps(JObject(EnvelopeJson(w.base64, p.envelope))));
            && resumed == Some(p)
            && SettlementFor(BoundsOf(resumed.value), outcome, usage) == SettlementFor(BoundsOf(p), outcome, usage)
  {
    PlanReadsBack(w, r, p);
    TextsAreRead(w, r, ContextJson(w.display, p), EnvelopeJson(w.base64, p.envelope));
  }

  /** `_prepare`: the input bound is read off the sealed body, and the charge follows from it and the approved prices. */
  predicate IsPrepared(p: JudgingPlan, maxOutputTokens: nat, inputPrice: nat, outputPrice: nat) {
    && p.approval.maxInput == inputPrice && p.approval.maxOutput == outputPrice && p.envelope.maxOutputTokens == maxOutputTokens
    && p.inputTokenBound == |p.envelope.body| + 512
    && p.maxCharge == PrepareBounds(|p.envelope.body|, maxOutputTokens, inputPrice, outputPrice).maxCharge
  }

  /** A resumed operation settles at what its dispatch prepared: the approved input price for input tokens, the output price for
      output tokens, and the bounds of the body that was sealed. */
  lemma ResumedCallSettlesAsPrepared(w: Writers, r: Readers, p: JudgingPlan, outcome: Outcome, usage: map<string, Json>,
                                     maxOutputTokens: nat, inputPrice: nat, outputPrice: nat)
    requires Sound(w, r) && Lawful(r, p.envelope) && IsPrepared(p, maxOutputTokens, inputPrice, outputPrice)
    ensures var resumed := ResumedPlan(r, w.dumps(JObject(ContextJson(w.display, p))), w.dumps(JObject(EnvelopeJson(w.base64, p.envelope))));
            && resumed.Some? && Priceable(resumed.value)
            && SettlementFor(BoundsOf(resumed.value), outcome, usage) ==
               SettlementFor(PrepareBounds(|p.envelope.body|, maxOutputTokens, inputPrice, outputPrice), outcome, usage)
  {
    ResumeAgreesWithDispatch(w, r, p, outcome, usage);
    assert BoundsOf(p) == PrepareBounds(|p.envelope.body|, maxOutputTokens, inputPrice, outputPrice);
  }

  lemma TextsAreRead(w: Writers, r: Readers, context: map<string, Json>, record: map<string, Json>)
    requires Sound(w, r)
    ensures ResumedPlan(r, w.dumps(JObject(context)), w.dumps(JObject(record))) == PlanFrom(r, context, record)
  {
    assert r.loads(w.dumps(JObject(context))) == Some(JObject(context));
    assert r.loads(w.dumps(JObject(record))) == Some(JObject(record));
  }
}

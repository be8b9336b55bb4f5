/** One paid, prepaid UsePod call: reserve, seal, consume the permit, claim, send, mark dispatched, pass the route gate,
    interpret, and end in a terminal record (adapters/usepod_adapter.py). What the environment does at each step is
    in a `Script`, so a statement over all scripts is a statement over every way the call can go. */
module UsePodCall {
  import opened Wrappers
  import opened Json
  import opened UsePodPricing
  import opened UsePodAuthority

  datatype ClaimDecision = Granted | RefusedAndReleased | Conflict

  datatype Compliance = Compliant | Violated | Unverified

  /** A response body, after the dialect is shaped to OpenAI's: unreadable, readable but no object, or a reply whose
      text and tool calls the lane's reader can use or not. */
  datatype Body = Unreadable | NotObject | Reply(fields: map<string, Json>, usable: bool)

  datatype Response = Response(status: int, compliance: Compliance, streaming: bool, body: Body)

  /** `post_envelope` returns a response or raises its typed error, which says whether the request left. */
  datatype Post = Answered(response: Response) | Failed(notSent: bool, code: string)

  datatype Script = Script(
    reserveGranted: bool,
    sealHolds: bool,
    permitHolds: bool,
    claim: ClaimDecision,
    post: Post,
    markAccepted: bool,
    refusalAccepted: bool,
    settleAccepted: bool,
    pairs: seq<Json> -> Option<map<string, Json>>)   // `dict(items)` of a non-empty list; None where it raises

  const NO_CHARGE_CODES := {"token_rejected", "payment_or_balance_required"}

  /** The code `error_for_response` gives a non-2xx status. */
  function ErrorCode(status: int): string {
    if 300 <= status < 400 then "redirect_refused"
    else if status == 503 then "no_provider_available"
    else if status == 400 || status == 422 then "request_rejected"
    else if status == 401 then "token_rejected"
    else if status == 402 then "payment_or_balance_required"
    else if status == 403 then "request_forbidden"
    else if status == 404 then "model_or_surface_not_found"
    else if status == 409 then "request_conflict"
    else if status == 413 then "request_too_large_for_provider"
    else if status == 429 then "throttled"
    else if status >= 500 then "upstream_failure"
    else "unexpected_status"
  }

  datatype CallError = NotReserved | SealFailed | PermitRefused | ClaimRefused | SendFailed | MarkFailed
                     | BadStatus(code: string) | RouteNotCompliant | AnswerUnusable | UsageUnreadable

  class Plan {
    const operationId: string
    const bounds: Bounds
    var liability: Option<int>
    var reservation: Option<int>   // the reserved amount, once the authority granted it
    var permit: bool

    /** `_prepare`: the sealed body, the output ceiling and the approved rates fix what the call may cost. */
    constructor (operationId: string, bodyBytes: nat, maxOutputTokens: nat, inputRate: nat, outputRate: nat)
      ensures this.operationId == operationId && bounds == PrepareBounds(bodyBytes, maxOutputTokens, inputRate, outputRate)
      ensures Priced(bounds) && liability == None && reservation == None && !permit
    {
      this.operationId, bounds := operationId, PrepareBounds(bodyBytes, maxOutputTokens, inputRate, outputRate);
      liability, reservation, permit := None, None, false;
    }
  }

  // ----- the records each stage leaves, by script -----

  function UnknownSettlement(b: Bounds): Settlement {
    SettlementFor(b, OutcomeUnknown, map[])
  }

  function UsageSeenOffRoute(s: Script, r: Response): map<string, Json> {
    if r.streaming || !r.body.Reply? then map[]
    else match AsDict(s.pairs, Get(r.body.fields, "usage"))
      case Some(usage) => usage
      case None => map[]
  }

  predicate Accepted2xx(r: Response) {
    200 <= r.status < 300
  }

  function GateRecords(b: Bounds, s: Script, r: Response): seq<Record> {
    if !Accepted2xx(r) then
      if ErrorCode(r.status) in NO_CHARGE_CODES && s.refusalAccepted then [SettledRefusal(ErrorCode(r.status), r.status)]
      else [RetainedUnknown(SettlementFor(b, FailedAfterSend, map[]))]
    else match r.compliance
      case Compliant => []
      case Violated => [RetainedUnknown(SettlementFor(b, RouteViolated, UsageSeenOffRoute(s, r)))]
      case Unverified => [RetainedUnknown(SettlementFor(b, RouteUnverified, UsageSeenOffRoute(s, r)))]
  }

  /** The usage a readable reply settles on; None where the code raises before it settles. */
  function SettledUsage(s: Script, fields: map<string, Json>, usable: bool): Option<map<string, Json>> {
    var usage := Get(fields, "usage");
    if usable then AsDict(s.pairs, usage) else Some(if usage.JObject? then usage.fields else map[])
  }

  function BodyRecords(b: Bounds, s: Script, body: Body): seq<Record> {
    match body
    case Reply(fields, usable) =>
      (match SettledUsage(s, fields, usable)
       case Some(usage) => if s.settleAccepted then [Settled(SettlementFor(b, Completed, usage))] else []
       case None => [])
    case _ => [RetainedUnknown(UnknownSettlement(b))]
  }

  /** The records after a response arrived; `last` is what reading an accepted one leaves. */
  function AnsweredRecords(b: Bounds, s: Script, r: Response, last: seq<Record>): seq<Record> {
    if !s.markAccepted then [RetainedUnknown(UnknownSettlement(b))]
    else if Accepted2xx(r) && r.compliance.Compliant? then [Dispatched] + last
    else [Dispatched] + GateRecords(b, s, r)
  }

  function SentRecords(b: Bounds, s: Script, last: seq<Record>): seq<Record> {
    match s.post
    case Failed(true, code) => [ReleasedUnsent(code)]
    case Failed(false, _) => [RetainedUnknown(UnknownSettlement(b))]
    case Answered(r) => AnsweredRecords(b, s, r, last)
  }

  /** The whole trace of a call whose accepted response leaves `last`. */
  function TraceWith(b: Bounds, s: Script, last: seq<Record>): seq<Record> {
    if !s.reserveGranted then []
    else if !s.sealHolds then [Reserved(b.maxCharge), ReleasedUnsent("provider_invocation_seal_failed")]
    else if !s.permitHolds then [Reserved(b.maxCharge), ReleasedUnsent("provider_invocation_permit_refused")]
    else match s.claim
      case RefusedAndReleased => [Reserved(b.maxCharge), ClaimReleased]
      case Conflict => [Reserved(b.maxCharge)]
      case Granted => [Reserved(b.maxCharge), Claimed] + SentRecords(b, s, last)
  }

  /** The trace a buffered call leaves at the authority. */
  function CallTrace(b: Bounds, s: Script): seq<Record> {
    TraceWith(b, s, if s.post.Answered? then BodyRecords(b, s, s.post.response.body) else [])
  }

  class UsePodAdapter {
    const authority: MonetaryAuthority

    constructor (authority: MonetaryAuthority)
      ensures this.authority == authority
    {
      this.authority := authority;
    }

    /** A plan that has reserved nothing yet, at an authority that has not seen its operation. */
    ghost predicate Fresh(plan: Plan)
      reads plan, authority
    {
      plan.reservation == None && plan.liability == None && !plan.permit && authority.Trace(plan.operationId) == []
    }

    method ReservePrepaid(plan: Plan, s: Script) returns (granted: bool)
      requires Fresh(plan)
      modifies plan, authority
      ensures granted == s.reserveGranted
      ensures authority.Trace(plan.operationId) == if granted then [Reserved(plan.bounds.maxCharge)] else []
      ensures plan.reservation == plan.liability == if granted then Some(plan.bounds.maxCharge) else None
      ensures plan.permit == old(plan.permit)
      ensures granted ==> StateOf(authority.Trace(plan.operationId)) == Held
      ensures OnlyChanged(authority.traces, old(authority.traces), plan.operationId)
    {
      granted := s.reserveGranted;
      if granted {
        authority.Append(plan.operationId, Reserved(plan.bounds.maxCharge));
        plan.liability := Some(plan.bounds.maxCharge);
        plan.reservation := Some(plan.bounds.maxCharge);
      }
    }

    method RetainUnknown(plan: Plan, evidence: Settlement)
      requires plan.reservation.Some? ==> StateOf(authority.Trace(plan.operationId)) in {Dispatching, Pending}
      modifies authority
      ensures authority.Trace(plan.operationId)
           == old(authority.Trace(plan.operationId)) + (if plan.reservation.Some? then [RetainedUnknown(evidence)] else [])
      ensures OnlyChanged(authority.traces, old(authority.traces), plan.operationId)
    {
      if plan.reservation.Some? {
        authority.Append(plan.operationId, RetainedUnknown(evidence));
      }
    }

    /** The authority's refusal of a settlement is caught: nothing is then recorded. */
    method Settle(plan: Plan, evidence: Settlement, accepted: bool) returns (recorded: bool)
      requires plan.reservation.Some? ==> StateOf(authority.Trace(plan.operationId)) == Pending
      modifies authority
      ensures recorded == (plan.reservation.Some? && accepted)
      ensures authority.Trace(plan.operationId) == old(authority.Trace(plan.operationId)) + (if recorded then [Settled(evidence)] else [])
      ensures OnlyChanged(authority.traces, old(authority.traces), plan.operationId)
    {
      if plan.reservation == None {
        return false;
      }
      if accepted {
        authority.Append(plan.operationId, Settled(evidence));
      }
      return accepted;
    }

    /** Settles a typed refusal at its proven zero; falls back to a held unknown where the authority declines that. */
    method SettleAdmissionRefusal(plan: Plan, evidence: Settlement, code: string, status: int, accepted: bool)
      requires plan.reservation.Some? && StateOf(authority.Trace(plan.operationId)) == Pending
      modifies authority
      ensures authority.Trace(plan.operationId)
           == old(authority.Trace(plan.operationId)) + [if accepted then SettledRefusal(code, status) else RetainedUnknown(evidence)]
      ensures OnlyChanged(authority.traces, old(authority.traces), plan.operationId)
    {
      if accepted {
        authority.Append(plan.operationId, SettledRefusal(code, status));
      } else {
        RetainUnknown(plan, evidence);
      }
    }

    /** Reserve, seal, consume the permit, claim: everything before the request may leave. */
    method Authorize(plan: Plan, s: Script) returns (r: Result<(), CallError>)
      requires Fresh(plan)
      modifies plan, authority
      ensures r.Ok? <==> Claims(s)
      ensures r.Ok? ==> authority.Trace(plan.operationId) == [Reserved(plan.bounds.maxCharge), Claimed]
      ensures r.Ok? ==> StateOf(authority.Trace(plan.operationId)) == Dispatching
      ensures r.Err? ==> forall last :: authority.Trace(plan.operationId) == TraceWith(plan.bounds, s, last)
      ensures plan.reservation == plan.liability == if s.reserveGranted then Some(plan.bounds.maxCharge) else None
      ensures plan.permit <==> s.reserveGranted && s.sealHolds
      ensures OnlyChanged(authority.traces, old(authority.traces), plan.operationId)
    {
      var granted := ReservePrepaid(plan, s);
      if !granted {
        return Err(NotReserved);
      }
      if !s.sealHolds {
        authority.Append(plan.operationId, ReleasedUnsent("provider_invocation_seal_failed"));
        return Err(SealFailed);
      }
      plan.permit := true;
      if !s.permitHolds {
        authority.Append(plan.operationId, ReleasedUnsent("provider_invocation_permit_refused"));
        return Err(PermitRefused);
      }
      match s.claim {
        case RefusedAndReleased =>
          authority.Append(plan.operationId, ClaimReleased);
          return Err(ClaimRefused);
        case Conflict =>
          return Err(ClaimRefused);
        case Granted =>
          authority.Append(plan.operationId, Claimed);
          return Ok(());
      }
    }

    /** Hand the request to the transport and record the dispatch. */
    method Send(plan: Plan, s: Script) returns (r: Result<Response, CallError>)
      requires plan.reservation.Some? && StateOf(authority.Trace(plan.operationId)) == Dispatching
      modifies authority
      ensures r.Ok? <==> s.post.Answered? && s.markAccepted
      ensures r.Ok? ==> r.value == s.post.response && StateOf(authority.Trace(plan.operationId)) == Pending
      ensures r.Ok? ==> authority.Trace(plan.operationId) == old(authority.Trace(plan.operationId)) + [Dispatched]
      ensures r.Err? ==> forall last :: authority.Trace(plan.operationId) == old(authority.Trace(plan.operationId)) + SentRecords(plan.bounds, s, last)
      ensures OnlyChanged(authority.traces, old(authority.traces), plan.operationId)
    {
      match s.post {
        case Failed(notSent, code) =>
          if notSent {
            authority.Append(plan.operationId, ReleasedUnsent(code));
          } else {
            RetainUnknown(plan, UnknownSettlement(plan.bounds));
          }
          return Err(SendFailed);
        case Answered(response) =>
          if !s.markAccepted {
            RetainUnknown(plan, UnknownSettlement(plan.bounds));
            return Err(MarkFailed);
          }
          authority.Append(plan.operationId, Dispatched);
          return Ok(response);
      }
    }

    /** Everything up to a response in hand whose dispatch is recorded. */
    method Dispatch(plan: Plan, s: Script) returns (r: Result<Response, CallError>)
      requires Fresh(plan)
      modifies plan, authority
      ensures r.Ok? <==> Claims(s) && s.post.Answered? && s.markAccepted
      ensures r.Ok? ==> r.value == s.post.response && plan.permit
      ensures r.Ok? ==> authority.Trace(plan.operationId) == [Reserved(plan.bounds.maxCharge), Claimed, Dispatched]
      ensures r.Ok? ==> StateOf(authority.Trace(plan.operationId)) == Pending
      ensures r.Err? ==> forall last :: authority.Trace(plan.operationId) == TraceWith(plan.bounds, s, last)
      ensures plan.reservation == plan.liability == if s.reserveGranted then Some(plan.bounds.maxCharge) else None
      ensures OnlyChanged(authority.traces, old(authority.traces), plan.operationId)
    {
      var claimed := Authorize(plan, s);
      if claimed.Err? {
        return Err(claimed.error);
      }
      r := Send(plan, s);
    }

    /** Dispatch, then the gate: an accepted response, or an error whose records are complete. */
    method Open(plan: Plan, s: Script) returns (r: Result<Response, CallError>)
      requires Fresh(plan)
      modifies plan, authority
      ensures r.Ok? <==> ReachesBody(s)
      ensures r.Ok? ==> s.post.Answered? && r.value == s.post.response && plan.reservation.Some?
      ensures plan.reservation == if s.reserveGranted then Some(plan.bounds.maxCharge) else None
      ensures r.Ok? ==> authority.Trace(plan.operationId) == [Reserved(plan.bounds.maxCharge), Claimed, Dispatched]
      ensures r.Ok? ==> StateOf(authority.Trace(plan.operationId)) == Pending
      ensures r.Err? ==> forall last :: authority.Trace(plan.operationId) == TraceWith(plan.bounds, s, last)
      ensures OnlyChanged(authority.traces, old(authority.traces), plan.operationId)
    {
      r := Dispatch(plan, s);
      if r.Ok? {
        ghost var start := authority.Trace(plan.operationId);
        var gate := RouteGate(plan, s, r.value);
        if gate.Err? {
          forall last ensures authority.Trace(plan.operationId) == TraceWith(plan.bounds, s, last) {
            assert TraceWith(plan.bounds, s, last) == [Reserved(plan.bounds.maxCharge), Claimed] + ([Dispatched] + GateRecords(plan.bounds, s, r.value));
          }
          return Err(gate.error);
        }
        assert start + [] == start;
      }
    }

    /** Status and route checks, before any content is read. */
    method RouteGate(plan: Plan, s: Script, response: Response) returns (r: Result<(), CallError>)
      requires plan.reservation.Some? && StateOf(authority.Trace(plan.operationId)) == Pending
      modifies authority
      ensures r.Ok? <==> Accepted2xx(response) && response.compliance.Compliant?
      ensures r.Err? ==> r.error == if Accepted2xx(response) then RouteNotCompliant else BadStatus(ErrorCode(response.status))
      ensures authority.Trace(plan.operationId) == old(authority.Trace(plan.operationId)) + GateRecords(plan.bounds, s, response)
      ensures OnlyChanged(authority.traces, old(authority.traces), plan.operationId)
    {
      if !(200 <= response.status < 300) {
        var code := ErrorCode(response.status);
        var evidence := SettlementFor(plan.bounds, FailedAfterSend, map[]);
        if code in NO_CHARGE_CODES {
          SettleAdmissionRefusal(plan, evidence, code, response.status, s.refusalAccepted);
        } else {
          RetainUnknown(plan, evidence);
        }
        return Err(BadStatus(code));
      }
      if !response.compliance.Compliant? {
        var outcome := if response.compliance.Violated? then RouteViolated else RouteUnverified;
        RetainUnknown(plan, SettlementFor(plan.bounds, outcome, UsageSeenOffRoute(s, response)));
        return Err(RouteNotCompliant);
      }
      return Ok(());
    }

    /** One buffered call. Its operation's trace at the authority is exactly `CallTrace`; no other operation's
        trace moves, so calls interleaved at one authority leave each operation the trace of its own call. */
    method Invoke(plan: Plan, s: Script) returns (r: Result<map<string, Json>, CallError>)
      requires Fresh(plan)
      modifies plan, authority
      ensures authority.Trace(plan.operationId) == CallTrace(plan.bounds, s)
      ensures OnlyChanged(authority.traces, old(authority.traces), plan.operationId)
      ensures r.Ok? <==> ReachesBody(s) && s.post.response.body.Reply? && s.post.response.body.usable && !UsageRaises(s)
      ensures r.Ok? ==> s.post.response.body == Reply(r.value, true)
      ensures plan.reservation == if s.reserveGranted then Some(plan.bounds.maxCharge) else None
    {
      var op := plan.operationId;
      var arrived := Open(plan, s);
      if arrived.Err? {
        return Err(arrived.error);
      }
      var response := arrived.value;
      assert authority.Trace(op) + BodyRecords(plan.bounds, s, response.body) == CallTrace(plan.bounds, s);
      match response.body {
        case Reply(fields, usable) =>
          var usage := Get(fields, "usage");
          if !usable {
            var recorded := Settle(plan, SettlementFor(plan.bounds, Completed, if usage.JObject? then usage.fields else map[]), s.settleAccepted);
            return Err(AnswerUnusable);
          }
          var read := AsDict(s.pairs, usage);
          if read == None {
            return Err(UsageUnreadable);
          }
          var recorded := Settle(plan, SettlementFor(plan.bounds, Completed, read.value), s.settleAccepted);
          return Ok(fields);
        case _ =>
          RetainUnknown(plan, UnknownSettlement(plan.bounds));
          return Err(AnswerUnusable);
      }
    }
  }

  // ----- what every call comes to -----

  /** The call holds a reservation of its own: it was granted, and no claim took it away. */
  predicate HoldsReservation(s: Script) {
    s.reserveGranted && (s.sealHolds && s.permitHolds ==> s.claim.Granted?)
  }

  predicate Claims(s: Script) {
    s.reserveGranted && s.sealHolds && s.permitHolds && s.claim.Granted?
  }

  /** The request may have left this machine: it was handed to the transport, which did not report it unsent. */
  predicate MayHaveLeft(s: Script) {
    Claims(s) && (s.post.Answered? || !s.post.notSent)
  }

  predicate ReachesBody(s: Script) {
    Claims(s) && s.post.Answered? && s.markAccepted && Accepted2xx(s.post.response) && s.post.response.compliance.Compliant?
  }

  /** A usable reply from an approved route whose `usage` value is neither empty, an object, nor a list of pairs. */
  predicate UsageRaises(s: Script) {
    ReachesBody(s) && s.post.response.body.Reply?
    && SettledUsage(s, s.post.response.body.fields, s.post.response.body.usable) == None
  }

  predicate SettlementDeclined(s: Script) {
    ReachesBody(s) && s.post.response.body.Reply? && !UsageRaises(s) && !s.settleAccepted
  }

  lemma OpenedTrace(b: Bounds, s: Script, last: seq<Record>)
    requires ReachesBody(s)
    ensures TraceWith(b, s, last) == [Reserved(b.maxCharge), Claimed, Dispatched] + last
  {
    assert [Reserved(b.maxCharge), Claimed] + ([Dispatched] + last) == [Reserved(b.maxCharge), Claimed, Dispatched] + last;
  }

  lemma TerminalsOfCons(a: Record, rest: seq<Record>, state: OpState)
    ensures Terminals([a] + rest) == (if IsTerminal(a) then [a] else []) + Terminals(rest)
    ensures StateFrom(state, [a] + rest) == StateFrom(After(state, a), rest)
  {
    assert ([a] + rest)[1..] == rest;
  }

  lemma TerminalsOfPair(a: Record, b: Record, rest: seq<Record>)
    ensures Terminals([a, b] + rest) == (if IsTerminal(a) then [a] else []) + ((if IsTerminal(b) then [b] else []) + Terminals(rest))
    ensures StateOf([a, b] + rest) == StateFrom(After(After(Unreserved, a), b), rest)
  {
    assert [a, b] + rest == [a] + ([b] + rest);
    TerminalsOfCons(a, [b] + rest, Unreserved);
    TerminalsOfCons(b, rest, After(Unreserved, a));
  }

  lemma SentRecordsEnd(b: Bounds, s: Script, last: seq<Record>)
    requires Claims(s)
    ensures |Terminals(SentRecords(b, s, last))| == if ReachesBody(s) then |Terminals(last)| else 1
    ensures StateFrom(Dispatching, SentRecords(b, s, last)) == Unlawful ==> ReachesBody(s) && StateFrom(Pending, last) == Unlawful
    ensures ReachesBody(s) ==> StateFrom(Dispatching, SentRecords(b, s, last)) == StateFrom(Pending, last)
  {
    if s.post.Answered? && s.markAccepted {
      var r := s.post.response;
      TerminalsOfCons(Dispatched, last, Dispatching);
      TerminalsOfCons(Dispatched, GateRecords(b, s, r), Dispatching);
    } else {
      var t := SentRecords(b, s, last);
      TerminalsOfCons(t[0], [], Dispatching);
      assert t == [t[0]] + [];
    }
  }

  /** A call that holds its reservation leaves one terminal record on every path short of reading an accepted response,
      and past that point the terminals of what the reading leaves. */
  lemma TerminalsOfCall(b: Bounds, s: Script, last: seq<Record>)
    requires HoldsReservation(s)
    ensures |Terminals(TraceWith(b, s, last))| == if ReachesBody(s) then |Terminals(last)| else 1
    ensures ReachesBody(s) ==> StateOf(TraceWith(b, s, last)) == StateFrom(Pending, last)
    ensures !ReachesBody(s) ==> StateOf(TraceWith(b, s, last)) != Unlawful
  {
    if Claims(s) {
      TerminalsOfPair(Reserved(b.maxCharge), Claimed, SentRecords(b, s, last));
      SentRecordsEnd(b, s, last);
    } else {
      var t := TraceWith(b, s, last);
      TerminalsOfPair(t[0], t[1], []);
      assert [t[0], t[1]] + [] == t;
    }
  }

  /** A call that holds its reservation ends, on every path, in exactly one terminal record, IF AND ONLY IF its reply's
      usage can be read as a mapping and the authority accepts the settlement offered to it. It never leaves two; where
      it leaves none, the liability is still pending, so its whole amount stays held. */
  lemma ExactlyOneTerminalIff(b: Bounds, s: Script)
    requires HoldsReservation(s)
    ensures |Terminals(CallTrace(b, s))| <= 1 && StateOf(CallTrace(b, s)) != Unlawful
    ensures |Terminals(CallTrace(b, s))| == 1 <==> !UsageRaises(s) && !SettlementDeclined(s)
    ensures Terminals(CallTrace(b, s)) == [] ==> StateOf(CallTrace(b, s)) == Pending
  {
    TerminalsOfCall(b, s, if s.post.Answered? then BodyRecords(b, s, s.post.response.body) else []);
  }

  /** A reply whose usage is the number 7 leaves no terminal record. */
  lemma NumericUsageLeavesNoTerminal(b: Bounds, s: Script)
    requires Claims(s) && s.markAccepted
    requires s.post == Answered(Response(200, Compliant, false, Reply(map["usage" := JInt(7)], true)))
    ensures Terminals(CallTrace(b, s)) == []
  {
    assert Get(s.post.response.body.fields, "usage") == JInt(7);
    assert UsageRaises(s);
    ExactlyOneTerminalIff(b, s);
  }

  /** What reading an accepted response, buffered or streamed, can leave: nothing, or one record of priced evidence that
      settles the liability or retains it. */
  ghost predicate LeftByReading(b: Bounds, last: seq<Record>) {
    last == [] || exists outcome, usage ::
      last == [Settled(SettlementFor(b, outcome, usage))] || last == [RetainedUnknown(SettlementFor(b, outcome, usage))]
  }

  lemma BodyIsRead(b: Bounds, s: Script, body: Body)
    ensures LeftByReading(b, BodyRecords(b, s, body))
  {
    var last := BodyRecords(b, s, body);
    if !body.Reply? {
      assert last == [RetainedUnknown(SettlementFor(b, OutcomeUnknown, map[]))];
    } else if last != [] {
      assert last == [Settled(SettlementFor(b, Completed, SettledUsage(s, body.fields, body.usable).value))];
    }
  }

  /** The liability is released as unsent exactly when the call held it and the request cannot have left. */
  lemma ReleasedIffUnsent(b: Bounds, s: Script, last: seq<Record>)
    requires LeftByReading(b, last)
    ensures (exists r :: r in TraceWith(b, s, last) && r.ReleasedUnsent?) <==> HoldsReservation(s) && !MayHaveLeft(s)
  {
    if HoldsReservation(s) && !MayHaveLeft(s) {
      var t := TraceWith(b, s, last);
      if Claims(s) {
        assert t == [Reserved(b.maxCharge), Claimed] + [ReleasedUnsent(s.post.code)];
        assert t[2] == ReleasedUnsent(s.post.code);
      } else {
        assert t[1].ReleasedUnsent?;
      }
    }
  }

  /** A settlement at zero answers only the two refusals that the money law documents as made before any service, under
      the status each of them has. */
  lemma ZeroOnlyForAdmissionRefusals(b: Bounds, s: Script, last: seq<Record>, r: Record)
    requires LeftByReading(b, last) && r in TraceWith(b, s, last) && r.SettledRefusal?
    ensures (r.status == 401 && r.code == "token_rejected") || (r.status == 402 && r.code == "payment_or_balance_required")
    ensures s.post.Answered? && s.post.response.status == r.status && s.refusalAccepted
  {
  }

  /** Money is settled, at usage or at a refusal's zero, only after the dispatch was recorded. */
  lemma SettledOnlyAfterDispatch(b: Bounds, s: Script, last: seq<Record>, k: nat)
    requires LeftByReading(b, last)
    requires k < |TraceWith(b, s, last)| && (TraceWith(b, s, last)[k].Settled? || TraceWith(b, s, last)[k].SettledRefusal?)
    ensures exists j :: 0 <= j < k && TraceWith(b, s, last)[j] == Dispatched
    ensures s.post.Answered?
  {
    var t := TraceWith(b, s, last);
    assert Claims(s) && s.post.Answered? && s.markAccepted;
    assert t == [Reserved(b.maxCharge), Claimed] + SentRecords(b, s, last);
    assert t[2] == Dispatched;
  }

  /** Whatever a call settles or retains is, unless it is flagged, at most what the call reserved. */
  lemma RecordedCostWithinReservation(b: Bounds, s: Script, last: seq<Record>, r: Record)
    requires Priced(b) && LeftByReading(b, last)
    requires r in TraceWith(b, s, last) && (r.Settled? || r.RetainedUnknown?)
    ensures TraceWith(b, s, last)[0] == Reserved(b.maxCharge)
    ensures !r.evidence.exceedsLiability && r.evidence.upperBound.Some? ==> r.evidence.upperBound.value <= b.maxCharge
    ensures !r.evidence.exceedsLiability ==> CostEstimate(b, r.evidence) <= b.maxCharge
  {
    var outcome, usage := EvidenceIsPriced(b, s, last, r);
    SettlementWithinReservation(b, outcome, usage);
  }

  lemma EvidenceIsPriced(b: Bounds, s: Script, last: seq<Record>, r: Record) returns (outcome: Outcome, usage: map<string, Json>)
    requires LeftByReading(b, last)
    requires r in TraceWith(b, s, last) && (r.Settled? || r.RetainedUnknown?)
    ensures r.evidence == SettlementFor(b, outcome, usage)
  {
    outcome, usage := OutcomeUnknown, map[];
    if ReachesBody(s) {
      assert r in last;
      outcome, usage :| last == [Settled(SettlementFor(b, outcome, usage))] || last == [RetainedUnknown(SettlementFor(b, outcome, usage))];
    } else if s.post.Answered? && s.markAccepted {
      var response := s.post.response;
      if !Accepted2xx(response) {
        outcome := FailedAfterSend;
      } else {
        outcome := if response.compliance.Violated? then RouteViolated else RouteUnverified;
        usage := UsageSeenOffRoute(s, response);
      }
    }
  }

  /** The money law over one trace: released as unsent exactly when the call held the liability and the request cannot
      have left; settled only after the dispatch record; at zero only for an admission refusal; and never, unflagged,
      beyond the reservation. */
  ghost predicate KeepsMoneyLaw(b: Bounds, s: Script, trace: seq<Record>) {
    && ((exists r :: r in trace && r.ReleasedUnsent?) <==> HoldsReservation(s) && !MayHaveLeft(s))
    && (forall k :: 0 <= k < |trace| && (trace[k].Settled? || trace[k].SettledRefusal?) ==> exists j :: 0 <= j < k && trace[j] == Dispatched)
    && (forall r :: r in trace && r.SettledRefusal? ==>
          (r.status == 401 && r.code == "token_rejected") || (r.status == 402 && r.code == "payment_or_balance_required"))
    && (forall r :: r in trace && (r.Settled? || r.RetainedUnknown?) && !r.evidence.exceedsLiability ==> CostEstimate(b, r.evidence) <= b.maxCharge)
  }

  lemma TraceKeepsMoneyLaw(b: Bounds, s: Script, last: seq<Record>)
    requires Priced(b) && LeftByReading(b, last)
    ensures KeepsMoneyLaw(b, s, TraceWith(b, s, last))
  {
    var t := TraceWith(b, s, last);
    ReleasedIffUnsent(b, s, last);
    forall k | 0 <= k < |t| && (t[k].Settled? || t[k].SettledRefusal?) ensures exists j :: 0 <= j < k && t[j] == Dispatched {
      SettledOnlyAfterDispatch(b, s, last, k);
    }
    forall r | r in t && r.SettledRefusal?
      ensures (r.status == 401 && r.code == "token_rejected") || (r.status == 402 && r.code == "payment_or_balance_required")
    {
      ZeroOnlyForAdmissionRefusals(b, s, last, r);
    }
    forall r | r in t && (r.Settled? || r.RetainedUnknown?) && !r.evidence.exceedsLiability
      ensures CostEstimate(b, r.evidence) <= b.maxCharge
    {
      RecordedCostWithinReservation(b, s, last, r);
    }
  }

  lemma BufferedCallKeepsMoneyLaw(b: Bounds, s: Script)
    requires Priced(b)
    ensures KeepsMoneyLaw(b, s, CallTrace(b, s))
  {
    if s.post.Answered? {
      BodyIsRead(b, s, s.post.response.body);
    }
    TraceKeepsMoneyLaw(b, s, if s.post.Answered? then BodyRecords(b, s, s.post.response.body) else []);
  }

  // ----- the trace, case by case -----

  const CODES := map[400 := "request_rejected", 401 := "token_rejected", 402 := "payment_or_balance_required", 403 := "request_forbidden",
                     404 := "model_or_surface_not_found", 409 := "request_conflict", 413 := "request_too_large_for_provider",
                     422 := "request_rejected", 429 := "throttled", 503 := "no_provider_available"]

  /** The code of an answer that is no success: the documented one of its status, and for the other statuses that of a redirect, of
      a failure upstream, or of something unexpected. */
  lemma ErrorCodeMeans(status: int)
    ensures status in CODES ==> ErrorCode(status) == CODES[status]
    ensures status !in CODES ==> ErrorCode(status) == if status / 100 == 3 then "redirect_refused"
                                                      else if 500 <= status then "upstream_failure" else "unexpected_status"
  {
  }

  /** A call leaves records only when its reservation was granted, and the first is the reserved amount. Until its claim is
      granted, the rest is the release: by the call itself, or by the claim that was refused, but for a conflict. */
  lemma UnclaimedTraces(b: Bounds, s: Script, last: seq<Record>)
    requires !Claims(s)
    ensures s.reserveGranted <==> TraceWith(b, s, last) != []
    ensures s.reserveGranted ==> TraceWith(b, s, last)[0] == Reserved(b.maxCharge)
    ensures s.reserveGranted && !(s.sealHolds && s.permitHolds) ==>
              |TraceWith(b, s, last)| == 2 && TraceWith(b, s, last)[1].ReleasedUnsent?
    ensures s.reserveGranted && s.sealHolds && s.permitHolds ==>
              TraceWith(b, s, last)[1..] == if s.claim == Conflict then [] else [ClaimReleased]
  {
  }

  /** A request that is refused, lost, or answered without its dispatch being recorded. */
  lemma UnrecordedDispatchTraces(b: Bounds, s: Script, last: seq<Record>)
    requires Claims(s)
    ensures s.post.Failed? && s.post.notSent ==> TraceWith(b, s, last) == [Reserved(b.maxCharge), Claimed, ReleasedUnsent(s.post.code)]
    ensures (s.post.Failed? && !s.post.notSent) || (s.post.Answered? && !s.markAccepted) ==>
              TraceWith(b, s, last) == [Reserved(b.maxCharge), Claimed, RetainedUnknown(SettlementFor(b, OutcomeUnknown, map[]))]
  {
  }

  /** An answer that is no success: settled at zero if it is one of the two admission refusals and the authority accepts that,
      and otherwise retained. */
  lemma RefusedAnswerTraces(b: Bounds, s: Script, last: seq<Record>)
    requires Claims(s) && s.post.Answered? && s.markAccepted && !(200 <= s.post.response.status < 300)
    ensures var status := s.post.response.status;
            TraceWith(b, s, last) == [Reserved(b.maxCharge), Claimed, Dispatched,
              if status == 401 && s.refusalAccepted then SettledRefusal("token_rejected", 401)
              else if status == 402 && s.refusalAccepted then SettledRefusal("payment_or_balance_required", 402)
              else RetainedUnknown(SettlementFor(b, FailedAfterSend, map[]))]
  {
  }

  /** A success off the approved route is retained, with the usage of its body as far as that can be read. */
  lemma OffRouteAnswerTraces(b: Bounds, s: Script, last: seq<Record>, usage: map<string, Json>)
    requires Claims(s) && s.post.Answered? && s.markAccepted && 200 <= s.post.response.status < 300
    requires s.post.response.compliance != Compliant && ReadableUsage(s, s.post.response, usage)
    ensures TraceWith(b, s, last) == [Reserved(b.maxCharge), Claimed, Dispatched,
              RetainedUnknown(SettlementFor(b, if s.post.response.compliance == Violated then RouteViolated else RouteUnverified, usage))]
  {
    SeenOffRoute(s, s.post.response, usage);
  }

  /** The object a buffered reply reports as its usage, the mapping its list spells, and nothing where there is neither. */
  predicate ReadableUsage(s: Script, r: Response, usage: map<string, Json>) {
    if r.streaming || !r.body.Reply? then usage == map[]
    else
      var reported := Get(r.body.fields, "usage");
      if reported.JObject? then usage == reported.fields
      else if reported.JList? && reported.items != [] && s.pairs(reported.items).Some? then s.pairs(reported.items) == Some(usage)
      else usage == map[]
  }

  lemma SeenOffRoute(s: Script, r: Response, usage: map<string, Json>)
    requires ReadableUsage(s, r, usage)
    ensures UsageSeenOffRoute(s, r) == usage
  {
  }

  /** A buffered success on the approved route: unreadable, it is retained; readable, its usage is settled, if the authority
      accepts that: the reported object, the mapping a usable reply's list spells, and nothing for a reply that reports none. */
  lemma BufferedAnswerTraces(b: Bounds, s: Script, usage: map<string, Json>)
    requires ReachesBody(s)
    ensures !s.post.response.body.Reply? ==>
              CallTrace(b, s) == [Reserved(b.maxCharge), Claimed, Dispatched, RetainedUnknown(SettlementFor(b, OutcomeUnknown, map[]))]
    ensures s.post.response.body.Reply? && SettlesOn(s, usage) ==>
              CallTrace(b, s) == [Reserved(b.maxCharge), Claimed, Dispatched]
                                 + (if s.settleAccepted then [Settled(SettlementFor(b, Completed, usage))] else [])
  {
    OpenedTrace(b, s, BodyRecords(b, s, s.post.response.body));
    if s.post.response.body.Reply? && SettlesOn(s, usage) {
      ReadUsage(s, usage);
    }
  }

  /** The usage that a reply reports, or none. */
  predicate SettlesOn(s: Script, usage: map<string, Json>)
    requires s.post.Answered? && s.post.response.body.Reply?
  {
    var reported, usable := Get(s.post.response.body.fields, "usage"), s.post.response.body.usable;
    || reported == JObject(usage)
    || (usage == map[] && !reported.JObject? && (!usable || !Truthy(reported)))
    || (usable && reported.JList? && reported.items != [] && s.pairs(reported.items) == Some(usage))
  }

  lemma ReadUsage(s: Script, usage: map<string, Json>)
    requires s.post.Answered? && s.post.response.body.Reply? && SettlesOn(s, usage)
    ensures SettledUsage(s, s.post.response.body.fields, s.post.response.body.usable) == Some(usage)
  {
  }
}

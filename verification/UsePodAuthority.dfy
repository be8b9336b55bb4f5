/** The monetary authority a paid UsePod call reports to: the state it keeps per operation and the records it admits
    in each state (core/usepod/monetary.py; the transitions of core/effect_budget_money.py the adapter relies on). */
module UsePodAuthority {
  import opened Wrappers
  import opened UsePodPricing

  datatype Record =
    | Reserved(amount: int)
    | Claimed
    | ClaimReleased                      // a claim refused for revocation or expiry releases the reservation itself
    | Dispatched
    | ReleasedUnsent(reason: string)
    | RetainedUnknown(evidence: Settlement)
    | Settled(evidence: Settlement)
    | SettledRefusal(code: string, status: int)

  datatype OpState = Unreserved | Held | Dispatching | Pending | Unknown | Closed | Paid | Unlawful

  /** The state after a record; `Unlawful` where the authority refuses it. */
  function After(s: OpState, r: Record): OpState {
    match (s, r)
    case (Unreserved, Reserved(_)) => Held
    case (Held, Claimed) => Dispatching
    case (Held, ClaimReleased) => Closed
    case (Held, ReleasedUnsent(_)) => Closed
    case (Dispatching, ReleasedUnsent(_)) => Closed
    case (Dispatching, Dispatched) => Pending
    case (Dispatching, RetainedUnknown(_)) => Unknown
    case (Pending, RetainedUnknown(_)) => Unknown
    case (Pending, Settled(_)) => Paid
    case (Pending, SettledRefusal(_, _)) => Paid
    case _ => Unlawful
  }

  /** The state a trace leaves an operation in that was in state `s`. */
  function StateFrom(s: OpState, trace: seq<Record>): OpState
    decreases trace
  {
    if trace == [] then s else StateFrom(After(s, trace[0]), trace[1..])
  }

  function StateOf(trace: seq<Record>): OpState {
    StateFrom(Unreserved, trace)
  }

  lemma {:induction false} StateFromAppend(s: OpState, trace: seq<Record>, r: Record)
    ensures StateFrom(s, trace + [r]) == After(StateFrom(s, trace), r)
    decreases trace
  {
    if trace == [] {
      assert trace + [r] == [r];
    } else {
      assert (trace + [r])[0] == trace[0] && (trace + [r])[1..] == trace[1..] + [r];
      StateFromAppend(After(s, trace[0]), trace[1..], r);
    }
  }

  predicate IsTerminal(r: Record) {
    r.ReleasedUnsent? || r.RetainedUnknown? || r.Settled? || r.SettledRefusal?
  }

  function Terminals(trace: seq<Record>): seq<Record> {
    if trace == [] then [] else (if IsTerminal(trace[0]) then [trace[0]] else []) + Terminals(trace[1..])
  }

  function TraceOf(traces: map<string, seq<Record>>, op: string): seq<Record> {
    if op in traces then traces[op] else []
  }

  /** `now` differs from `was` in nothing but one operation's trace. */
  ghost predicate OnlyChanged(now: map<string, seq<Record>>, was: map<string, seq<Record>>, op: string) {
    forall other :: other != op ==> TraceOf(now, other) == TraceOf(was, other)
  }

  class MonetaryAuthority {
    var traces: map<string, seq<Record>>

    constructor ()
      ensures traces == map[]
    {
      traces := map[];
    }

    function Trace(op: string): seq<Record>
      reads this
    {
      TraceOf(traces, op)
    }

    /** Appends a record the operation's state admits; appending any other one would be the caller's error. */
    method Append(op: string, r: Record)
      requires After(StateOf(Trace(op)), r) != Unlawful
      modifies this
      ensures Trace(op) == old(Trace(op)) + [r]
      ensures StateOf(Trace(op)) == After(old(StateOf(Trace(op))), r)
      ensures OnlyChanged(traces, old(traces), op)
    {
      StateFromAppend(Unreserved, Trace(op), r);
      traces := traces[op := Trace(op) + [r]];
    }
  }
}

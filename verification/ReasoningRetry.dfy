/** The buffered OpenAI-compatible call: a retry loop over attempts around a loop that resends once when the endpoint
    refuses disabled reasoning, and the process-wide set that remembers such refusals
    (adapters/openai_compatible_adapter.py). */
module ReasoningRetry {
  import opened Wrappers

  /** `_reasoning_learning_key` */
  datatype Key = Key(provider: string, endpoint: string, model: string)

  datatype Lane = Lane(
    key: Key,
    freeOpenRouter: bool,       // `_is_verified_free_openrouter_lane`
    carriesReasoning: bool,     // the lane puts the reasoning control on the wire
    catalogMandatory: bool,     // the cached catalog row says reasoning is mandatory
    efforts: seq<string>)       // and the efforts it publishes

  datatype Request = Request(reasoningDisabled: bool, nativeTools: bool, schemaCorrection: bool)

  datatype Parse = Usable | SchemaDefect | ToolCallDefect | OtherDefect

  /** What one post comes to: it arrives too late; it is the 400 saying that reasoning is mandatory; its status is
      good; the turn was cancelled meanwhile; and what reading it gives. */
  datatype Reply = Reply(late: bool, saysMandatory: bool, statusGood: bool, cancelled: bool, parse: Parse)

  datatype Reasoning = Absent | Disabled | Effort(level: string)

  const EFFORT_ORDER := ["minimal", "low", "medium", "high", "xhigh", "max"]

  /** `_lowest_reasoning_effort` */
  function LowestEffort(efforts: seq<string>): string {
    LowestFrom(efforts, 0)
  }

  function LowestFrom(efforts: seq<string>, i: nat): string
    requires i <= |EFFORT_ORDER|
    decreases |EFFORT_ORDER| - i
  {
    if i == |EFFORT_ORDER| then "low"
    else if EFFORT_ORDER[i] in efforts then EFFORT_ORDER[i]
    else LowestFrom(efforts, i + 1)
  }

  predicate Mandatory(lane: Lane, learned: set<Key>) {
    lane.key in learned || lane.catalogMandatory
  }

  /** The reasoning branch of `_build_openai_payload`. */
  function BuildReasoning(lane: Lane, request: Request, learned: set<Key>): Reasoning {
    if request.reasoningDisabled && lane.carriesReasoning then
      (if Mandatory(lane, learned) then Effort(LowestEffort(lane.efforts)) else Disabled)
    else Absent
  }

  function MaxAttempts(lane: Lane, request: Request): nat {
    if request.nativeTools && lane.freeOpenRouter && !request.schemaCorrection then 2 else 1
  }

  /** `_reasoning_mandatory_refusal` */
  predicate Refuses(reply: Reply, sent: Reasoning) {
    reply.saysMandatory && !reply.statusGood && sent == Disabled
  }

  /** What a call leaves: whether it returned, the reasoning form of every post in order, how many posts were resends
      after a refusal, and the keys learned by then. */
  datatype Result = Result(returned: bool, sent: seq<Reasoning>, resends: nat, learned: set<Key>)

  /** Where a call stands between posts. */
  datatype Progress = Progress(payload: Reasoning, sent: seq<Reasoning>, resends: nat, learned: set<Key>)

  function Raised(p: Progress): Result {
    Result(false, p.sent, p.resends, p.learned)
  }

  function Posted(p: Progress): Progress {
    p.(sent := p.sent + [p.payload])
  }

  function Downgraded(lane: Lane, p: Progress): Progress {
    p.(payload := Effort(LowestEffort(lane.efforts)), resends := p.resends + 1, learned := p.learned + {lane.key})
  }

  /** What the attempts from `attempt` on come to; post number `k` meets `replies(k)`. */
  function AttemptsFrom(lane: Lane, request: Request, replies: nat -> Reply, attempt: nat, p: Progress): Result
    requires attempt < MaxAttempts(lane, request)
    decreases MaxAttempts(lane, request) - attempt
  {
    var first := Posted(p);
    var reply := replies(|p.sent|);
    if reply.late then Raised(first)
    else if Refuses(reply, p.payload) then
      var second := Posted(Downgraded(lane, first));
      var resent := replies(|first.sent|);
      if resent.late then Raised(second) else AfterPost(lane, request, replies, attempt, second, resent)
    else AfterPost(lane, request, replies, attempt, first, reply)
  }

  function AfterPost(lane: Lane, request: Request, replies: nat -> Reply, attempt: nat, p: Progress, reply: Reply): Result
    requires attempt < MaxAttempts(lane, request)
    decreases MaxAttempts(lane, request) - attempt, 0
  {
    if !reply.statusGood || reply.cancelled then Raised(p)
    else if reply.parse.Usable? then Result(true, p.sent, p.resends, p.learned)
    else if !request.nativeTools || reply.parse.SchemaDefect? || attempt + 1 >= MaxAttempts(lane, request) then Raised(p)
    else AttemptsFrom(lane, request, replies, attempt + 1, p)
  }

  function Start(lane: Lane, request: Request, learned: set<Key>): Progress {
    Progress(BuildReasoning(lane, request, learned), [], 0, learned)
  }

  function Call(lane: Lane, request: Request, cancelled: bool, learned: set<Key>, replies: nat -> Reply): Result {
    if cancelled then Result(false, [], 0, learned) else AttemptsFrom(lane, request, replies, 0, Start(lane, request, learned))
  }

  /** The process: what `_REASONING_MANDATORY_LEARNED` holds. */
  class Process {
    var learned: set<Key>

    constructor ()
      ensures learned == {}
    {
      learned := {};
    }

    /** `_invoke_openai_compatible`, as its two loops run. */
    method Invoke(lane: Lane, request: Request, cancelled: bool, replies: nat -> Reply) returns (r: Result)
      modifies this
      ensures r == Call(lane, request, cancelled, old(learned), replies) && learned == r.learned
    {
      if cancelled {
        return Result(false, [], 0, learned);
      }
      var payload := BuildReasoning(lane, request, learned);
      var sent: seq<Reasoning> := [];
      var resends: nat := 0;
      var maxAttempts := MaxAttempts(lane, request);
      var attempt := 0;
      while attempt < maxAttempts
        invariant 0 <= attempt < maxAttempts
        invariant Call(lane, request, cancelled, old(learned), replies)
               == AttemptsFrom(lane, request, replies, attempt, Progress(payload, sent, resends, learned))
      {
        ghost var before := Progress(payload, sent, resends, learned);
        var reply := replies(|sent|);
        var tried := 0;
        while tried < 2
          invariant 0 <= tried < 2
          invariant tried == 1 ==> !replies(|before.sent|).late && Refuses(replies(|before.sent|), before.payload)
          invariant Progress(payload, sent, resends, learned) == if tried == 0 then before else Downgraded(lane, Posted(before))
        {
          sent := sent + [payload];
          reply := replies(|sent| - 1);
          if reply.late {
            return Result(false, sent, resends, learned);
          }
          if tried == 0 && Refuses(reply, payload) {
            learned := learned + {lane.key};
            payload := Effort(LowestEffort(lane.efforts));
            resends := resends + 1;
            tried := tried + 1;
            continue;
          }
          break;
        }
        if !reply.statusGood || reply.cancelled {
          return Result(false, sent, resends, learned);
        }
        if reply.parse.Usable? {
          return Result(true, sent, resends, learned);
        }
        if !request.nativeTools || reply.parse.SchemaDefect? || attempt + 1 >= maxAttempts {
          return Result(false, sent, resends, learned);
        }
        attempt := attempt + 1;
      }
    }
  }

  // ----- one call -----

  /** What holds between posts: a payload that no longer says disabled stays as it is, and a resend is spent exactly
      when it was downgraded. */
  ghost predicate Consistent(lane: Lane, start: Progress, p: Progress, attempt: nat) {
    && |p.sent| <= attempt + p.resends
    && p.resends <= 1
    && (if p.resends == 0 then p.payload == start.payload && p.learned == start.learned
        else start.payload == Disabled && p.payload == Effort(LowestEffort(lane.efforts)) && p.learned == start.learned + {lane.key})
    && SentForms(start.payload, p.payload, p.sent)
  }

  /** The posts carry the first form up to some point and the last form from there on. */
  ghost predicate SentForms(first: Reasoning, last: Reasoning, sent: seq<Reasoning>) {
    exists cut :: 0 <= cut <= |sent| && ChangesAt(first, last, sent, cut)
  }

  ghost predicate ChangesAt(first: Reasoning, last: Reasoning, sent: seq<Reasoning>, cut: int)
    requires 0 <= cut <= |sent|
  {
    (forall i :: 0 <= i < cut ==> sent[i] == first) && (forall i :: cut <= i < |sent| ==> sent[i] == last)
  }

  lemma PostKeepsForms(first: Reasoning, last: Reasoning, sent: seq<Reasoning>)
    requires SentForms(first, last, sent)
    ensures SentForms(first, last, sent + [last])
  {
    var cut :| 0 <= cut <= |sent| && ChangesAt(first, last, sent, cut);
    assert ChangesAt(first, last, sent + [last], cut);
  }

  lemma DowngradeKeepsForms(first: Reasoning, last: Reasoning, sent: seq<Reasoning>)
    requires SentForms(first, first, sent)
    ensures SentForms(first, last, sent)
  {
    assert ChangesAt(first, last, sent, |sent|);
  }

  ghost predicate CallHolds(lane: Lane, request: Request, start: Progress, r: Result) {
    && |r.sent| <= MaxAttempts(lane, request) + r.resends
    && r.resends <= 1
    && r.learned == (if r.resends == 0 then start.learned else start.learned + {lane.key})
    && (r.resends == 1 ==> start.payload == Disabled)
    && SentForms(start.payload, if r.resends == 0 then start.payload else Effort(LowestEffort(lane.efforts)), r.sent)
  }

  lemma {:induction false} AttemptsHold(lane: Lane, request: Request, replies: nat -> Reply, attempt: nat, start: Progress, p: Progress)
    requires attempt < MaxAttempts(lane, request) && Consistent(lane, start, p, attempt)
    ensures CallHolds(lane, request, start, AttemptsFrom(lane, request, replies, attempt, p))
    decreases MaxAttempts(lane, request) - attempt
  {
    var first := Posted(p);
    PostKeepsForms(start.payload, p.payload, p.sent);
    assert Consistent(lane, start, first, attempt + 1);
    var reply := replies(|p.sent|);
    if !reply.late {
      if Refuses(reply, p.payload) {
        var second := Posted(Downgraded(lane, first));
        DowngradeKeepsForms(start.payload, second.payload, first.sent);
        PostKeepsForms(start.payload, second.payload, first.sent);
        assert Consistent(lane, start, second, attempt + 1);
        AfterPostHolds(lane, request, replies, attempt, start, second, replies(|first.sent|));
      } else {
        AfterPostHolds(lane, request, replies, attempt, start, first, reply);
      }
    }
  }

  lemma {:induction false} AfterPostHolds(lane: Lane, request: Request, replies: nat -> Reply, attempt: nat, start: Progress, p: Progress, reply: Reply)
    requires attempt < MaxAttempts(lane, request) && Consistent(lane, start, p, attempt + 1)
    ensures CallHolds(lane, request, start, AfterPost(lane, request, replies, attempt, p, reply))
    decreases MaxAttempts(lane, request) - attempt, 0
  {
    if reply.statusGood && !reply.cancelled && !reply.parse.Usable? && request.nativeTools && !reply.parse.SchemaDefect?
       && attempt + 1 < MaxAttempts(lane, request) {
      AttemptsHold(lane, request, replies, attempt + 1, start, p);
    }
  }

  /** One call makes at most one post per attempt and one resend, so at most three; it resends at most once, only when it
      started out with reasoning disabled, and every post after the resend carries the downgraded form. */
  lemma CallIsBounded(lane: Lane, request: Request, cancelled: bool, learned: set<Key>, replies: nat -> Reply)
    ensures var r := Call(lane, request, cancelled, learned, replies);
            && |r.sent| <= MaxAttempts(lane, request) + r.resends <= 3
            && r.resends <= 1
            && (r.resends == 1 ==> request.reasoningDisabled && lane.carriesReasoning && !Mandatory(lane, learned))
            && r.learned == (if r.resends == 0 then learned else learned + {lane.key})
            && forall i, k :: 0 <= i < k < |r.sent| && r.sent[i] != Disabled ==> r.sent[k] == r.sent[i]
  {
    if !cancelled {
      var start := Start(lane, request, learned);
      assert ChangesAt(start.payload, start.payload, [], 0);
      AttemptsHold(lane, request, replies, 0, start, start);
    }
  }

  // ----- a run of calls -----

  datatype CallIn = CallIn(lane: Lane, request: Request, cancelled: bool, replies: nat -> Reply)

  /** What a sequential run of calls has learned, starting from a fresh process. */
  function LearnedBy(calls: seq<CallIn>): set<Key> {
    if calls == [] then {} else ResultOf(calls, |calls| - 1).learned
  }

  /** The result of call `i` of a run. */
  function ResultOf(calls: seq<CallIn>, i: nat): Result
    requires i < |calls|
  {
    var c := calls[i];
    Call(c.lane, c.request, c.cancelled, LearnedBy(calls[..i]), c.replies)
  }

  function ResendsFor(calls: seq<CallIn>, key: Key): nat {
    if calls == [] then 0
    else
      var n := |calls| - 1;
      ResendsFor(calls[..n], key) + (if calls[n].lane.key == key then ResultOf(calls, n).resends else 0)
  }

  function Posts(calls: seq<CallIn>): nat {
    if calls == [] then 0 else Posts(calls[..|calls| - 1]) + |ResultOf(calls, |calls| - 1).sent|
  }

  function Attempts(calls: seq<CallIn>): nat {
    if calls == [] then 0
    else Attempts(calls[..|calls| - 1]) + MaxAttempts(calls[|calls| - 1].lane, calls[|calls| - 1].request)
  }

  /** Over any sequential run in one process, each (provider, endpoint, model) key causes at most one refusal resend, and
      causes one exactly when the run learned that key; so all the calls together post at most their attempts plus one
      per learned key. */
  lemma {:induction false} EachKeyResendsOnce(calls: seq<CallIn>)
    ensures forall key :: ResendsFor(calls, key) == if key in LearnedBy(calls) then 1 else 0
    ensures Posts(calls) <= Attempts(calls) + |LearnedBy(calls)|
  {
    if calls != [] {
      var n := |calls| - 1;
      var c := calls[n];
      EachKeyResendsOnce(calls[..n]);
      var before := LearnedBy(calls[..n]);
      CallIsBounded(c.lane, c.request, c.cancelled, before, c.replies);
      var r := ResultOf(calls, n);
      assert r.resends == 1 ==> c.lane.key !in before;
      forall key ensures ResendsFor(calls, key) == if key in LearnedBy(calls) then 1 else 0 {
        assert ResendsFor(calls[..n], key) == if key in before then 1 else 0;
      }
    }
  }

  /** The downgraded form is never "none" (which would disable a mandatory reasoner), and is the cheapest published
      level above it, or "low" when none is published. */
  lemma LowestEffortIsLowest(efforts: seq<string>)
    ensures var level := LowestEffort(efforts);
            && level != "none"
            && (level in efforts || (level == "low" && forall i :: 0 <= i < |EFFORT_ORDER| ==> EFFORT_ORDER[i] !in efforts))
            && forall i, k :: 0 <= i < k < |EFFORT_ORDER| && level == EFFORT_ORDER[k] && level in efforts ==> EFFORT_ORDER[i] !in efforts
  {
    LowestFromIsLowest(efforts, 0);
  }

  lemma {:induction false} LowestFromIsLowest(efforts: seq<string>, i: nat)
    requires i <= |EFFORT_ORDER| && forall k :: 0 <= k < i ==> EFFORT_ORDER[k] !in efforts
    ensures var level := LowestFrom(efforts, i);
            || (level == "low" && forall k :: 0 <= k < |EFFORT_ORDER| ==> EFFORT_ORDER[k] !in efforts)
            || exists m :: i <= m < |EFFORT_ORDER| && level == EFFORT_ORDER[m] && level in efforts
                        && forall k :: 0 <= k < m ==> EFFORT_ORDER[k] !in efforts
    decreases |EFFORT_ORDER| - i
  {
    if i < |EFFORT_ORDER| && EFFORT_ORDER[i] !in efforts {
      LowestFromIsLowest(efforts, i + 1);
    }
  }

  // ----- one call as one flat run of posts -----

  /** The lane's first form: disabled where that was asked for, unless the model is known to reason anyway. */
  function FirstForm(lane: Lane, request: Request, learned: set<Key>): Reasoning {
    if !request.reasoningDisabled || !lane.carriesReasoning then Absent
    else if lane.key in learned || lane.catalogMandatory then Effort(LowestEffort(lane.efforts))
    else Disabled
  }

  predicate AnswersWell(reply: Reply) {
    !reply.late && reply.statusGood && !reply.cancelled && reply.parse == Usable
  }

  /** A post that asked to disable reasoning and met the refusal that reasoning is mandatory. */
  predicate MustResend(reply: Reply, form: Reasoning) {
    !reply.late && !reply.statusGood && reply.saysMandatory && form == Disabled
  }

  /** A good answer with a defective tool call, where the lane is given a second attempt. */
  predicate MayRetry(lane: Lane, request: Request, reply: Reply, attempt: nat) {
    && !reply.late && reply.statusGood && !reply.cancelled && reply.parse in {ToolCallDefect, OtherDefect}
    && request.nativeTools && lane.freeOpenRouter && !request.schemaCorrection && attempt == 0
  }

  /** From post `k` on, in attempt `attempt`, each post follows from the reply before it, and the run ends where no reply calls
      for another post. */
  predicate RunsOn(lane: Lane, request: Request, replies: nat -> Reply, sent: seq<Reasoning>, k: nat, attempt: nat)
    requires k < |sent|
    decreases |sent| - k
  {
    if MustResend(replies(k), sent[k]) then
      k + 1 < |sent| && sent[k + 1] == Effort(LowestEffort(lane.efforts)) && RunsOn(lane, request, replies, sent, k + 1, attempt)
    else if MayRetry(lane, request, replies(k), attempt) then
      k + 1 < |sent| && sent[k + 1] == sent[k] && RunsOn(lane, request, replies, sent, k + 1, attempt + 1)
    else k + 1 == |sent|
  }

  /** The result adds posts to those of `p`, the first of them in `p`'s form, and runs on from there. */
  ghost predicate Extends(lane: Lane, request: Request, replies: nat -> Reply, p: Progress, attempt: nat, r: Result) {
    && |p.sent| < |r.sent| && r.sent[..|p.sent|] == p.sent && r.sent[|p.sent|] == p.payload
    && RunsOn(lane, request, replies, r.sent, |p.sent|, attempt)
    && (r.returned <==> AnswersWell(replies(|r.sent| - 1)))
  }

  /** The last post of `p` has met `reply`, and the result runs on from that post. */
  ghost predicate Continues(lane: Lane, request: Request, replies: nat -> Reply, p: Progress, attempt: nat, r: Result) {
    && p.sent <= r.sent && p.sent != []
    && RunsOn(lane, request, replies, r.sent, |p.sent| - 1, attempt)
    && (r.returned <==> AnswersWell(replies(|r.sent| - 1)))
  }

  lemma {:induction false} AttemptsRun(lane: Lane, request: Request, replies: nat -> Reply, attempt: nat, p: Progress)
    requires attempt < MaxAttempts(lane, request)
    ensures Extends(lane, request, replies, p, attempt, AttemptsFrom(lane, request, replies, attempt, p))
    decreases MaxAttempts(lane, request) - attempt, 1
  {
    var first, reply := Posted(p), replies(|p.sent|);
    var r := AttemptsFrom(lane, request, replies, attempt, p);
    if !reply.late && Refuses(reply, p.payload) {
      var second := Posted(Downgraded(lane, first));
      var resent := replies(|first.sent|);
      assert second.sent[|first.sent|] == Effort(LowestEffort(lane.efforts));
      if !resent.late {
        PostRuns(lane, request, replies, attempt, second, resent);
      }
      assert first.sent <= second.sent <= r.sent;
      assert RunsOn(lane, request, replies, r.sent, |first.sent|, attempt);
      assert r.sent[|p.sent|] == first.sent[|p.sent|] == Disabled;
    } else if !reply.late {
      PostRuns(lane, request, replies, attempt, first, reply);
      assert r.sent[|p.sent|] == first.sent[|p.sent|];
    }
  }

  lemma {:induction false} PostRuns(lane: Lane, request: Request, replies: nat -> Reply, attempt: nat, p: Progress, reply: Reply)
    requires attempt < MaxAttempts(lane, request) && p.sent != [] && reply == replies(|p.sent| - 1) && !reply.late
    requires p.sent[|p.sent| - 1] == p.payload && !Refuses(reply, p.payload)
    ensures Continues(lane, request, replies, p, attempt, AfterPost(lane, request, replies, attempt, p, reply))
    decreases MaxAttempts(lane, request) - attempt, 0
  {
    if MayRetry(lane, request, reply, attempt) {
      AttemptsRun(lane, request, replies, attempt + 1, p);
    }
  }

  /** One call, whose two loops nest, is one flat run of posts: it starts with the lane's first form; a refused disabled post is
      resent once in the downgraded form; a defective tool call is retried once, in the same form, where the lane allows it;
      nothing else is posted; and the call returns exactly if the reply to its last post is a usable answer. */
  lemma CallIsOneRun(lane: Lane, request: Request, cancelled: bool, learned: set<Key>, replies: nat -> Reply)
    ensures var r := Call(lane, request, cancelled, learned, replies);
            if cancelled then r.sent == [] && !r.returned
            else
              && r.sent != [] && r.sent[0] == FirstForm(lane, request, learned)
              && RunsOn(lane, request, replies, r.sent, 0, 0)
              && (r.returned <==> AnswersWell(replies(|r.sent| - 1)))
  {
    if !cancelled {
      AttemptsRun(lane, request, replies, 0, Start(lane, request, learned));
    }
  }

  /** The key is learned exactly if some post was refused for being disabled, or was known before. */
  lemma {:induction false} ResendsAreRefusals(lane: Lane, request: Request, replies: nat -> Reply, attempt: nat, p: Progress)
    requires attempt < MaxAttempts(lane, request)
    ensures var r := AttemptsFrom(lane, request, replies, attempt, p);
            && |p.sent| <= |r.sent|
            && (r.resends > p.resends <==> exists k :: |p.sent| <= k < |r.sent| && MustResend(replies(k), r.sent[k]))
            && r.learned == (if r.resends > p.resends then p.learned + {lane.key} else p.learned)
            && r.resends >= p.resends && r.sent[..|p.sent|] == p.sent
    decreases MaxAttempts(lane, request) - attempt, 1
  {
    var first, reply := Posted(p), replies(|p.sent|);
    var r := AttemptsFrom(lane, request, replies, attempt, p);
    if !reply.late && Refuses(reply, p.payload) {
      var second := Posted(Downgraded(lane, first));
      var resent := replies(|first.sent|);
      if !resent.late {
        PostRefusals(lane, request, replies, attempt, second, resent);
      }
      assert first.sent <= second.sent <= r.sent;
      assert r.sent[|p.sent|] == first.sent[|p.sent|] == Disabled && MustResend(replies(|p.sent|), r.sent[|p.sent|]);
    } else if !reply.late {
      PostRefusals(lane, request, replies, attempt, first, reply);
      assert r.sent[|p.sent|] == first.sent[|p.sent|] == p.payload;
    }
  }

  lemma {:induction false} PostRefusals(lane: Lane, request: Request, replies: nat -> Reply, attempt: nat, p: Progress, reply: Reply)
    requires attempt < MaxAttempts(lane, request)
    ensures var r := AfterPost(lane, request, replies, attempt, p, reply);
            && p.sent <= r.sent
            && (r.resends > p.resends <==> exists k :: |p.sent| <= k < |r.sent| && MustResend(replies(k), r.sent[k]))
            && r.learned == (if r.resends > p.resends then p.learned + {lane.key} else p.learned)
            && r.resends >= p.resends
    decreases MaxAttempts(lane, request) - attempt, 0
  {
    if reply.statusGood && !reply.cancelled && !reply.parse.Usable? && request.nativeTools && !reply.parse.SchemaDefect?
       && attempt + 1 < MaxAttempts(lane, request) {
      ResendsAreRefusals(lane, request, replies, attempt + 1, p);
    }
  }

  /** A call teaches its key exactly if some post of it was refused for being disabled. */
  lemma CallLearnsIff(lane: Lane, request: Request, cancelled: bool, learned: set<Key>, replies: nat -> Reply)
    ensures var r := Call(lane, request, cancelled, learned, replies);
            r.learned == if exists k :: 0 <= k < |r.sent| && MustResend(replies(k), r.sent[k]) then learned + {lane.key} else learned
  {
    if !cancelled {
      ResendsAreRefusals(lane, request, replies, 0, Start(lane, request, learned));
    }
  }
}

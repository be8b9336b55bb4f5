/** A streamed OpenAI-protocol UsePod answer: which chunks the consumer sees, and how the liability ends
    (adapters/usepod_adapter.py, `_stream_chunks`). */
module UsePodStream {
  import opened Wrappers
  import opened Json
  import opened UsePodPricing
  import opened UsePodAuthority
  import opened UsePodCall
  import Text

  datatype Line = Unparsed | DoneMark | OtherValue | Event(fields: map<string, Json>)

  /** What a stream does: its lines, whether the turn is cancelled when a line is looked at, after how many text
      chunks the consumer stops reading, whether the authority accepts the settlement; and the given readers:
      `json.loads`, the text of an event's delta (None where extracting it raises), and `dict` of a list. */
  datatype Stream = Stream(
    lines: seq<string>,
    cancelledAt: nat -> bool,
    stopsAfter: Option<nat>,
    settleAccepted: bool,
    loads: string -> Option<Json>,
    deltaText: map<string, Json> -> Option<string>,
    pairs: seq<Json> -> Option<map<string, Json>>)

  datatype Chunk = Delta(text: string) | DoneChunk(usage: map<string, Json>)

  datatype StreamEnd = Finished | Incomplete | Cut

  /** `_parse_stream_line`, read as the loop reads it: the JSON string "__DONE__" is a terminator too. */
  function ParseLine(loads: string -> Option<Json>, line: string): Line {
    var text := Text.Strip(line);
    var data := if |text| >= 5 && text[..5] == "data:" then Text.Strip(text[5..]) else text;
    if text == "" then Unparsed
    else if data == "[DONE]" then DoneMark
    else match loads(data)
      case None => Unparsed
      case Some(JNull) => Unparsed
      case Some(JObject(fields)) => Event(fields)
      case Some(JStr(s)) => if s == "__DONE__" then DoneMark else OtherValue
      case Some(_) => OtherValue
  }

  function LineAt(s: Stream, i: nat): Line
    requires i < |s.lines|
  {
    ParseLine(s.loads, s.lines[i])
  }

  datatype Walk = Walk(texts: seq<string>, usage: map<string, Json>, end: StreamEnd)

  /** The usage after an event; None where reading it raises. */
  function UsageAfter(s: Stream, fields: map<string, Json>, usage: map<string, Json>): Option<map<string, Json>> {
    if Truthy(Get(fields, "usage")) then AsDict(s.pairs, Get(fields, "usage")) else Some(usage)
  }

  /** What becomes of the lines from `i` on, after the texts yielded and the usage seen so far. Running out of lines,
      or the transfer breaking there, is `Incomplete`; `Cut` is a cancelled turn, a consumer that stopped, or an
      event that cannot be read. */
  function WalkFrom(s: Stream, i: nat, texts: seq<string>, usage: map<string, Json>): Walk
    requires i <= |s.lines|
    decreases |s.lines| - i
  {
    if i == |s.lines| then Walk(texts, usage, Incomplete)
    else if s.cancelledAt(i) then Walk(texts, usage, Cut)
    else match LineAt(s, i)
      case Unparsed => WalkFrom(s, i + 1, texts, usage)
      case OtherValue => WalkFrom(s, i + 1, texts, usage)
      case DoneMark => Walk(texts, usage, Finished)
      case Event(fields) =>
        match UsageAfter(s, fields, usage)
        case None => Walk(texts, usage, Cut)
        case Some(seen) =>
          match s.deltaText(fields)
          case None => Walk(texts, seen, Cut)
          case Some(text) =>
            if text == "" then WalkFrom(s, i + 1, texts, seen)
            else if s.stopsAfter == Some(|texts| + 1) then Walk(texts + [text], seen, Cut)
            else WalkFrom(s, i + 1, texts + [text], seen)
  }

  function Walked(s: Stream): Walk {
    WalkFrom(s, 0, [], map[])
  }

  function StreamRecords(b: Bounds, s: Stream): seq<Record> {
    if Walked(s).end != Finished then [RetainedUnknown(SettlementFor(b, PartialStream, Walked(s).usage))]
    else if s.settleAccepted then [Settled(SettlementFor(b, Completed, Walked(s).usage))]
    else []
  }

  /** What a started generator does, in order: it yields a chunk, retains the liability, or offers a settlement to the
      authority, which records it or declines it. */
  datatype StreamEvent =
    | Yielded(chunk: Chunk)
    | Retained(evidence: Settlement)
    | SettlementOffered(evidence: Settlement, recorded: bool)

  function Deltas(texts: seq<string>): seq<StreamEvent> {
    seq(|texts|, i requires 0 <= i < |texts| => Yielded(Delta(texts[i])))
  }

  function StreamEvents(b: Bounds, s: Stream): seq<StreamEvent> {
    var w := Walked(s);
    Deltas(w.texts) + (if w.end == Finished
                       then [SettlementOffered(SettlementFor(b, Completed, w.usage), s.settleAccepted), Yielded(DoneChunk(w.usage))]
                       else [Retained(SettlementFor(b, PartialStream, w.usage))])
  }

  /** The records events leave at the authority. */
  function RecordsIn(events: seq<StreamEvent>): seq<Record> {
    if events == [] then []
    else RecordsIn(events[..|events| - 1]) + (match events[|events| - 1]
      case Yielded(_) => []
      case Retained(evidence) => [RetainedUnknown(evidence)]
      case SettlementOffered(evidence, recorded) => if recorded then [Settled(evidence)] else [])
  }

  lemma RecordsInAppend(events: seq<StreamEvent>, e: StreamEvent)
    ensures RecordsIn(events + [e]) == RecordsIn(events) + RecordsIn([e])
  {
    assert (events + [e])[..|events|] == events && [e][..0] == [];
  }

  lemma {:induction false} DeltasRecordNothing(texts: seq<string>)
    ensures RecordsIn(Deltas(texts)) == []
  {
    if texts != [] {
      var init := texts[..|texts| - 1];
      assert Deltas(texts)[..|texts| - 1] == Deltas(init);
      DeltasRecordNothing(init);
    }
  }

  /** A done chunk comes last, right after the settlement was offered, and only from a finished stream. */
  ghost predicate DoneIsLast(events: seq<StreamEvent>, finished: bool) {
    && (forall k :: 0 <= k < |events| && events[k].Yielded? && events[k].chunk.DoneChunk? ==>
          k == |events| - 1 && k > 0 && events[k - 1].SettlementOffered?)
    && (finished <==> exists k :: 0 <= k < |events| && events[k].Yielded? && events[k].chunk.DoneChunk?)
    && (finished <==> exists k :: 0 <= k < |events| && events[k].SettlementOffered?)
  }

  lemma DeltasSettleNothing(texts: seq<string>)
    ensures forall k :: 0 <= k < |texts| ==> Deltas(texts)[k].Yielded? && Deltas(texts)[k].chunk.Delta?
  {
  }

  lemma FinishedEventsEnd(texts: seq<string>, evidence: Settlement, recorded: bool, usage: map<string, Json>)
    ensures var events := Deltas(texts) + [SettlementOffered(evidence, recorded), Yielded(DoneChunk(usage))];
            DoneIsLast(events, true) && RecordsIn(events) == if recorded then [Settled(evidence)] else []
  {
    var offered, done := SettlementOffered(evidence, recorded), Yielded(DoneChunk(usage));
    var events := Deltas(texts) + [offered, done];
    DeltasSettleNothing(texts);
    assert events[|texts|] == offered && events[|texts| + 1] == done;
    FinishedEventsRecord(texts, offered, done);
  }

  lemma FinishedEventsRecord(texts: seq<string>, offered: StreamEvent, done: StreamEvent)
    ensures RecordsIn(Deltas(texts) + [offered, done]) == RecordsIn([offered]) + RecordsIn([done])
  {
    DeltasRecordNothing(texts);
    assert Deltas(texts) + [offered, done] == (Deltas(texts) + [offered]) + [done];
    RecordsInAppend(Deltas(texts) + [offered], done);
    RecordsInAppend(Deltas(texts), offered);
  }

  lemma BrokenEventsEnd(texts: seq<string>, evidence: Settlement)
    ensures var events := Deltas(texts) + [Retained(evidence)];
            DoneIsLast(events, false) && RecordsIn(events) == [RetainedUnknown(evidence)]
  {
    DeltasSettleNothing(texts);
    DeltasRecordNothing(texts);
    RecordsInAppend(Deltas(texts), Retained(evidence));
  }

  lemma StreamEventsEnd(b: Bounds, s: Stream)
    ensures DoneIsLast(StreamEvents(b, s), Walked(s).end == Finished)
    ensures RecordsIn(StreamEvents(b, s)) == StreamRecords(b, s)
  {
    var w := Walked(s);
    if w.end == Finished {
      FinishedEventsEnd(w.texts, SettlementFor(b, Completed, w.usage), s.settleAccepted, w.usage);
    } else {
      BrokenEventsEnd(w.texts, SettlementFor(b, PartialStream, w.usage));
    }
  }

  class StreamReader {
    const adapter: UsePodAdapter

    constructor (adapter: UsePodAdapter)
      ensures this.adapter == adapter
    {
      this.adapter := adapter;
    }

    /** The generator's loop: every non-empty text is yielded before the next line is looked at. */
    method ReadLines(s: Stream) returns (events: seq<StreamEvent>, usage: map<string, Json>, end: StreamEnd)
      ensures events == Deltas(Walked(s).texts) && usage == Walked(s).usage && end == Walked(s).end
    {
      var texts: seq<string> := [];
      events, usage := [], map[];
      var i := 0;
      while i < |s.lines|
        invariant 0 <= i <= |s.lines|
        invariant events == Deltas(texts)
        invariant Walked(s) == WalkFrom(s, i, texts, usage)
      {
        if s.cancelledAt(i) {
          return events, usage, Cut;
        }
        match ParseLine(s.loads, s.lines[i]) {
          case Unparsed =>
          case OtherValue =>
          case DoneMark => return events, usage, Finished;
          case Event(fields) =>
            if Truthy(Get(fields, "usage")) {
              var seen := AsDict(s.pairs, Get(fields, "usage"));
              if seen == None {
                return events, usage, Cut;
              }
              usage := seen.value;
            }
            var text := s.deltaText(fields);
            if text == None {
              return events, usage, Cut;
            }
            if text.value != "" {
              assert Deltas(texts + [text.value]) == Deltas(texts) + [Yielded(Delta(text.value))];
              texts := texts + [text.value];
              events := events + [Yielded(Delta(text.value))];
              if s.stopsAfter == Some(|texts|) {
                return events, usage, Cut;
              }
            }
        }
        i := i + 1;
      }
      return events, usage, Incomplete;
    }

    /** The started generator, with what it does in order. The done chunk is last, comes only after the terminator, and
        right after the settlement was offered to the authority: by then the operation's trace is complete. */
    method StreamChunks(plan: Plan, s: Stream) returns (events: seq<StreamEvent>, end: StreamEnd)
      requires plan.reservation.Some? && StateOf(adapter.authority.Trace(plan.operationId)) == Pending
      modifies adapter.authority
      ensures end == Walked(s).end
      ensures events == StreamEvents(plan.bounds, s)
      ensures DoneIsLast(events, end == Finished)
      ensures adapter.authority.Trace(plan.operationId) == old(adapter.authority.Trace(plan.operationId)) + RecordsIn(events)
      ensures RecordsIn(events) == StreamRecords(plan.bounds, s)
      ensures OnlyChanged(adapter.authority.traces, old(adapter.authority.traces), plan.operationId)
    {
      var usage;
      events, usage, end := ReadLines(s);
      StreamEventsEnd(plan.bounds, s);
      if end != Finished {
        var evidence := SettlementFor(plan.bounds, PartialStream, usage);
        adapter.RetainUnknown(plan, evidence);
        events := events + [Retained(evidence)];
        return;
      }
      var evidence := SettlementFor(plan.bounds, Completed, usage);
      var recorded := adapter.Settle(plan, evidence, s.settleAccepted);
      events := events + [SettlementOffered(evidence, recorded)];
      events := events + [Yielded(DoneChunk(usage))];
    }

    /** A streamed call: the gate is passed before the generator exists, and a generator nobody starts records nothing. */
    method StreamCall(plan: Plan, s: Script, stream: Stream, started: bool) returns (events: seq<StreamEvent>, end: Option<StreamEnd>)
      requires adapter.Fresh(plan)
      modifies plan, adapter.authority
      ensures adapter.authority.Trace(plan.operationId) == StreamTrace(plan.bounds, s, stream, started)
      ensures OnlyChanged(adapter.authority.traces, old(adapter.authority.traces), plan.operationId)
      ensures end == if ReachesBody(s) && started then Some(Walked(stream).end) else None
      ensures events == if ReachesBody(s) && started then StreamEvents(plan.bounds, stream) else []
    {
      var arrived := adapter.Open(plan, s);
      events, end := [], None;
      if arrived.Ok? {
        if started {
          var finish;
          events, finish := StreamChunks(plan, stream);
          end := Some(finish);
        }
        OpenedTrace(plan.bounds, s, if started then StreamRecords(plan.bounds, stream) else []);
      }
    }
  }

  /** The trace a streamed call leaves at the authority. */
  function StreamTrace(b: Bounds, s: Script, stream: Stream, started: bool): seq<Record> {
    TraceWith(b, s, if started then StreamRecords(b, stream) else [])
  }

  // ----- what the consumer sees -----

  /** The non-empty texts of the events before the first terminator, from line `i` on. */
  function EventTexts(s: Stream, i: nat): seq<string>
    requires i <= |s.lines|
    decreases |s.lines| - i
  {
    if i == |s.lines| then []
    else match LineAt(s, i)
      case DoneMark => []
      case Event(fields) =>
        (match s.deltaText(fields)
         case Some(text) => (if text == "" then [] else [text]) + EventTexts(s, i + 1)
         case None => EventTexts(s, i + 1))
      case _ => EventTexts(s, i + 1)
  }

  predicate HasTerminator(s: Stream, i: nat)
    requires i <= |s.lines|
  {
    exists j :: i <= j < |s.lines| && LineAt(s, j) == DoneMark
  }

  /** Line `i` can be read: the turn is not cancelled there, and an event's usage and text can be extracted. */
  predicate Readable(s: Stream, i: nat)
    requires i < |s.lines|
  {
    && !s.cancelledAt(i)
    && (LineAt(s, i).Event? ==> UsageAfter(s, LineAt(s, i).fields, map[]).Some? && s.deltaText(LineAt(s, i).fields).Some?)
  }

  /** Every line from `i` up to the first terminator can be read. */
  predicate ReadableFrom(s: Stream, i: nat)
    requires i <= |s.lines|
    decreases |s.lines| - i
  {
    i < |s.lines| ==> Readable(s, i) && (LineAt(s, i) != DoneMark ==> ReadableFrom(s, i + 1))
  }

  /** The consumer stops reading at one of the text chunks before the terminator, `read` of them read already. */
  predicate StopsFrom(s: Stream, i: nat, read: nat)
    requires i <= |s.lines|
  {
    s.stopsAfter.Some? && read < s.stopsAfter.value <= read + |EventTexts(s, i)|
  }

  /** Nothing before the terminator interrupts the stream. */
  predicate Uninterrupted(s: Stream) {
    ReadableFrom(s, 0) && !StopsFrom(s, 0, 0)
  }

  /** The walk yields these event texts behind `texts`, all of them unless it was cut. */
  ghost predicate Yields(w: Walk, texts: seq<string>, events: seq<string>) {
    w.texts <= texts + events && (w.end != Cut ==> w.texts == texts + events)
  }

  lemma YieldsMore(w: Walk, texts: seq<string>, text: string, events: seq<string>)
    requires Yields(w, texts + [text], events) || (w.end == Cut && w.texts == texts + [text])
    ensures Yields(w, texts, [text] + events)
  {
    assert (texts + [text]) + events == texts + ([text] + events);
  }

  /** The walk over an event that can be read. */
  lemma EventStep(s: Stream, i: nat, texts: seq<string>, usage: map<string, Json>)
    requires i < |s.lines| && Readable(s, i) && LineAt(s, i).Event?
    ensures var text := s.deltaText(LineAt(s, i).fields).value;
            var seen := UsageAfter(s, LineAt(s, i).fields, usage).value;
            WalkFrom(s, i, texts, usage) ==
              if text == "" then WalkFrom(s, i + 1, texts, seen)
              else if s.stopsAfter == Some(|texts| + 1) then Walk(texts + [text], seen, Cut)
              else WalkFrom(s, i + 1, texts + [text], seen)
  {
  }

  lemma TextsStep(s: Stream, i: nat)
    requires i < |s.lines| && Readable(s, i) && LineAt(s, i).Event?
    ensures var text := s.deltaText(LineAt(s, i).fields).value;
            EventTexts(s, i) == if text == "" then EventTexts(s, i + 1) else [text] + EventTexts(s, i + 1)
  {
    assert [] + EventTexts(s, i + 1) == EventTexts(s, i + 1);
  }

  lemma TerminatorStep(s: Stream, i: nat)
    requires i < |s.lines|
    ensures HasTerminator(s, i) <==> LineAt(s, i) == DoneMark || HasTerminator(s, i + 1)
  {
  }

  /** The lines end here, or with this line the walk. */
  predicate EndsAt(s: Stream, i: nat)
    requires i <= |s.lines|
  {
    i == |s.lines| || !Readable(s, i) || LineAt(s, i) == DoneMark
  }

  lemma WalkStops(s: Stream, i: nat, texts: seq<string>, usage: map<string, Json>)
    requires i <= |s.lines| && EndsAt(s, i)
    ensures var w := WalkFrom(s, i, texts, usage); w.texts == texts && (w.end != Cut ==> EventTexts(s, i) == [])
  {
  }

  lemma SilentStep(s: Stream, i: nat, texts: seq<string>, usage: map<string, Json>)
    requires i <= |s.lines| && !EndsAt(s, i) && !LineAt(s, i).Event?
    ensures WalkFrom(s, i, texts, usage) == WalkFrom(s, i + 1, texts, usage) && EventTexts(s, i) == EventTexts(s, i + 1)
  {
  }

  /** The walk yields the event texts, in order, cut short only where it is interrupted. */
  lemma {:induction false} WalkYieldsEventTexts(s: Stream, i: nat, texts: seq<string>, usage: map<string, Json>)
    requires i <= |s.lines|
    ensures Yields(WalkFrom(s, i, texts, usage), texts, EventTexts(s, i))
    decreases |s.lines| - i
  {
    if EndsAt(s, i) {
      WalkStops(s, i, texts, usage);
      assert texts + [] == texts;
    } else if !LineAt(s, i).Event? {
      SilentStep(s, i, texts, usage);
      WalkYieldsEventTexts(s, i + 1, texts, usage);
    } else {
      var seen := UsageAfter(s, LineAt(s, i).fields, usage).value;
      var text := s.deltaText(LineAt(s, i).fields).value;
      EventStep(s, i, texts, usage);
      TextsStep(s, i);
      if text == "" {
        WalkYieldsEventTexts(s, i + 1, texts, seen);
      } else {
        WalkYieldsEventTexts(s, i + 1, texts + [text], seen);
        YieldsMore(WalkFrom(s, i, texts, usage), texts, text, EventTexts(s, i + 1));
      }
    }
  }

  lemma WalkStopsAs(s: Stream, i: nat, texts: seq<string>, usage: map<string, Json>)
    requires i <= |s.lines| && EndsAt(s, i)
    ensures WalkFrom(s, i, texts, usage).end == Finished ==> i < |s.lines| && LineAt(s, i) == DoneMark
    ensures WalkFrom(s, i, texts, usage).end == Incomplete ==> i == |s.lines|
  {
  }

  /** It finishes only at a terminator, and runs out of lines only without one. */
  lemma {:induction false} WalkMeetsTerminator(s: Stream, i: nat, texts: seq<string>, usage: map<string, Json>)
    requires i <= |s.lines|
    ensures WalkFrom(s, i, texts, usage).end == Finished ==> HasTerminator(s, i)
    ensures WalkFrom(s, i, texts, usage).end == Incomplete ==> !HasTerminator(s, i)
    decreases |s.lines| - i
  {
    if i < |s.lines| {
      TerminatorStep(s, i);
    }
    if EndsAt(s, i) {
      WalkStopsAs(s, i, texts, usage);
    } else if !LineAt(s, i).Event? {
      SilentStep(s, i, texts, usage);
      WalkMeetsTerminator(s, i + 1, texts, usage);
    } else {
      var text := s.deltaText(LineAt(s, i).fields).value;
      EventStep(s, i, texts, usage);
      WalkMeetsTerminator(s, i + 1, if text == "" then texts else texts + [text], UsageAfter(s, LineAt(s, i).fields, usage).value);
    }
  }

  /** The text chunks are the event texts before the terminator: all of them unless the stream was interrupted, and
      then a prefix. A done chunk says that the terminator was seen; a stream that ran out had none. */
  lemma StreamedTexts(s: Stream)
    ensures Walked(s).texts <= EventTexts(s, 0)
    ensures Walked(s).end != Cut ==> Walked(s).texts == EventTexts(s, 0)
    ensures Walked(s).end == Finished ==> HasTerminator(s, 0)
    ensures Walked(s).end == Incomplete ==> !HasTerminator(s, 0)
  {
    WalkYieldsEventTexts(s, 0, [], map[]);
    WalkMeetsTerminator(s, 0, [], map[]);
    assert [] + EventTexts(s, 0) == EventTexts(s, 0);
  }

  /** The consumer stops at this event's text, or later. */
  lemma StopsStep(s: Stream, i: nat, read: nat)
    requires i < |s.lines| && LineAt(s, i).Event? && s.deltaText(LineAt(s, i).fields).Some?
    ensures var text := s.deltaText(LineAt(s, i).fields).value;
            StopsFrom(s, i, read) <==>
              if text == "" then StopsFrom(s, i + 1, read) else s.stopsAfter == Some(read + 1) || StopsFrom(s, i + 1, read + 1)
  {
  }

  lemma {:induction false} CutIffInterrupted(s: Stream, i: nat, texts: seq<string>, usage: map<string, Json>)
    requires i <= |s.lines|
    ensures WalkFrom(s, i, texts, usage).end == Cut <==> !ReadableFrom(s, i) || StopsFrom(s, i, |texts|)
    decreases |s.lines| - i
  {
    if i < |s.lines| && Readable(s, i) {
      var line := LineAt(s, i);
      if line.Event? {
        var text := s.deltaText(line.fields).value;
        EventStep(s, i, texts, usage);
        StopsStep(s, i, |texts|);
        CutIffInterrupted(s, i + 1, if text == "" then texts else texts + [text], UsageAfter(s, line.fields, usage).value);
      } else if line != DoneMark {
        CutIffInterrupted(s, i + 1, texts, usage);
      }
    }
  }

  /** How a stream ends: it is cut if and only if something before the terminator interrupts it; otherwise it is finished
      if and only if it holds a terminator. */
  lemma FinishedIffTerminator(s: Stream)
    ensures Walked(s).end == Finished <==> Uninterrupted(s) && HasTerminator(s, 0)
    ensures Walked(s).end == Incomplete <==> Uninterrupted(s) && !HasTerminator(s, 0)
  {
    CutIffInterrupted(s, 0, [], map[]);
    StreamedTexts(s);
  }

  /** A streamed call that holds its reservation leaves exactly one terminal record IF AND ONLY IF, past the route gate,
      the generator is started and a finished stream's settlement is accepted. */
  lemma StreamTerminalIff(b: Bounds, s: Script, stream: Stream, started: bool)
    requires HoldsReservation(s)
    ensures var t := StreamTrace(b, s, stream, started);
            && |Terminals(t)| <= 1 && StateOf(t) != Unlawful
            && (|Terminals(t)| == 1 <==> (ReachesBody(s) ==> started && (Walked(stream).end == Finished ==> stream.settleAccepted)))
            && (Terminals(t) == [] ==> StateOf(t) == Pending)
  {
    TerminalsOfCall(b, s, if started then StreamRecords(b, stream) else []);
  }

  /** Without the terminator nothing is ever settled: the liability is retained as unknown. */
  lemma IncompleteStreamIsRetained(b: Bounds, stream: Stream)
    requires !HasTerminator(stream, 0)
    ensures |StreamRecords(b, stream)| == 1 && StreamRecords(b, stream)[0].RetainedUnknown?
  {
    StreamedTexts(stream);
  }

  lemma StreamIsRead(b: Bounds, stream: Stream)
    ensures LeftByReading(b, StreamRecords(b, stream))
  {
    var last, usage := StreamRecords(b, stream), Walked(stream).usage;
    if Walked(stream).end != Finished {
      assert last == [RetainedUnknown(SettlementFor(b, PartialStream, usage))];
    } else if stream.settleAccepted {
      assert last == [Settled(SettlementFor(b, Completed, usage))];
    }
  }

  /** A streamed call keeps the same money law as a buffered one, started or not, finished, broken off, cancelled or abandoned. */
  lemma StreamedCallKeepsMoneyLaw(b: Bounds, s: Script, stream: Stream, started: bool)
    requires Priced(b)
    ensures KeepsMoneyLaw(b, s, StreamTrace(b, s, stream, started))
  {
    StreamIsRead(b, stream);
    TraceKeepsMoneyLaw(b, s, if started then StreamRecords(b, stream) else []);
  }

  // ----- the usage a stream settles on, read off its lines -----

  /** What a line is to the loop: it breaks the stream off (the turn is cancelled there, or its usage cannot be read), it is
      passed over, it is the terminator, or it is an event with the usage it reports, if any, and its text, if that can be
      extracted. */
  datatype Kind = Broken | Blank | Terminator | Heard(report: Option<map<string, Json>>, text: Option<string>)

  function KindAt(s: Stream, i: nat): Kind
    requires i < |s.lines|
  {
    if s.cancelledAt(i) then Broken
    else match LineAt(s, i)
      case DoneMark => Terminator
      case Event(fields) =>
        if !Truthy(Get(fields, "usage")) then Heard(None, s.deltaText(fields))
        else (match AsDict(s.pairs, Get(fields, "usage"))
              case Some(usage) => Heard(Some(usage), s.deltaText(fields))
              case None => Broken)
      case _ => Blank
  }

  function Kinds(s: Stream): seq<Kind> {
    seq(|s.lines|, i requires 0 <= i < |s.lines| => KindAt(s, i))
  }

  predicate Reports(k: Kind) {
    k.Heard? && k.report.Some?
  }

  predicate HasText(k: Kind) {
    k.Heard? && k.text.Some? && k.text.value != ""
  }

  /** The usage reported last by the first `n` lines, and nothing if none of them reports one. */
  ghost predicate LastReported(kinds: seq<Kind>, n: nat, usage: map<string, Json>)
    requires n <= |kinds|
  {
    || (usage == map[] && forall i :: 0 <= i < n ==> !Reports(kinds[i]))
    || exists i :: 0 <= i < n && Reports(kinds[i]) && kinds[i].report.value == usage && forall j :: i < j < n ==> !Reports(kinds[j])
  }

  /** How many of the first `n` lines are events with a text. */
  function TextsBefore(kinds: seq<Kind>, n: nat): nat
    requires n <= |kinds|
  {
    if n == 0 then 0 else TextsBefore(kinds, n - 1) + if HasText(kinds[n - 1]) then 1 else 0
  }

  /** The consumer stops reading at the text of line `i`. */
  predicate StopsAt(kinds: seq<Kind>, stopsAfter: Option<nat>, i: nat)
    requires i < |kinds|
  {
    HasText(kinds[i]) && stopsAfter == Some(TextsBefore(kinds, i) + 1)
  }

  /** The loop goes on behind line `i`. */
  predicate Passed(kinds: seq<Kind>, stopsAfter: Option<nat>, i: nat)
    requires i < |kinds|
  {
    kinds[i].Blank? || (kinds[i].Heard? && kinds[i].text.Some? && !StopsAt(kinds, stopsAfter, i))
  }

  /** How such lines end a stream, at line `n`, and on which usage: incomplete at the end of the lines; finished at the first
      terminator; cut at the first line that breaks it off, or, its usage included, at the first event whose text cannot be
      extracted or at which the consumer stops. */
  ghost predicate EndsAs(kinds: seq<Kind>, stopsAfter: Option<nat>, end: StreamEnd, usage: map<string, Json>, n: nat) {
    && n <= |kinds| && (forall i: nat :: i < n ==> Passed(kinds, stopsAfter, i))
    && match end
       case Incomplete => n == |kinds| && LastReported(kinds, n, usage)
       case Finished => n < |kinds| && kinds[n].Terminator? && LastReported(kinds, n, usage)
       case Cut =>
         n < |kinds| && ((kinds[n].Broken? && LastReported(kinds, n, usage))
                         || (kinds[n].Heard? && !Passed(kinds, stopsAfter, n) && LastReported(kinds, n + 1, usage)))
  }

  /** The walk, over what the lines are to it. */
  function KindWalk(kinds: seq<Kind>, stopsAfter: Option<nat>, i: nat, texts: seq<string>, usage: map<string, Json>): Walk
    requires i <= |kinds|
    decreases |kinds| - i
  {
    if i == |kinds| then Walk(texts, usage, Incomplete)
    else match kinds[i]
      case Broken => Walk(texts, usage, Cut)
      case Blank => KindWalk(kinds, stopsAfter, i + 1, texts, usage)
      case Terminator => Walk(texts, usage, Finished)
      case Heard(report, text) =>
        var seen := if report.Some? then report.value else usage;
        if text == None then Walk(texts, seen, Cut)
        else if text.value == "" then KindWalk(kinds, stopsAfter, i + 1, texts, seen)
        else if stopsAfter == Some(|texts| + 1) then Walk(texts + [text.value], seen, Cut)
        else KindWalk(kinds, stopsAfter, i + 1, texts + [text.value], seen)
  }

  lemma {:induction false} WalkIsOverKinds(s: Stream, i: nat, texts: seq<string>, usage: map<string, Json>)
    requires i <= |s.lines|
    ensures WalkFrom(s, i, texts, usage) == KindWalk(Kinds(s), s.stopsAfter, i, texts, usage)
    decreases |s.lines| - i
  {
    if i < |s.lines| {
      match KindAt(s, i) {
        case Blank => WalkIsOverKinds(s, i + 1, texts, usage);
        case Heard(report, Some(text)) =>
          WalkIsOverKinds(s, i + 1, if text == "" then texts else texts + [text], if report.Some? then report.value else usage);
        case _ =>
      }
    }
  }

  lemma ReportedStep(kinds: seq<Kind>, n: nat, usage: map<string, Json>, next: map<string, Json>)
    requires n < |kinds| && LastReported(kinds, n, usage)
    requires next == if Reports(kinds[n]) then kinds[n].report.value else usage
    ensures LastReported(kinds, n + 1, next)
  {
    if !Reports(kinds[n]) {
      if i :| 0 <= i < n && Reports(kinds[i]) && kinds[i].report.value == usage && forall j :: i < j < n ==> !Reports(kinds[j]) {
        assert forall j :: i < j < n + 1 ==> !Reports(kinds[j]);
      }
    }
  }

  lemma EndsHere(kinds: seq<Kind>, stopsAfter: Option<nat>, i: nat, texts: seq<string>, usage: map<string, Json>)
    requires i <= |kinds| && |texts| == TextsBefore(kinds, i) && LastReported(kinds, i, usage)
    requires (forall j: nat :: j < i ==> Passed(kinds, stopsAfter, j)) && (i < |kinds| ==> !Passed(kinds, stopsAfter, i))
    ensures var w := KindWalk(kinds, stopsAfter, i, texts, usage); EndsAs(kinds, stopsAfter, w.end, w.usage, i)
  {
    if i < |kinds| && kinds[i].Heard? {
      ReportedStep(kinds, i, usage, if kinds[i].report.Some? then kinds[i].report.value else usage);
    }
  }

  lemma PassesOn(kinds: seq<Kind>, stopsAfter: Option<nat>, i: nat, texts: seq<string>, usage: map<string, Json>)
    returns (more: seq<string>, seen: map<string, Json>)
    requires i < |kinds| && |texts| == TextsBefore(kinds, i) && LastReported(kinds, i, usage) && Passed(kinds, stopsAfter, i)
    ensures |more| == TextsBefore(kinds, i + 1) && LastReported(kinds, i + 1, seen)
    ensures KindWalk(kinds, stopsAfter, i, texts, usage) == KindWalk(kinds, stopsAfter, i + 1, more, seen)
  {
    more := if HasText(kinds[i]) then texts + [kinds[i].text.value] else texts;
    seen := if Reports(kinds[i]) then kinds[i].report.value else usage;
    ReportedStep(kinds, i, usage, seen);
  }

  lemma {:induction false} WalkEndsAs(kinds: seq<Kind>, stopsAfter: Option<nat>, i: nat, texts: seq<string>, usage: map<string, Json>)
    returns (n: nat)
    requires i <= |kinds| && |texts| == TextsBefore(kinds, i) && LastReported(kinds, i, usage)
    requires forall j: nat :: j < i ==> Passed(kinds, stopsAfter, j)
    ensures var w := KindWalk(kinds, stopsAfter, i, texts, usage); EndsAs(kinds, stopsAfter, w.end, w.usage, n)
    decreases |kinds| - i
  {
    if i < |kinds| && Passed(kinds, stopsAfter, i) {
      var more, seen := PassesOn(kinds, stopsAfter, i, texts, usage);
      n := WalkEndsAs(kinds, stopsAfter, i + 1, more, seen);
    } else {
      EndsHere(kinds, stopsAfter, i, texts, usage);
      n := i;
    }
  }

  /** What a started stream does last, read off its lines: finished at its terminator, it offers a settlement on the usage last
      reported before it and then yields that usage with the done chunk; otherwise it retains the liability on the usage last
      reported up to where it ended. */
  lemma StreamSettlesOnLastUsage(b: Bounds, s: Stream) returns (end: StreamEnd, usage: map<string, Json>, n: nat)
    ensures EndsAs(Kinds(s), s.stopsAfter, end, usage, n)
    ensures var events := StreamEvents(b, s);
            if end == Finished then
              && |events| >= 2 && events[|events| - 2] == SettlementOffered(SettlementFor(b, Completed, usage), s.settleAccepted)
              && events[|events| - 1] == Yielded(DoneChunk(usage))
              && StreamRecords(b, s) == (if s.settleAccepted then [Settled(SettlementFor(b, Completed, usage))] else [])
            else
              && |events| >= 1 && events[|events| - 1] == Retained(SettlementFor(b, PartialStream, usage))
              && StreamRecords(b, s) == [RetainedUnknown(SettlementFor(b, PartialStream, usage))]
  {
    WalkIsOverKinds(s, 0, [], map[]);
    n := WalkEndsAs(Kinds(s), s.stopsAfter, 0, [], map[]);
    end, usage := Walked(s).end, Walked(s).usage;
  }

  lemma LastReportIsOne(kinds: seq<Kind>, n: nat, usage: map<string, Json>, also: map<string, Json>)
    requires n <= |kinds| && LastReported(kinds, n, usage) && LastReported(kinds, n, also)
    ensures usage == also
  {
  }

  /** The lines determine how a stream ends, where, and on which usage. */
  lemma StreamEndsOneWay(kinds: seq<Kind>, stopsAfter: Option<nat>, end: StreamEnd, usage: map<string, Json>, n: nat,
                         other: StreamEnd, also: map<string, Json>, m: nat)
    requires EndsAs(kinds, stopsAfter, end, usage, n) && EndsAs(kinds, stopsAfter, other, also, m)
    ensures end == other && usage == also && n == m
  {
    EndingLineIsNotPassed(kinds, stopsAfter, end, usage, n);
    EndingLineIsNotPassed(kinds, stopsAfter, other, also, m);
    if end == Cut && kinds[n].Heard? {
      LastReportIsOne(kinds, n + 1, usage, also);
    } else {
      LastReportIsOne(kinds, n, usage, also);
    }
  }

  lemma EndingLineIsNotPassed(kinds: seq<Kind>, stopsAfter: Option<nat>, end: StreamEnd, usage: map<string, Json>, n: nat)
    requires EndsAs(kinds, stopsAfter, end, usage, n)
    ensures n < |kinds| ==> !Passed(kinds, stopsAfter, n)
  {
  }

  // ----- what a line says -----

  /** A line is read past surrounding space and an optional `data:` label. */
  lemma LabelIsOptional(loads: string -> Option<Json>, body: string)
    requires Text.Strip(body) == body != "" && !(|body| >= 5 && body[..5] == "data:")
    ensures ParseLine(loads, "data:" + body) == ParseLine(loads, body)
  {
    LabelledIsStripped(body);
    assert ("data:" + body)[..5] == "data:" && ("data:" + body)[5..] == body;
  }

  /** A blank line says nothing, and neither does a label alone. */
  lemma BlankLineMeans(loads: string -> Option<Json>, line: string)
    requires Text.IsBlank(line)
    ensures ParseLine(loads, line) == Unparsed
    ensures loads("") == None ==> ParseLine(loads, "data:") == Unparsed
  {
    assert "data:"[..5] == "data:" && "data:"[5..] == "";
    BareLabelIsStripped();
  }

  lemma BareLabelIsStripped()
    ensures Text.Strip("data:") == "data:"
  {
  }

  lemma LabelledIsStripped(body: string)
    requires Text.Strip(body) == body != ""
    ensures Text.Strip("data:" + body) == "data:" + body
  {
    Text.StripRightEnds(Text.StripLeft(body));
    assert ("data:" + body)[|"data:" + body| - 1] == body[|body| - 1];
  }

  /** What the text of an unlabelled line means: the terminator in either spelling, an event, or nothing to act on. */
  lemma LineMeans(loads: string -> Option<Json>, body: string, fields: map<string, Json>)
    requires Text.Strip(body) == body && !(|body| >= 5 && body[..5] == "data:")
    ensures ParseLine(loads, body) == DoneMark <==> body == "[DONE]" || (body != "" && loads(body) == Some(JStr("__DONE__")))
    ensures ParseLine(loads, body) == Event(fields) <==> body != "" && body != "[DONE]" && loads(body) == Some(JObject(fields))
  {
  }
}

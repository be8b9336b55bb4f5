/** The fail-closed reading of a batch of native Ollama tool calls
    (adapters/openai_compatible_adapter.py, `_extract_ollama_tool_calls`, `_parse_ollama_tool_arguments`). */
module OllamaToolCalls {
  import opened Wrappers
  import opened Json
  import JsonText
  import Text

  datatype Definition = Definition(intent: string, name: string)

  datatype ToolCall = ToolCall(callId: string, intent: string, name: string, arguments: map<string, Json>)

  datatype ToolError = Malformed | UnknownName | Duplicate

  /** The given functions: `json.loads` (None where it raises), `str`, and `json.dumps` with sorted keys. */
  datatype Reader = Reader(loads: string -> Option<Json>, str: Json -> string, dumps: Json -> string)

  /** `str(value or "").strip()` */
  function TextOf(r: Reader, j: Json): string {
    Text.Strip(if Truthy(j) then r.str(j) else "")
  }

  function ParseArguments(r: Reader, raw: Json): Result<map<string, Json>, ToolError> {
    match raw
    case JNull => Ok(map[])
    case JObject(fields) => Ok(fields)
    case JStr(s) =>
      var stripped := Text.Strip(s);
      if stripped == "" then Ok(map[])
      else (match r.loads(stripped)
            case Some(JObject(fields)) => Ok(fields)
            case _ => Err(Malformed))
    case _ => Err(Malformed)
  }

  predicate Offered(definitions: seq<Definition>, name: string) {
    definitions == [] || exists i :: 0 <= i < |definitions| && (definitions[i].intent == name || definitions[i].name == name)
  }

  /** `intent_by_name.get(name, name)`: the last definition of that name that has an intent. */
  function IntentFor(definitions: seq<Definition>, name: string): string {
    if definitions == [] then name
    else
      var last := definitions[|definitions| - 1];
      if last.name == name && last.intent != "" then last.intent else IntentFor(definitions[..|definitions| - 1], name)
  }

  /** What one entry says, whatever the rest of the batch says. The `function` wrapper is optional. */
  function ReadEntry(r: Reader, definitions: seq<Definition>, entry: Json): Result<ToolCall, ToolError> {
    if !entry.JObject? then Err(Malformed)
    else
      var wrapped := Get(entry.fields, "function");
      var f := if wrapped.JObject? then wrapped.fields else entry.fields;
      var name := TextOf(r, Get(f, "name"));
      if name == "" then Err(Malformed)
      else if !Offered(definitions, name) then Err(UnknownName)
      else match ParseArguments(r, Get(f, "arguments"))
        case Err(e) => Err(e)
        case Ok(arguments) => Ok(ToolCall(TextOf(r, Get(entry.fields, "id")), IntentFor(definitions, name), name, arguments))
  }

  function Signature(r: Reader, c: ToolCall): (string, string) {
    (c.name, r.dumps(JObject(c.arguments)))
  }

  /** Two calls the batch may not hold together: the same id, or, both without one, the same name and arguments. */
  predicate Clash(r: Reader, a: ToolCall, b: ToolCall) {
    (a.callId != "" && a.callId == b.callId) || (a.callId == "" && b.callId == "" && Signature(r, a) == Signature(r, b))
  }

  predicate AllWellFormed(r: Reader, definitions: seq<Definition>, entries: seq<Json>) {
    forall i :: 0 <= i < |entries| ==> ReadEntry(r, definitions, entries[i]).Ok?
  }

  function Calls(r: Reader, definitions: seq<Definition>, entries: seq<Json>): seq<ToolCall>
    requires AllWellFormed(r, definitions, entries)
  {
    seq(|entries|, i requires 0 <= i < |entries| => ReadEntry(r, definitions, entries[i]).value)
  }

  predicate NoClashes(r: Reader, calls: seq<ToolCall>) {
    forall i, j :: 0 <= i < j < |calls| ==> !Clash(r, calls[i], calls[j])
  }

  predicate Acceptable(r: Reader, definitions: seq<Definition>, entries: seq<Json>) {
    AllWellFormed(r, definitions, entries) && NoClashes(r, Calls(r, definitions, entries))
  }

  /** Entry `i` is the one that fails the batch, with `e`: everything before it is acceptable, and it is itself ill
      formed or not offered, or repeats an earlier call. */
  ghost predicate FailsAt(r: Reader, definitions: seq<Definition>, entries: seq<Json>, i: nat, e: ToolError)
    requires i < |entries|
  {
    && Acceptable(r, definitions, entries[..i])
    && match ReadEntry(r, definitions, entries[i])
       case Err(problem) => e == problem
       case Ok(call) => e == Duplicate && exists j :: 0 <= j < i && Clash(r, Calls(r, definitions, entries[..i])[j], call)
  }

  /** What the loop's seen-sets hold after `calls`. */
  ghost predicate SeenMatch(r: Reader, calls: seq<ToolCall>, ids: set<string>, signatures: set<(string, string)>) {
    && (forall id :: id in ids <==> exists i :: 0 <= i < |calls| && calls[i].callId == id && id != "")
    && (forall g :: g in signatures <==> exists i :: 0 <= i < |calls| && calls[i].callId == "" && Signature(r, calls[i]) == g)
  }

  lemma SeenGrows(r: Reader, calls: seq<ToolCall>, ids: set<string>, signatures: set<(string, string)>, c: ToolCall)
    requires SeenMatch(r, calls, ids, signatures)
    ensures SeenMatch(r, calls + [c], if c.callId != "" then ids + {c.callId} else ids,
                      if c.callId == "" then signatures + {Signature(r, c)} else signatures)
  {
    var more := calls + [c];
    assert more[|calls|] == c;
    assert forall i :: 0 <= i < |calls| ==> more[i] == calls[i];
  }

  lemma NoClashesGrows(r: Reader, calls: seq<ToolCall>, c: ToolCall)
    ensures NoClashes(r, calls + [c]) <==> NoClashes(r, calls) && forall j :: 0 <= j < |calls| ==> !Clash(r, calls[j], c)
  {
    var more := calls + [c];
    if NoClashes(r, more) {
      forall i, j | 0 <= i < j < |calls| ensures !Clash(r, calls[i], calls[j]) {
        assert more[i] == calls[i] && more[j] == calls[j];
      }
      forall j | 0 <= j < |calls| ensures !Clash(r, calls[j], c) {
        assert more[j] == calls[j] && more[|calls|] == c;
      }
    }
  }

  lemma AcceptableGrows(r: Reader, definitions: seq<Definition>, entries: seq<Json>, i: nat)
    requires i < |entries| && Acceptable(r, definitions, entries[..i])
    ensures Acceptable(r, definitions, entries[..i + 1]) <==>
              (ReadEntry(r, definitions, entries[i]).Ok?
               && forall j :: 0 <= j < i ==> !Clash(r, Calls(r, definitions, entries[..i])[j], ReadEntry(r, definitions, entries[i]).value))
    ensures ReadEntry(r, definitions, entries[i]).Ok? ==>
              AllWellFormed(r, definitions, entries[..i + 1])
              && Calls(r, definitions, entries[..i + 1]) == Calls(r, definitions, entries[..i]) + [ReadEntry(r, definitions, entries[i]).value]
  {
    var shorter, longer := entries[..i], entries[..i + 1];
    assert longer == shorter + [entries[i]];
    if ReadEntry(r, definitions, entries[i]).Ok? {
      assert AllWellFormed(r, definitions, longer);
      assert Calls(r, definitions, longer) == Calls(r, definitions, shorter) + [ReadEntry(r, definitions, entries[i]).value];
      NoClashesGrows(r, Calls(r, definitions, shorter), ReadEntry(r, definitions, entries[i]).value);
    } else {
      assert longer[i] == entries[i];
    }
  }

  /** A batch with an acceptable prefix that its next entry breaks is not acceptable. */
  lemma BrokenPrefixBreaksBatch(r: Reader, definitions: seq<Definition>, entries: seq<Json>, n: nat)
    requires n <= |entries| && Acceptable(r, definitions, entries)
    ensures Acceptable(r, definitions, entries[..n])
  {
    var prefix := entries[..n];
    assert AllWellFormed(r, definitions, prefix);
    var all, some := Calls(r, definitions, entries), Calls(r, definitions, prefix);
    assert forall i :: 0 <= i < n ==> some[i] == all[i];
  }

  /** A non-empty batch is accepted if and only if every entry is well formed and offered, non-empty ids are pairwise
      distinct, and so are the signatures of calls without one. An accepted batch keeps its length and order; one bad
      member rejects all of it, with the error of the first entry that fails. */
  method ExtractToolCalls(r: Reader, definitions: seq<Definition>, raw: Json) returns (result: Result<seq<ToolCall>, ToolError>)
    ensures !raw.JList? ==> result == Ok([])
    ensures raw.JList? ==> (result.Ok? <==> Acceptable(r, definitions, raw.items))
    ensures raw.JList? && result.Ok? ==> result.value == Calls(r, definitions, raw.items)
    ensures raw.JList? && result.Err? ==> exists i: nat :: i < |raw.items| && FailsAt(r, definitions, raw.items, i, result.error)
  {
    if !raw.JList? || raw.items == [] {
      return Ok([]);
    }
    var entries := raw.items;
    var parsed: seq<ToolCall> := [];
    var seenIds: set<string> := {};
    var seenSignatures: set<(string, string)> := {};
    for i := 0 to |entries|
      invariant Acceptable(r, definitions, entries[..i])
      invariant parsed == Calls(r, definitions, entries[..i])
      invariant SeenMatch(r, parsed, seenIds, seenSignatures)
    {
      AcceptableGrows(r, definitions, entries, i);
      var read := ReadEntry(r, definitions, entries[i]);
      if read.Ok? {
        var call := read.value;
        ClashIsSeen(r, parsed, seenIds, seenSignatures, call);
        if (call.callId != "" && call.callId in seenIds) || (call.callId == "" && Signature(r, call) in seenSignatures) {
          result := Err(Duplicate);
        } else {
          SeenGrows(r, parsed, seenIds, seenSignatures, call);
          if call.callId != "" {
            seenIds := seenIds + {call.callId};
          } else {
            seenSignatures := seenSignatures + {Signature(r, call)};
          }
          parsed := parsed + [call];
          continue;
        }
      } else {
        result := Err(read.error);
      }
      assert FailsAt(r, definitions, entries, i, result.error);
      if Acceptable(r, definitions, entries) {
        BrokenPrefixBreaksBatch(r, definitions, entries, i + 1);
      }
      return;
    }
    assert entries[..|entries|] == entries;
    return Ok(parsed);
  }

  lemma ClashIsSeen(r: Reader, calls: seq<ToolCall>, ids: set<string>, signatures: set<(string, string)>, c: ToolCall)
    requires SeenMatch(r, calls, ids, signatures)
    ensures (exists i :: 0 <= i < |calls| && Clash(r, calls[i], c))
       <==> ((c.callId != "" && c.callId in ids) || (c.callId == "" && Signature(r, c) in signatures))
  {
    if i :| 0 <= i < |calls| && Clash(r, calls[i], c) {
      assert calls[i].callId == c.callId;
    }
    if c.callId != "" && c.callId in ids {
      var i :| 0 <= i < |calls| && calls[i].callId == c.callId;
      assert Clash(r, calls[i], c);
    }
    if c.callId == "" && Signature(r, c) in signatures {
      var i :| 0 <= i < |calls| && calls[i].callId == "" && Signature(r, calls[i]) == Signature(r, c);
      assert Clash(r, calls[i], c);
    }
  }

  // ----- acceptance by what the calls say -----

  /** The encoder gives different values different texts. */
  ghost predicate KeepsApart(r: Reader) {
    forall v, w :: r.dumps(v) == r.dumps(w) ==> v == w
  }

  /** Such an encoder exists. */
  lemma KeepsApartExists()
    ensures exists r: Reader :: KeepsApart(r)
  {
    var r: Reader := Reader(s => JsonText.Read(s), _ => "", v => JsonText.Written(v));
    forall v, w | r.dumps(v) == r.dumps(w) ensures v == w {
      assert JsonText.Written(v) + "" == JsonText.Written(w) + "";
      JsonText.WrittenUnique(v, w, "", "");
    }
    assert KeepsApart(r);
  }

  /** Two calls that say the same: one id, or no ids and the same name with the same arguments. */
  predicate SameCall(a: ToolCall, b: ToolCall) {
    if a.callId == "" && b.callId == "" then a.name == b.name && a.arguments == b.arguments else a.callId == b.callId
  }

  lemma ClashIffSameCall(r: Reader, a: ToolCall, b: ToolCall)
    requires KeepsApart(r)
    ensures Clash(r, a, b) <==> SameCall(a, b)
  {
    if r.dumps(JObject(a.arguments)) == r.dumps(JObject(b.arguments)) {
      assert JObject(a.arguments) == JObject(b.arguments);
    }
  }

  /** A batch is accepted if and only if every entry is well formed and offered and no two calls say the same. So distinct
      calls without ids are never taken for one another, whatever their arguments, and equal ones always are. */
  lemma AcceptedIffCallsDiffer(r: Reader, definitions: seq<Definition>, entries: seq<Json>)
    requires KeepsApart(r)
    ensures Acceptable(r, definitions, entries) <==>
              AllWellFormed(r, definitions, entries)
              && forall i, j :: 0 <= i < j < |entries| ==> !SameCall(Calls(r, definitions, entries)[i], Calls(r, definitions, entries)[j])
  {
    if AllWellFormed(r, definitions, entries) {
      var calls := Calls(r, definitions, entries);
      forall i, j | 0 <= i < j < |calls| ensures Clash(r, calls[i], calls[j]) <==> SameCall(calls[i], calls[j]) {
        ClashIffSameCall(r, calls[i], calls[j]);
      }
    }
  }

  // ----- spelling does not matter -----

  /** The entry without its wrapper, and with its arguments as an object, where it can be read; else the entry. */
  function Plain(r: Reader, definitions: seq<Definition>, entry: Json): Json {
    match ReadEntry(r, definitions, entry)
    case Err(_) => entry
    case Ok(call) =>
      var wrapped := Get(entry.fields, "function");
      var f := if wrapped.JObject? then wrapped.fields else entry.fields;
      JObject(map["name" := Get(f, "name"), "arguments" := JObject(call.arguments), "id" := Get(entry.fields, "id")])
  }

  function PlainBatch(r: Reader, definitions: seq<Definition>, entries: seq<Json>): seq<Json> {
    seq(|entries|, i requires 0 <= i < |entries| => Plain(r, definitions, entries[i]))
  }

  lemma PlainReadsTheSame(r: Reader, definitions: seq<Definition>, entry: Json)
    ensures ReadEntry(r, definitions, Plain(r, definitions, entry)) == ReadEntry(r, definitions, entry)
  {
    if ReadEntry(r, definitions, entry).Ok? {
      var wrapped := Get(entry.fields, "function");
      var f := if wrapped.JObject? then wrapped.fields else entry.fields;
      var plain := Plain(r, definitions, entry).fields;
      assert Get(plain, "function") == JNull;
      assert Get(plain, "name") == Get(f, "name") && Get(plain, "id") == Get(entry.fields, "id");
      assert Get(plain, "arguments") == JObject(ReadEntry(r, definitions, entry).value.arguments);
    }
  }

  /** Rewriting a batch, dropping wrappers and replacing argument text by the object it spells, changes neither whether it
      is accepted nor the calls it gives. */
  lemma PlainBatchReadsTheSame(r: Reader, definitions: seq<Definition>, entries: seq<Json>)
    ensures var plain := PlainBatch(r, definitions, entries);
            && (Acceptable(r, definitions, plain) <==> Acceptable(r, definitions, entries))
            && (AllWellFormed(r, definitions, entries) ==>
                  AllWellFormed(r, definitions, plain) && Calls(r, definitions, plain) == Calls(r, definitions, entries))
  {
    var plain := PlainBatch(r, definitions, entries);
    forall i | 0 <= i < |entries| ensures ReadEntry(r, definitions, plain[i]) == ReadEntry(r, definitions, entries[i]) {
      PlainReadsTheSame(r, definitions, entries[i]);
    }
    assert AllWellFormed(r, definitions, plain) <==> AllWellFormed(r, definitions, entries);
    if AllWellFormed(r, definitions, entries) {
      assert Calls(r, definitions, plain) == Calls(r, definitions, entries);
    }
  }

  // ----- what one entry says -----

  /** Arguments are the object given, the object their text spells, or none for null and blank text; nothing else is accepted. */
  lemma ArgumentsMean(r: Reader, raw: Json, arguments: map<string, Json>)
    ensures ParseArguments(r, raw) == Ok(arguments) <==>
              || (raw == JNull && arguments == map[])
              || raw == JObject(arguments)
              || (raw.JStr? && if Text.IsBlank(raw.s) then arguments == map[] else r.loads(Text.Strip(raw.s)) == Some(JObject(arguments)))
  {
  }

  /** The name stands for the intent of the last definition of that name that has one, and for itself if there is none. */
  lemma {:induction false} IntentMeans(definitions: seq<Definition>, name: string)
    ensures var intent := IntentFor(definitions, name);
            || (intent == name && forall i :: 0 <= i < |definitions| ==> definitions[i].name != name || definitions[i].intent == "")
            || exists i :: 0 <= i < |definitions| && definitions[i] == Definition(intent, name) && intent != ""
                           && forall j :: i < j < |definitions| ==> definitions[j].name != name || definitions[j].intent == ""
  {
    if definitions != [] {
      var init := definitions[..|definitions| - 1];
      IntentMeans(init, name);
      var last := definitions[|definitions| - 1];
      if last.name == name && last.intent != "" {
        assert definitions[|definitions| - 1] == Definition(IntentFor(definitions, name), name);
      } else if i :| 0 <= i < |init| && init[i] == Definition(IntentFor(init, name), name) && IntentFor(init, name) != ""
                     && forall j :: i < j < |init| ==> init[j].name != name || init[j].intent == "" {
        assert definitions[i] == init[i];
      }
    }
  }

  /** The value as trimmed text: nothing for null, false, a zero and what is empty. */
  predicate SaysText(r: Reader, j: Json, t: string) {
    if j in {JNull, JBool(false), JInt(0), JStr(""), JList([]), JObject(map[])} || (j.JFloat? && j.x.Finite? && j.x.mantissa == 0) then t == ""
    else t == Text.Strip(r.str(j))
  }

  lemma TextIsSaid(r: Reader, j: Json, t: string)
    ensures SaysText(r, j, t) <==> t == TextOf(r, j)
  {
  }

  /** An entry is read as a call of its trimmed name with its arguments, under its trimmed id, exactly if it has a name, the name
      is offered or nothing is, and the arguments can be read. */
  lemma EntryMeans(r: Reader, definitions: seq<Definition>, entry: map<string, Json>, body: map<string, Json>, call: ToolCall)
    requires if "function" in entry && entry["function"].JObject? then entry["function"] == JObject(body) else body == entry
    ensures ReadEntry(r, definitions, JObject(entry)) == Ok(call) <==>
              && call.name != "" && SaysText(r, Get(body, "name"), call.name)
              && (definitions == [] || exists d :: d in definitions && call.name in {d.intent, d.name})
              && ParseArguments(r, Get(body, "arguments")) == Ok(call.arguments)
              && SaysText(r, Get(entry, "id"), call.callId) && call.intent == IntentFor(definitions, call.name)
  {
    TextIsSaid(r, Get(body, "name"), call.name);
    TextIsSaid(r, Get(entry, "id"), call.callId);
    if d :| d in definitions && call.name in {d.intent, d.name} {
      var i :| 0 <= i < |definitions| && definitions[i] == d;
    }
  }
}

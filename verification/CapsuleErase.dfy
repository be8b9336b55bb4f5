/** Owner erasure of one chat's derived chain, as a value (core/active_context_capsule.py,
    `erase_capsule_versions_for_forget`). */
module CapsuleErase {
  import opened Wrappers
  import opened CapsuleRecords
  import opened CapsuleChain
  import opened CapsuleTables
  import opened Json
  import Text

  /** The forget law: how a payload is rendered before the test, and whether a text carries a token. */
  datatype ForgetLaw = ForgetLaw(render: Json -> string, carries: (string, string) -> bool)

  datatype EraseFault = NoEraseFault | AtHeads | AtDropTrigger | AtDelete | AtRestoreTrigger | AtRelease

  datatype EraseCall = EraseCall(chat: string, token: string, fault: EraseFault)

  datatype EraseError = PayloadUnreadable | EraseEngineFailed | EraseNotVerified

  predicate Readable(c: Codec, rows: seq<Row>) {
    forall i :: 0 <= i < |rows| ==> c.loads(rows[i].fields.capsuleJson).Some?
  }

  predicate RowCarries(c: Codec, law: ForgetLaw, row: Row, token: string)
    requires c.loads(row.fields.capsuleJson).Some?
  {
    law.carries(law.render(c.loads(row.fields.capsuleJson).value), token)
  }

  predicate Carries(c: Codec, law: ForgetLaw, rows: seq<Row>, token: string)
    requires Readable(c, rows)
  {
    exists i :: 0 <= i < |rows| && RowCarries(c, law, rows[i], token)
  }

  /** A head that would survive still references one of the rows: the foreign key refuses their deletion. */
  predicate Referenced(rows: seq<Row>, heads: map<string, string>) {
    exists i :: 0 <= i < |rows| && rows[i].fields.versionId in heads.Values
  }

  predicate Erases(c: Codec, law: ForgetLaw, t: Tables, e: EraseCall) {
    var rows := ChatRows(t.versions, e.chat);
    && !Text.IsBlank(e.chat) && !Text.IsBlank(e.token)
    && Readable(c, rows) && Carries(c, law, rows, e.token)
    && e.fault == NoEraseFault && !Referenced(rows, t.heads - {e.chat})
  }

  function EraseOutcome(c: Codec, law: ForgetLaw, t: Tables, e: EraseCall): Result<nat, EraseError> {
    var rows := ChatRows(t.versions, e.chat);
    if Text.IsBlank(e.chat) || Text.IsBlank(e.token) then Ok(0)
    else if !Readable(c, rows) then Err(PayloadUnreadable)
    else if !Carries(c, law, rows, e.token) then Ok(0)
    else if Erases(c, law, t, e) then Ok(|rows|)
    else Err(EraseEngineFailed)
  }

  function AfterErase(c: Codec, law: ForgetLaw, t: Tables, e: EraseCall): Tables {
    if Erases(c, law, t, e) then Tables(WithoutChat(t.versions, e.chat), t.heads - {e.chat}) else t
  }

  /** All or nothing: a positive count means the chat's every version and its head are gone, that the count is
      how many there were, and that no other chat changed; any other outcome means nothing changed. */
  lemma EraseIsAllOrNothing(c: Codec, law: ForgetLaw, t: Tables, e: EraseCall, other: string)
    requires other != e.chat
    ensures var r, after := EraseOutcome(c, law, t, e), AfterErase(c, law, t, e);
            if r.Ok? && r.value > 0 then
              && r.value == |ChatRows(t.versions, e.chat)|
              && ChatRows(after.versions, e.chat) == [] && e.chat !in after.heads
              && Validate(c, after, e.chat) == Accepted([])
              && ChatRows(after.versions, other) == ChatRows(t.versions, other)
              && HeadOf(after.heads, other) == HeadOf(t.heads, other)
              && Validate(c, after, other) == Validate(c, t, other)
            else after == t
  {
    ChatRowsAfterDelete(t.versions, e.chat, other);
    ChatRowsAfterDelete(t.versions, e.chat, e.chat);
  }

  // ----- what is forgotten -----

  /** Some stored row of the chat has a payload that carries the token. */
  ghost predicate Remembers(c: Codec, law: ForgetLaw, versions: seq<Row>, chat: string, token: string) {
    exists r :: r in versions && r.fields.chatId == chat && c.loads(r.fields.capsuleJson).Some?
                && law.carries(law.render(c.loads(r.fields.capsuleJson).value), token)
  }

  lemma CarriesByRow(c: Codec, law: ForgetLaw, t: Tables, chat: string, token: string)
    ensures Readable(c, ChatRows(t.versions, chat)) <==> forall r :: r in t.versions && r.fields.chatId == chat ==> c.loads(r.fields.capsuleJson).Some?
    ensures Readable(c, ChatRows(t.versions, chat)) ==>
              (Carries(c, law, ChatRows(t.versions, chat), token) <==> Remembers(c, law, t.versions, chat, token))
  {
    var rows := ChatRows(t.versions, chat);
    ChatRowsMembers(t.versions, chat);
    forall i | 0 <= i < |rows| ensures rows[i] in t.versions && rows[i].fields.chatId == chat {
      assert rows[i] in rows;
    }
    forall r | r in t.versions && r.fields.chatId == chat ensures exists i :: 0 <= i < |rows| && rows[i] == r {
      assert r in rows;
    }
  }

  lemma ReferencedByRow(t: Tables, chat: string)
    ensures Referenced(ChatRows(t.versions, chat), t.heads - {chat}) <==>
              exists r, other :: r in t.versions && r.fields.chatId == chat && other in t.heads && other != chat && t.heads[other] == r.fields.versionId
  {
    var rows, others := ChatRows(t.versions, chat), t.heads - {chat};
    ChatRowsMembers(t.versions, chat);
    if Referenced(rows, others) {
      var i :| 0 <= i < |rows| && rows[i].fields.versionId in others.Values;
      var other :| other in others && others[other] == rows[i].fields.versionId;
      assert rows[i] in rows && t.heads[other] == rows[i].fields.versionId;
    }
    if r, other :| r in t.versions && r.fields.chatId == chat && other in t.heads && other != chat && t.heads[other] == r.fields.versionId {
      var i :| 0 <= i < |rows| && rows[i] == r;
      assert other in others.Keys && others[other] == r.fields.versionId;
      assert others[other] in others.Values;
    }
  }

  /** After an erasure that returns, nothing the chat still stores carries the token. */
  lemma NothingRemembersAfterErase(c: Codec, law: ForgetLaw, t: Tables, e: EraseCall)
    requires !Text.IsBlank(e.chat) && !Text.IsBlank(e.token) && EraseOutcome(c, law, t, e).Ok?
    ensures !Remembers(c, law, AfterErase(c, law, t, e).versions, e.chat, e.token)
  {
    CarriesByRow(c, law, t, e.chat, e.token);
    ChatRowsAfterDelete(t.versions, e.chat, e.chat);
  }

  /** What an erasure comes to, read off the stored rows: it fails exactly when a payload cannot be read, or when something is
      to be forgotten and the engine fails or another chat's head names one of the rows; otherwise it returns, and its count
      is positive exactly when some row carried the token. */
  lemma EraseForgetsIff(c: Codec, law: ForgetLaw, t: Tables, e: EraseCall)
    requires !Text.IsBlank(e.chat) && !Text.IsBlank(e.token)
    ensures var r := EraseOutcome(c, law, t, e);
            var remembered := Remembers(c, law, t.versions, e.chat, e.token);
            var unreadable := exists row :: row in t.versions && row.fields.chatId == e.chat && c.loads(row.fields.capsuleJson) == None;
            var referenced := exists row, other :: row in t.versions && row.fields.chatId == e.chat
                                && other in t.heads && other != e.chat && t.heads[other] == row.fields.versionId;
            && (r.Err? <==> unreadable || (remembered && (e.fault != NoEraseFault || referenced)))
            && (r.Ok? ==> (r.value > 0 <==> remembered))
  {
    CarriesByRow(c, law, t, e.chat, e.token);
    ReferencedByRow(t, e.chat);
  }

  /** After an erasure the next create that succeeds is version 1, with no predecessor and nothing carried over. */
  lemma CreateAfterEraseStartsOver(c: Codec, law: ForgetLaw, t: Tables, e: EraseCall, namespaces: map<string, Namespace>, a: CreateCall)
    requires Erases(c, law, t, e) && a.chat == e.chat
    requires CreateOutcome(c, AfterErase(c, law, t, e), namespaces, a).Ok?
    ensures var capsule := CreateOutcome(c, AfterErase(c, law, t, e), namespaces, a).value;
            capsule.versionNumber == 1 && capsule.previousVersionId == ""
  {
    ChatRowsAfterDelete(t.versions, e.chat, e.chat);
    assert Validate(c, AfterErase(c, law, t, e), e.chat) == Accepted([]);
  }
}

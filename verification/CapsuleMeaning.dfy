/** What a capsule says, in terms of what was said: the sentences of the turns, the requested receipts and the fields of the
    call, read off the turns themselves (core/active_context_capsule.py, `create_shadow_capsule`). */
module CapsuleMeaning {
  import opened Wrappers
  import opened Claims
  import opened Json
  import opened CapsuleRecords
  import opened CapsuleBuild
  import opened CapsuleReceipts
  import opened CapsuleChain
  import opened CapsuleTables
  import CapsuleStore
  import CapsuleRuns
  import Text

  /** A text together with where it comes from. */
  datatype Statement = Statement(text: string, sourceType: string, sourceId: string)

  predicate Says(c: Codec, st: Statement) {
    c.clean(st.text) != "" && Text.Strip(st.sourceId) != ""
  }

  function ClaimFor(c: Codec, st: Statement): CapsuleClaim {
    CapsuleClaim(c.clean(st.text), st.sourceType, Text.Strip(st.sourceId), c.hash(c.clean(st.text)))
  }

  /** The distinct cleaned texts of the statements that say something. */
  function Texts(c: Codec, said: seq<Statement>): set<string> {
    if said == [] then {}
    else if Says(c, said[0]) then {c.clean(said[0].text)} + Texts(c, said[1..])
    else Texts(c, said[1..])
  }

  function ClaimsOf(c: Codec, said: seq<Statement>): seq<CapsuleClaim> {
    if said == [] then []
    else if Says(c, said[0]) then [ClaimFor(c, said[0])] + ClaimsOf(c, said[1..])
    else ClaimsOf(c, said[1..])
  }

  /** Statement `i` says something, is not said again later, and fewer than `k` different things are said after it. */
  ghost predicate Kept(c: Codec, said: seq<Statement>, k: nat, i: nat) {
    && i < |said| && Says(c, said[i])
    && c.clean(said[i].text) !in Texts(c, said[i + 1..])
    && |Texts(c, said[i + 1..])| < k
  }

  /** `claims` are the claims of the kept statements, in the order they were said, read off at the positions `at`. */
  ghost predicate Reads(c: Codec, claims: seq<CapsuleClaim>, said: seq<Statement>, k: nat, at: seq<nat>) {
    && |at| == |claims| && Increasing(at)
    && (forall j :: 0 <= j < |at| ==> Kept(c, said, k, at[j]) && claims[j] == ClaimFor(c, said[at[j]]))
    && (forall i: nat :: Kept(c, said, k, i) ==> i in at)
  }

  ghost predicate IsWindowOf(c: Codec, claims: seq<CapsuleClaim>, said: seq<Statement>, k: nat) {
    exists at :: Reads(c, claims, said, k, at)
  }

  // ----- the window over statements -----

  lemma MentionsCons(a: CapsuleClaim, rest: seq<CapsuleClaim>, h: string)
    ensures Mentions([a] + rest, h) <==> a.contentHash == h || Mentions(rest, h)
  {
    var all := [a] + rest;
    if i :| 0 <= i < |rest| && rest[i].contentHash == h {
      assert all[i + 1].contentHash == h;
    }
    if a.contentHash == h {
      assert all[0].contentHash == h;
    }
  }

  lemma {:induction false} TextsAreMentioned(c: Codec, said: seq<Statement>, text: string)
    requires SoundHash(c)
    ensures Mentions(ClaimsOf(c, said), c.hash(text)) <==> text in Texts(c, said)
  {
    if said != [] {
      TextsAreMentioned(c, said[1..], text);
      if Says(c, said[0]) {
        MentionsCons(ClaimFor(c, said[0]), ClaimsOf(c, said[1..]), c.hash(text));
      }
    }
  }

  lemma {:induction false} AsManyAsTexts(c: Codec, said: seq<Statement>)
    requires SoundHash(c)
    ensures |LastOccurrences(ClaimsOf(c, said))| == |Texts(c, said)|
  {
    if said != [] {
      AsManyAsTexts(c, said[1..]);
      if Says(c, said[0]) {
        var rest := ClaimsOf(c, said[1..]);
        TextsAreMentioned(c, said[1..], c.clean(said[0].text));
        assert ([ClaimFor(c, said[0])] + rest)[1..] == rest;
        if c.clean(said[0].text) in Texts(c, said[1..]) {
          assert Texts(c, said) == Texts(c, said[1..]);
        }
      }
    }
  }

  lemma KeptLater(c: Codec, said: seq<Statement>, k: nat, i: nat)
    requires said != []
    ensures Kept(c, said, k, i + 1) <==> Kept(c, said[1..], k, i)
  {
    if i < |said| - 1 {
      assert said[i + 2..] == said[1..][i + 1..];
    }
  }

  function Shifted(at: seq<nat>): seq<nat> {
    seq(|at|, j requires 0 <= j < |at| => at[j] + 1)
  }

  lemma ShiftedHolds(at: seq<nat>, i: nat)
    ensures i + 1 in Shifted(at) <==> i in at
    ensures 0 !in Shifted(at)
    ensures Increasing(at) ==> Increasing(Shifted(at))
  {
    if i in at {
      var j :| 0 <= j < |at| && at[j] == i;
      assert Shifted(at)[j] == i + 1;
    }
  }

  /** Every kept statement behind the first is found, and every position found is kept. */
  lemma LaterIsShifted(c: Codec, said: seq<Statement>, k: nat, at: seq<nat>, i: nat)
    requires said != [] && forall n: nat :: Kept(c, said[1..], k, n) <==> n in at
    ensures i > 0 ==> (Kept(c, said, k, i) <==> i in Shifted(at))
  {
    if i > 0 {
      KeptLater(c, said, k, i - 1);
      ShiftedHolds(at, i - 1);
    }
  }

  lemma ReadsFinds(c: Codec, claims: seq<CapsuleClaim>, said: seq<Statement>, k: nat, at: seq<nat>, n: nat)
    requires Reads(c, claims, said, k, at)
    ensures Kept(c, said, k, n) <==> n in at
  {
  }

  lemma ReadsLater(c: Codec, claims: seq<CapsuleClaim>, said: seq<Statement>, k: nat, at: seq<nat>)
    requires said != [] && Reads(c, claims, said[1..], k, at) && !Kept(c, said, k, 0)
    ensures Reads(c, claims, said, k, Shifted(at))
  {
    forall n: nat ensures Kept(c, said[1..], k, n) <==> n in at {
      ReadsFinds(c, claims, said[1..], k, at, n);
    }
    ShiftedHolds(at, 0);
    forall i: nat ensures Kept(c, said, k, i) <==> i in Shifted(at) {
      LaterIsShifted(c, said, k, at, i);
    }
    SoReads(c, claims, said, k, Shifted(at));
  }

  lemma SoReads(c: Codec, claims: seq<CapsuleClaim>, said: seq<Statement>, k: nat, at: seq<nat>)
    requires |at| == |claims| && Increasing(at) && forall i: nat :: Kept(c, said, k, i) <==> i in at
    requires forall j :: 0 <= j < |at| ==> at[j] < |said| && claims[j] == ClaimFor(c, said[at[j]])
    ensures Reads(c, claims, said, k, at)
  {
    forall j | 0 <= j < |at| ensures Kept(c, said, k, at[j]) && claims[j] == ClaimFor(c, said[at[j]]) {
      assert at[j] in at;
    }
  }

  lemma ReadsFirst(c: Codec, claims: seq<CapsuleClaim>, said: seq<Statement>, k: nat, at: seq<nat>)
    requires said != [] && Reads(c, claims, said[1..], k, at) && Kept(c, said, k, 0)
    ensures Reads(c, [ClaimFor(c, said[0])] + claims, said, k, [0] + Shifted(at))
  {
    forall n: nat ensures Kept(c, said[1..], k, n) <==> n in at {
      ReadsFinds(c, claims, said[1..], k, at, n);
    }
    ShiftedHolds(at, 0);
    IncreasingPrepend(0, Shifted(at));
    forall i: nat ensures Kept(c, said, k, i) <==> i in [0] + Shifted(at) {
      LaterIsShifted(c, said, k, at, i);
    }
    SoReads(c, [ClaimFor(c, said[0])] + claims, said, k, [0] + Shifted(at));
  }

  /** The claim of a first statement joins the window over the claims of the others if and only if it is kept. */
  lemma WindowGrows(c: Codec, said: seq<Statement>, k: nat)
    requires SoundHash(c) && said != []
    ensures Window(ClaimsOf(c, said), k) ==
            (if Kept(c, said, k, 0) then [ClaimFor(c, said[0])] else []) + Window(ClaimsOf(c, said[1..]), k)
  {
    var rest, claims := said[1..], ClaimsOf(c, said[1..]);
    AsManyAsTexts(c, rest);
    TextsAreMentioned(c, rest, c.clean(said[0].text));
    if Says(c, said[0]) {
      assert ([ClaimFor(c, said[0])] + claims)[1..] == claims;
    }
  }

  /** The window over the claims of statements holds exactly the claims of those that were not said again and have fewer than
      `k` different things said after them, in order. */
  lemma {:induction false} WindowReads(c: Codec, said: seq<Statement>, k: nat) returns (at: seq<nat>)
    requires SoundHash(c)
    ensures Reads(c, Window(ClaimsOf(c, said), k), said, k, at)
  {
    if said == [] {
      at := [];
    } else {
      var window := Window(ClaimsOf(c, said[1..]), k);
      at := WindowReads(c, said[1..], k);
      WindowGrows(c, said, k);
      if Kept(c, said, k, 0) {
        ReadsFirst(c, window, said, k, at);
        at := [0] + Shifted(at);
      } else {
        ReadsLater(c, window, said, k, at);
        assert [] + window == window;
        at := Shifted(at);
      }
    }
  }

  // ----- what the turns say -----

  /** The sentences, as said by the user in the turn of this text. */
  function Spoken(c: Codec, userText: string, sentences: seq<string>): seq<Statement> {
    seq(|sentences|, i requires 0 <= i < |sentences| =>
      Statement(sentences[i], "transcript_user", "turn:" + Text.Take(c.hash(userText), 24)))
  }

  /** Everything said as a decision, turn by turn. */
  function DecisionStatements(c: Codec, turns: seq<Turn>): seq<Statement> {
    if turns == [] then []
    else DecisionStatements(c, turns[..|turns| - 1]) + Spoken(c, turns[|turns| - 1].userText, turns[|turns| - 1].decisionSentences)
  }

  /** Everything said as a constraint, turn by turn. */
  function ConstraintStatements(c: Codec, turns: seq<Turn>): seq<Statement> {
    if turns == [] then []
    else ConstraintStatements(c, turns[..|turns| - 1]) + Spoken(c, turns[|turns| - 1].userText, turns[|turns| - 1].constraintSentences)
  }

  /** Whatever is said in a turn says something, unless cleaning leaves nothing of it. */
  lemma SpokenSays(c: Codec, text: string, userText: string)
    ensures Says(c, Statement(text, "transcript_user", "turn:" + Text.Take(c.hash(userText), 24))) <==> c.clean(text) != ""
  {
    Text.StripKeepsFirst("turn:" + Text.Take(c.hash(userText), 24));
  }

  lemma {:induction false} ClaimsOfAppend(c: Codec, said: seq<Statement>, more: seq<Statement>)
    ensures ClaimsOf(c, said + more) == ClaimsOf(c, said) + ClaimsOf(c, more)
  {
    if said == [] {
      assert said + more == more;
    } else {
      assert (said + more)[0] == said[0] && (said + more)[1..] == said[1..] + more;
      ClaimsOfAppend(c, said[1..], more);
    }
  }

  lemma {:induction false} SentencesAreSpoken(c: Codec, userText: string, sentences: seq<string>)
    ensures SentenceClaims(c, sentences, SourceId(c, userText)) == ClaimsOf(c, Spoken(c, userText, sentences))
  {
    if sentences != [] {
      SentencesAreSpoken(c, userText, sentences[1..]);
      assert Spoken(c, userText, sentences)[1..] == Spoken(c, userText, sentences[1..]);
    }
  }

  lemma {:induction false} DecisionsAreSaid(c: Codec, turns: seq<Turn>)
    ensures CapsuleRuns.AllDecisions(c, turns) == ClaimsOf(c, DecisionStatements(c, turns))
  {
    if turns != [] {
      var init, last := turns[..|turns| - 1], turns[|turns| - 1];
      DecisionsAreSaid(c, init);
      SentencesAreSpoken(c, last.userText, last.decisionSentences);
      ClaimsOfAppend(c, DecisionStatements(c, init), Spoken(c, last.userText, last.decisionSentences));
    }
  }

  lemma {:induction false} ConstraintsAreSaid(c: Codec, turns: seq<Turn>)
    ensures CapsuleRuns.AllConstraints(c, turns) == ClaimsOf(c, ConstraintStatements(c, turns))
  {
    if turns != [] {
      var init, last := turns[..|turns| - 1], turns[|turns| - 1];
      ConstraintsAreSaid(c, init);
      SentencesAreSpoken(c, last.userText, last.constraintSentences);
      ClaimsOfAppend(c, ConstraintStatements(c, init), Spoken(c, last.userText, last.constraintSentences));
    }
  }

  /** The claim a text makes on its own, if it says anything. */
  function Single(c: Codec, st: Statement): Option<CapsuleClaim> {
    if Says(c, st) then Some(ClaimFor(c, st)) else None
  }

  function UserStatement(c: Codec, turn: Turn): Statement {
    Statement(turn.userText, "transcript_user", "turn:" + Text.Take(c.hash(turn.userText), 24))
  }

  /** The capsule carries what the first `n` turns of the chat said, on top of what the chain held before: as decisions the
      window over what was said as decisions, as constraints the window over what was said as constraints, and as its
      objective the text of the last of these turns. */
  ghost predicate Carries(c: Codec, capsule: Capsule, past: CapsuleRuns.Past, n: nat)
    requires 1 <= n <= |past.turns|
  {
    var before, turns := LastCapsule(past.base), past.turns[..n];
    && capsule.objective == Single(c, UserStatement(c, past.turns[n - 1]))
    && capsule.decisions == Window(PreviousDecisions(before) + ClaimsOf(c, DecisionStatements(c, turns)), 12)
    && capsule.constraints == Window(PreviousConstraints(before) + ClaimsOf(c, ConstraintStatements(c, turns)), 12)
    && (past.base == [] ==>
          && IsWindowOf(c, capsule.decisions, DecisionStatements(c, turns), 12)
          && IsWindowOf(c, capsule.constraints, ConstraintStatements(c, turns), 12))
  }

  lemma RecordedCarries(c: Codec, capsule: Capsule, past: CapsuleRuns.Past, n: nat)
    requires SoundHash(c) && 1 <= n <= |past.turns| && CapsuleRuns.RecordedAfter(c, capsule, past.base, past.turns[..n])
    ensures Carries(c, capsule, past, n)
  {
    var turns := past.turns[..n];
    DecisionsAreSaid(c, turns);
    ConstraintsAreSaid(c, turns);
    var decided := WindowReads(c, DecisionStatements(c, turns), 12);
    var constrained := WindowReads(c, ConstraintStatements(c, turns), 12);
    assert [] + ClaimsOf(c, DecisionStatements(c, turns)) == ClaimsOf(c, DecisionStatements(c, turns));
    assert [] + ClaimsOf(c, ConstraintStatements(c, turns)) == ClaimsOf(c, ConstraintStatements(c, turns));
  }

  ghost predicate ChatCarries(c: Codec, verdict: Verdict, past: CapsuleRuns.Past, n: nat) {
    && 1 <= n <= |past.turns| && verdict.Accepted? && |past.base| + n <= |verdict.capsules|
    && Carries(c, verdict.capsules[|past.base| + n - 1], past, n)
  }

  /** In any run, the capsule of every turn says what its chat's turns said. */
  lemma CapsulesSayWhatWasSaid(c: Codec, start: CapsuleRuns.World, steps: seq<CapsuleRuns.Step>, chat: string, n: nat)
    requires Sound(c) && CapsuleRuns.Founded(c, start)
    requires 1 <= n <= |CapsuleRuns.PastOf(CapsuleRuns.Run(c, start, steps), chat).turns|
    ensures var w := CapsuleRuns.Run(c, start, steps);
            ChatCarries(c, Validate(c, w.tables, chat), CapsuleRuns.PastOf(w, chat), n)
  {
    var w := CapsuleRuns.Run(c, start, steps);
    CapsuleRuns.CapsulesEqualBatchRecomputation(c, start, steps, chat, n);
    RecordsCarry(c, Validate(c, w.tables, chat), CapsuleRuns.PastOf(w, chat), n);
  }

  lemma RecordsCarry(c: Codec, verdict: Verdict, past: CapsuleRuns.Past, n: nat)
    requires SoundHash(c) && CapsuleRuns.RecordsIn(c, verdict, past, n)
    ensures ChatCarries(c, verdict, past, n)
  {
    RecordedCarries(c, verdict.capsules[|past.base| + n - 1], past, n);
  }

  // ----- one create -----

  /** The results of the requested actions whose receipts verify for this chat and project. */
  function ActionStatements(c: Codec, ledger: Ledger, chat: string, project: string, requested: seq<string>): seq<Statement> {
    if requested == [] then []
    else
      var rest := ActionStatements(c, ledger, chat, project, requested[1..]);
      if Verifies(c, ledger, requested[0], chat, project) then
        [Statement(RawAt(c, FieldsOf(Get(RecordOf(ledger, requested[0]), "result")), "summary"), "verified_action", requested[0])] + rest
      else rest
  }

  function Told(verified: map<string, string>, requested: seq<string>): seq<Statement> {
    if requested == [] then []
    else if requested[0] in verified then [Statement(verified[requested[0]], "verified_action", requested[0])] + Told(verified, requested[1..])
    else Told(verified, requested[1..])
  }

  lemma {:induction false} ActionsAreTold(c: Codec, verified: map<string, string>, requested: seq<string>)
    ensures ActionClaims(c, requested, verified) == ClaimsOf(c, Told(verified, requested))
  {
    if requested != [] {
      ActionsAreTold(c, verified, requested[1..]);
      var rest := Told(verified, requested[1..]);
      if requested[0] in verified {
        var st := Statement(verified[requested[0]], "verified_action", requested[0]);
        assert ([st] + rest)[0] == st && ([st] + rest)[1..] == rest;
      }
    }
  }

  lemma {:induction false} ToldIsSaid(c: Codec, ledger: Ledger, chat: string, project: string, requested: seq<string>)
    ensures Told(Verified(c, ledger, chat, project), requested) == ActionStatements(c, ledger, chat, project, requested)
  {
    if requested != [] {
      ToldIsSaid(c, ledger, chat, project, requested[1..]);
    }
  }

  /** `ids` are the requested receipts that verify, in the order requested. */
  ghost predicate ReadsReceipts(c: Codec, a: CreateCall, project: string, ids: seq<string>, at: seq<nat>) {
    && |at| == |ids| && Increasing(at)
    && (forall j :: 0 <= j < |at| ==> at[j] < |a.turn.requestedReceipts| && ids[j] == a.turn.requestedReceipts[at[j]])
    && (forall i: nat :: i < |a.turn.requestedReceipts| ==>
          (i in at <==> !Text.IsBlank(a.turn.requestedReceipts[i]) && Verifies(c, a.ledger, a.turn.requestedReceipts[i], a.chat, project)))
  }

  /** `ids` are the wanted ones of `requested`, at the places `at`. */
  ghost predicate PicksOut(requested: seq<string>, wanted: string -> bool, ids: seq<string>, at: seq<nat>) {
    && |at| == |ids| && Increasing(at)
    && (forall j :: 0 <= j < |at| ==> at[j] < |requested| && ids[j] == requested[at[j]])
    && (forall i: nat :: i < |requested| ==> (i in at <==> wanted(requested[i])))
  }

  lemma PicksLater(requested: seq<string>, wanted: string -> bool, ids: seq<string>, at: seq<nat>)
    requires requested != [] && !wanted(requested[0]) && PicksOut(requested[1..], wanted, ids, at)
    ensures PicksOut(requested, wanted, ids, Shifted(at))
  {
    ShiftedHolds(at, 0);
    forall i: nat | i < |requested| ensures i in Shifted(at) <==> wanted(requested[i]) {
      if i > 0 {
        ShiftedHolds(at, i - 1);
        assert requested[1..][i - 1] == requested[i];
      }
    }
  }

  lemma PicksFirst(requested: seq<string>, wanted: string -> bool, ids: seq<string>, at: seq<nat>)
    requires requested != [] && wanted(requested[0]) && PicksOut(requested[1..], wanted, ids, at)
    ensures PicksOut(requested, wanted, [requested[0]] + ids, [0] + Shifted(at))
  {
    var more, picked := [0] + Shifted(at), [requested[0]] + ids;
    ShiftedHolds(at, 0);
    IncreasingPrepend(0, Shifted(at));
    forall j | 0 <= j < |more| ensures more[j] < |requested| && picked[j] == requested[more[j]] {
      if j > 0 {
        assert more[j] == at[j - 1] + 1 && picked[j] == ids[j - 1] && ids[j - 1] == requested[1..][at[j - 1]];
      }
    }
    forall i: nat | i < |requested| ensures i in more <==> wanted(requested[i]) {
      FirstOrShifted(at, i);
      assert i > 0 ==> requested[1..][i - 1] == requested[i];
    }
  }

  lemma FirstOrShifted(at: seq<nat>, i: nat)
    ensures i in [0] + Shifted(at) <==> i == 0 || i - 1 in at
  {
    if i > 0 {
      ShiftedHolds(at, i - 1);
    }
  }

  lemma {:induction false} ReceiptPositions(requested: seq<string>, verified: map<string, string>) returns (at: seq<nat>)
    ensures PicksOut(requested, (id: string) => !Text.IsBlank(id) && id in verified, VerifiedReceipts(requested, verified), at)
  {
    var wanted := (id: string) => !Text.IsBlank(id) && id in verified;
    if requested == [] {
      at := [];
    } else {
      var rest := ReceiptPositions(requested[1..], verified);
      if wanted(requested[0]) {
        PicksFirst(requested, wanted, VerifiedReceipts(requested[1..], verified), rest);
        at := [0] + Shifted(rest);
      } else {
        PicksLater(requested, wanted, VerifiedReceipts(requested[1..], verified), rest);
        at := Shifted(rest);
      }
    }
  }

  /** What the capsule of a create says, field by field, on top of `previous`. */
  ghost predicate SaysWhatWasAsked(c: Codec, a: CreateCall, project: string, previous: Option<Capsule>, capsule: Capsule) {
    && capsule.versionId == "capsule-" + a.nonce && capsule.chatId == a.chat && capsule.projectId == project && capsule.mode == "shadow"
    && capsule.createdAt == a.createdAt
    && (match previous
        case None => capsule.versionNumber == 1 && capsule.previousVersionId == ""
        case Some(p) => capsule.versionNumber == p.versionNumber + 1 && capsule.previousVersionId == p.versionId)
    && capsule.transcriptHead
         == c.hash((if previous.Some? then previous.value.transcriptHead else "") + "\0" + ("turn:" + Text.Take(c.hash(a.turn.userText), 24)))
    && SaysBody(c, a, project, previous, capsule)
  }

  ghost predicate SaysBody(c: Codec, a: CreateCall, project: string, previous: Option<Capsule>, capsule: Capsule) {
    && capsule.objective == Single(c, UserStatement(c, a.turn))
    && capsule.unresolvedWork == (if capsule.objective.Some? then [capsule.objective.value] else [])
    && capsule.systemState == []
    && capsule.decisions == Window((if previous.Some? then previous.value.decisions else [])
                                   + ClaimsOf(c, Spoken(c, a.turn.userText, a.turn.decisionSentences)), 12)
    && capsule.constraints == Window((if previous.Some? then previous.value.constraints else [])
                                     + ClaimsOf(c, Spoken(c, a.turn.userText, a.turn.constraintSentences)), 12)
    && IsWindowOf(c, capsule.verifiedActions, ActionStatements(c, a.ledger, a.chat, project, a.turn.requestedActions), 12)
    && exists at :: ReadsReceipts(c, a, project, capsule.receiptReferences, at)
  }

  lemma PendingSaysActions(c: Codec, a: CreateCall, project: string)
    requires SoundHash(c)
    ensures IsWindowOf(c, Window(ActionClaims(c, a.turn.requestedActions, Verified(c, a.ledger, a.chat, project)), WINDOW),
                       ActionStatements(c, a.ledger, a.chat, project, a.turn.requestedActions), 12)
  {
    ActionsAreTold(c, Verified(c, a.ledger, a.chat, project), a.turn.requestedActions);
    ToldIsSaid(c, a.ledger, a.chat, project, a.turn.requestedActions);
    var actions := WindowReads(c, ActionStatements(c, a.ledger, a.chat, project, a.turn.requestedActions), 12);
  }

  lemma PendingSaysReceipts(c: Codec, a: CreateCall, project: string)
    ensures exists at :: ReadsReceipts(c, a, project, VerifiedReceipts(a.turn.requestedReceipts, Verified(c, a.ledger, a.chat, project)), at)
  {
    var at := ReceiptPositions(a.turn.requestedReceipts, Verified(c, a.ledger, a.chat, project));
    assert ReadsReceipts(c, a, project, VerifiedReceipts(a.turn.requestedReceipts, Verified(c, a.ledger, a.chat, project)), at);
  }

  lemma PendingSaysBody(c: Codec, a: CreateCall, project: string, previous: Option<Capsule>)
    requires SoundHash(c)
    ensures SaysBody(c, a, project, previous, PendingCapsule(c, a, project, previous))
  {
    SentencesAreSpoken(c, a.turn.userText, a.turn.decisionSentences);
    SentencesAreSpoken(c, a.turn.userText, a.turn.constraintSentences);
    PendingSaysActions(c, a, project);
    PendingSaysReceipts(c, a, project);
  }

  /** A create that returns gives a capsule that says what it was asked to record, on top of the chat's last capsule. */
  lemma CreatedCapsuleSaysWhatWasAsked(c: Codec, t: Tables, namespaces: map<string, Namespace>, a: CreateCall)
    requires SoundHash(c) && CreateOutcome(c, t, namespaces, a).Ok?
    ensures a.chat in namespaces && Validate(c, t, a.chat).Accepted?
    ensures SaysWhatWasAsked(c, a, namespaces[a.chat].projectId, LastCapsule(Validate(c, t, a.chat).capsules),
                             CreateOutcome(c, t, namespaces, a).value)
  {
    var project, capsules := CreateFacts(c, t, namespaces, a);
    PendingSaysBody(c, a, project, LastCapsule(capsules));
    PendingSaysNames(c, a, project, LastCapsule(capsules));
  }

  lemma PendingSaysNames(c: Codec, a: CreateCall, project: string, previous: Option<Capsule>)
    requires SaysBody(c, a, project, previous, PendingCapsule(c, a, project, previous))
    ensures SaysWhatWasAsked(c, a, project, previous, PendingCapsule(c, a, project, previous))
  {
  }

  /** When a create succeeds: an active chat, before its transaction and inside it, of the project named, if one is; no stored
      row without a hash; a chain that validates and holds no version number as text; readable receipts; a fresh version
      id; and an engine that does not fail. */
  lemma CreateSucceedsIff(c: Codec, t: Tables, namespaces: map<string, Namespace>, a: CreateCall, capsules: seq<Capsule>)
    ensures CreateOutcome(c, t, namespaces, a).Ok? && Validate(c, t, a.chat) == Accepted(capsules) <==>
              && a.observed.Some? && a.observed.value.lifecycleState == "active"
              && (Text.Strip(a.project) == "" || Text.Strip(a.project) == a.observed.value.projectId)
              && a.chat in namespaces && namespaces[a.chat].lifecycleState == "active"
              && (forall r :: r in t.versions ==> r.recordHash != "" && r.fields.versionId != "capsule-" + a.nonce)
              && (forall r :: r in t.versions && r.fields.chatId == a.chat ==> !r.fields.versionNumber.Words? && !r.fields.versionNumber.Bytes?)
              && IsChain(c, a.chat, ChatRows(t.versions, a.chat), capsules) && HeadOf(t.heads, a.chat) == LastVersion(capsules)
              && (forall id :: id in a.turn.requestedReceipts ==> !ReceiptRaises(c, a.ledger, id, a.chat))
              && a.fault == NoFault
  {
    AcceptedIffChain(c, a.chat, ChatRows(t.versions, a.chat), HeadOf(t.heads, a.chat), capsules);
    RowsByPlace(t.versions, a.chat, "capsule-" + a.nonce);
    ReceiptsByPlace(c, a);
    OkIff(c, t, namespaces, a, capsules);
  }

  lemma OkIff(c: Codec, t: Tables, namespaces: map<string, Namespace>, a: CreateCall, capsules: seq<Capsule>)
    ensures CreateOutcome(c, t, namespaces, a).Ok? && Validate(c, t, a.chat) == Accepted(capsules) <==>
              && a.observed.Some? && a.observed.value.lifecycleState == "active"
              && (Text.Strip(a.project) == "" || Text.Strip(a.project) == a.observed.value.projectId)
              && a.chat in namespaces && namespaces[a.chat].lifecycleState == "active"
              && !HashMissing(t.versions) && !UsesVersionId(t.versions, VersionId(a)) && !HoldsText(t.versions, a.chat)
              && Validate(c, t, a.chat) == Accepted(capsules) && !SomeReceiptRaises(c, a) && a.fault == NoFault
  {
  }

  lemma RowsByPlace(versions: seq<Row>, chat: string, id: string)
    ensures !HashMissing(versions) && !UsesVersionId(versions, id) <==> forall r :: r in versions ==> r.recordHash != "" && r.fields.versionId != id
    ensures !HoldsText(versions, chat) <==>
              forall r :: r in versions && r.fields.chatId == chat ==> !r.fields.versionNumber.Words? && !r.fields.versionNumber.Bytes?
  {
    forall i | 0 <= i < |versions| ensures versions[i] in versions {}
  }

  lemma ReceiptsByPlace(c: Codec, a: CreateCall)
    ensures !SomeReceiptRaises(c, a) <==> forall id :: id in a.turn.requestedReceipts ==> !ReceiptRaises(c, a.ledger, id, a.chat)
  {
    forall i | 0 <= i < |a.turn.requestedReceipts| ensures a.turn.requestedReceipts[i] in a.turn.requestedReceipts {}
  }

  // ----- loading -----

  /** After any run, loading a chat gives its newest capsule: the one before the run if nothing was recorded since, and
      otherwise the one that says what its turns said. */
  lemma LoadGivesNewestCapsule(c: Codec, start: CapsuleRuns.World, steps: seq<CapsuleRuns.Step>, chat: string)
    requires Sound(c) && CapsuleRuns.Founded(c, start) && Text.Strip(chat) == chat != ""
    ensures var w := CapsuleRuns.Run(c, start, steps);
            NewestLoaded(c, CapsuleStore.LatestOf(c, w.tables, chat), CapsuleRuns.PastOf(w, chat))
  {
    var w := CapsuleRuns.Run(c, start, steps);
    CapsuleRuns.RunHolds(c, start, steps);
    NoHashMissing(c, w);
    var capsules := CapsuleRuns.RunChat(c, start, steps, chat);
    var past := CapsuleRuns.PastOf(w, chat);
    if past.turns != [] {
      CapsulesSayWhatWasSaid(c, start, steps, chat, |past.turns|);
    }
    LoadsLast(c, w.tables, chat, capsules);
    NewestOf(c, capsules, past);
  }

  ghost predicate NewestLoaded(c: Codec, loaded: Result<Option<Capsule>, CreateError>, past: CapsuleRuns.Past) {
    && loaded.Ok?
    && if past.turns == [] then loaded.value == LastCapsule(past.base)
       else loaded.value.Some? && Carries(c, loaded.value.value, past, |past.turns|)
  }

  lemma NewestOf(c: Codec, capsules: seq<Capsule>, past: CapsuleRuns.Past)
    requires |capsules| == |past.base| + |past.turns| && past.base <= capsules
    requires past.turns != [] ==> ChatCarries(c, Accepted(capsules), past, |past.turns|)
    ensures NewestLoaded(c, Ok(LastCapsule(capsules)), past)
  {
  }

  lemma LoadsLast(c: Codec, t: Tables, chat: string, capsules: seq<Capsule>)
    requires Validate(c, t, chat) == Accepted(capsules) && !HashMissing(t.versions) && Text.Strip(chat) == chat != ""
    ensures CapsuleStore.LatestOf(c, t, chat) == Ok(LastCapsule(capsules))
  {
  }

  lemma NoHashMissing(c: Codec, w: CapsuleRuns.World)
    requires CapsuleRuns.WorldHolds(c, w)
    ensures !HashMissing(w.tables.versions)
  {
    forall i | 0 <= i < |w.tables.versions| ensures w.tables.versions[i].recordHash != "" {
      var r := w.tables.versions[i];
      assert CapsuleRuns.ChatHolds(c, w, r.fields.chatId);
      AcceptedRowDecodes(c, w.tables, r.fields.chatId, r);
      DecodedNames(c, r);
    }
  }
}

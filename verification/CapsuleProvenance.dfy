/** Where the contents of a capsule come from: only the user's own turns and receipts that verify
    (core/active_context_capsule.py, `create_shadow_capsule`). */
module CapsuleProvenance {
  import opened Wrappers
  import opened Claims
  import opened CapsuleRecords
  import opened CapsuleBuild
  import opened CapsuleReceipts
  import opened CapsuleChain
  import opened CapsuleTables
  import opened CapsuleRuns
  import Text

  lemma WindowMember(claims: seq<CapsuleClaim>, k: nat, claim: CapsuleClaim)
    requires claim in Window(claims, k)
    ensures claim in claims
  {
    var at := WindowIsMostRecentDistinct(claims, k);
    var j :| 0 <= j < |at| && Window(claims, k)[j] == claim;
    assert claims[at[j]] == claim;
  }

  lemma {:induction false} VerifiedReceiptsIff(requested: seq<string>, ledger: map<string, string>, id: string)
    ensures id in VerifiedReceipts(requested, ledger) <==> id in requested && id in ledger && !Text.IsBlank(id)
  {
    if requested != [] {
      VerifiedReceiptsIff(requested[1..], ledger, id);
      assert requested == [requested[0]] + requested[1..];
    }
  }

  /** The claim was made of the verified result of a requested receipt. */
  ghost predicate FromReceipt(c: Codec, claim: CapsuleClaim, requested: seq<string>, ledger: map<string, string>) {
    exists id :: id in requested && id in ledger && MakeClaim(c, ledger[id], "verified_action", id) == Some(claim)
  }

  lemma {:induction false} ActionClaimsFromReceipts(c: Codec, requested: seq<string>, ledger: map<string, string>, claim: CapsuleClaim)
    requires claim in ActionClaims(c, requested, ledger)
    ensures FromReceipt(c, claim, requested, ledger)
  {
    assert requested == [requested[0]] + requested[1..];
    if claim in ActionClaims(c, requested[1..], ledger) {
      ActionClaimsFromReceipts(c, requested[1..], ledger, claim);
      var id :| id in requested[1..] && id in ledger && MakeClaim(c, ledger[id], "verified_action", id) == Some(claim);
      assert id in requested;
    } else {
      assert requested[0] in requested;
    }
  }

  /** A new capsule references exactly the requested receipts that verify for its chat and project, claims as verified
      actions only their recorded results, and holds as open work only its objective. What a caller says about an action
      does not enter: its receipt either verifies, and then the receipt's own result is used, or it contributes nothing. */
  lemma CreatedCapsuleIsSourced(c: Codec, a: CreateCall, project: string, previous: Option<Capsule>, id: string, claim: CapsuleClaim)
    ensures var capsule := PendingCapsule(c, a, project, previous);
            && (id in capsule.receiptReferences <==> id in a.turn.requestedReceipts && !Text.IsBlank(id) && Verifies(c, a.ledger, id, a.chat, project))
            && (claim in capsule.verifiedActions ==> FromReceipt(c, claim, a.turn.requestedActions, Verified(c, a.ledger, a.chat, project)))
            && (claim in capsule.unresolvedWork <==> capsule.objective == Some(claim))
            && capsule.systemState == []
  {
    var capsule, verified := PendingCapsule(c, a, project, previous), Verified(c, a.ledger, a.chat, project);
    VerifiedReceiptsIff(a.turn.requestedReceipts, verified, id);
    if claim in capsule.verifiedActions {
      WindowMember(ActionClaims(c, a.turn.requestedActions, verified), WINDOW, claim);
      ActionClaimsFromReceipts(c, a.turn.requestedActions, verified, claim);
    }
  }

  /** Two creates over one ledger, for different chats or projects, never reference the same receipt. */
  lemma ReceiptsAreNotShared(c: Codec, a: CreateCall, project: string, previous: Option<Capsule>,
                             b: CreateCall, elsewhere: string, other: Option<Capsule>, id: string, claim: CapsuleClaim)
    requires a.ledger == b.ledger && (a.chat != b.chat || project != elsewhere)
    requires id in PendingCapsule(c, a, project, previous).receiptReferences
    ensures id !in PendingCapsule(c, b, elsewhere, other).receiptReferences
  {
    CreatedCapsuleIsSourced(c, a, project, previous, id, claim);
    CreatedCapsuleIsSourced(c, b, elsewhere, other, id, claim);
    VerifiedReceiptIsBound(c, a.ledger, id, a.chat, project, b.chat, elsewhere);
  }

  lemma {:induction false} StatedInSomeTurn(c: Codec, turns: seq<Turn>, claim: CapsuleClaim)
    ensures claim in AllDecisions(c, turns) ==> exists i :: 0 <= i < |turns| && claim in DecisionClaims(c, turns[i])
    ensures claim in AllConstraints(c, turns) ==> exists i :: 0 <= i < |turns| && claim in ConstraintClaims(c, turns[i])
  {
    if turns != [] {
      var init := turns[..|turns| - 1];
      StatedInSomeTurn(c, init, claim);
      if claim in AllDecisions(c, init) {
        var i :| 0 <= i < |init| && claim in DecisionClaims(c, init[i]);
        assert turns[i] == init[i];
      }
      if claim in AllConstraints(c, init) {
        var i :| 0 <= i < |init| && claim in ConstraintClaims(c, init[i]);
        assert turns[i] == init[i];
      }
    }
  }

  lemma CarriedFrom(c: Codec, base: seq<CapsuleClaim>, stated: seq<CapsuleClaim>, claim: CapsuleClaim)
    requires claim in Window(base + stated, WINDOW)
    ensures claim in base || claim in stated
  {
    WindowMember(base + stated, WINDOW, claim);
  }

  /** The claim is what the user said in one of these sentences of a turn. */
  ghost predicate StatedBy(c: Codec, claim: CapsuleClaim, userText: string, sentences: seq<string>) {
    exists j :: 0 <= j < |sentences| && c.clean(sentences[j]) != "" &&
      claim == CapsuleClaim(c.clean(sentences[j]), "transcript_user", Text.Strip("turn:" + Text.Take(c.hash(userText), 24)), c.hash(c.clean(sentences[j])))
  }

  lemma {:induction false} SentenceClaimIsStated(c: Codec, claim: CapsuleClaim, userText: string, sentences: seq<string>)
    requires claim in SentenceClaims(c, sentences, SourceId(c, userText))
    ensures StatedBy(c, claim, userText, sentences)
  {
    if claim in SentenceClaims(c, sentences[1..], SourceId(c, userText)) {
      SentenceClaimIsStated(c, claim, userText, sentences[1..]);
      var j :| 0 <= j < |sentences[1..]| && c.clean(sentences[1..][j]) != "" &&
        claim == CapsuleClaim(c.clean(sentences[1..][j]), "transcript_user", Text.Strip("turn:" + Text.Take(c.hash(userText), 24)),
                              c.hash(c.clean(sentences[1..][j])));
      assert sentences[j + 1] == sentences[1..][j];
    } else {
      assert c.clean(sentences[0]) != "";
    }
  }

  /** The claim, if the capsule of turn `n` carries it, was stated in a sentence of one of the first `n` turns, or held before
      them. */
  ghost predicate WasStated(c: Codec, capsule: Capsule, past: Past, n: nat, claim: CapsuleClaim)
    requires n <= |past.turns|
  {
    && (claim in capsule.decisions ==>
          || claim in PreviousDecisions(LastCapsule(past.base))
          || exists i :: 0 <= i < n && StatedBy(c, claim, past.turns[i].userText, past.turns[i].decisionSentences))
    && (claim in capsule.constraints ==>
          || claim in PreviousConstraints(LastCapsule(past.base))
          || exists i :: 0 <= i < n && StatedBy(c, claim, past.turns[i].userText, past.turns[i].constraintSentences))
  }

  lemma RecordedDecisionWasStated(c: Codec, before: Option<Capsule>, turns: seq<Turn>, claim: CapsuleClaim)
    requires claim in Window(PreviousDecisions(before) + AllDecisions(c, turns), WINDOW) && claim !in PreviousDecisions(before)
    ensures exists i :: 0 <= i < |turns| && StatedBy(c, claim, turns[i].userText, turns[i].decisionSentences)
  {
    CarriedFrom(c, PreviousDecisions(before), AllDecisions(c, turns), claim);
    StatedInSomeTurn(c, turns, claim);
    var i :| 0 <= i < |turns| && claim in DecisionClaims(c, turns[i]);
    SentenceClaimIsStated(c, claim, turns[i].userText, turns[i].decisionSentences);
  }

  lemma RecordedConstraintWasStated(c: Codec, before: Option<Capsule>, turns: seq<Turn>, claim: CapsuleClaim)
    requires claim in Window(PreviousConstraints(before) + AllConstraints(c, turns), WINDOW) && claim !in PreviousConstraints(before)
    ensures exists i :: 0 <= i < |turns| && StatedBy(c, claim, turns[i].userText, turns[i].constraintSentences)
  {
    CarriedFrom(c, PreviousConstraints(before), AllConstraints(c, turns), claim);
    StatedInSomeTurn(c, turns, claim);
    var i :| 0 <= i < |turns| && claim in ConstraintClaims(c, turns[i]);
    SentenceClaimIsStated(c, claim, turns[i].userText, turns[i].constraintSentences);
  }

  lemma RecordedClaimsWereStated(c: Codec, capsule: Capsule, past: Past, n: nat, claim: CapsuleClaim)
    requires 1 <= n <= |past.turns| && RecordedAfter(c, capsule, past.base, past.turns[..n])
    ensures WasStated(c, capsule, past, n, claim)
  {
    var before, turns := LastCapsule(past.base), past.turns[..n];
    if claim in capsule.decisions && claim !in PreviousDecisions(before) {
      RecordedDecisionWasStated(c, before, turns, claim);
      var i :| 0 <= i < |turns| && StatedBy(c, claim, turns[i].userText, turns[i].decisionSentences);
      assert past.turns[i] == turns[i];
    }
    if claim in capsule.constraints && claim !in PreviousConstraints(before) {
      RecordedConstraintWasStated(c, before, turns, claim);
      var i :| 0 <= i < |turns| && StatedBy(c, claim, turns[i].userText, turns[i].constraintSentences);
      assert past.turns[i] == turns[i];
    }
  }

  /** Every claim the capsule of turn `n` carries was stated in the chat's own turns up to it, or held before them. */
  ghost predicate OnlyStatedIn(c: Codec, verdict: Verdict, past: Past, n: nat) {
    && RecordsIn(c, verdict, past, n)
    && var capsule := verdict.capsules[|past.base| + n - 1];
       forall claim :: WasStated(c, capsule, past, n, claim)
  }

  ghost predicate CarriesOnlyStated(c: Codec, w: World, chat: string, n: nat) {
    OnlyStatedIn(c, Validate(c, w.tables, chat), PastOf(w, chat), n)
  }

  lemma RecordedCarriesOnlyStated(c: Codec, verdict: Verdict, past: Past, n: nat)
    requires RecordsIn(c, verdict, past, n)
    ensures OnlyStatedIn(c, verdict, past, n)
  {
    var capsule := verdict.capsules[|past.base| + n - 1];
    forall claim ensures WasStated(c, capsule, past, n, claim) {
      RecordedClaimsWereStated(c, capsule, past, n, claim);
    }
  }

  /** In any run, every decision (constraint) a capsule holds was stated in one of its chat's turns up to that version,
      or already held by the chat before the run; what was erased counts as neither, and no other chat's claims enter. */
  lemma CarriedClaimsWereStated(c: Codec, start: World, steps: seq<Step>, chat: string, n: nat)
    requires Sound(c) && Founded(c, start) && 1 <= n <= |PastOf(Run(c, start, steps), chat).turns|
    ensures CarriesOnlyStated(c, Run(c, start, steps), chat, n)
  {
    CapsulesEqualBatchRecomputation(c, start, steps, chat, n);
    var w := Run(c, start, steps);
    RecordedCarriesOnlyStated(c, Validate(c, w.tables, chat), PastOf(w, chat), n);
  }
}

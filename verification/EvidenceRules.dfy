/** The inspection of tool events (server/callback-incident-evidence.ts), said of the events themselves. */
module EvidenceRules {
  import opened Options
  import opened IncidentEvidence

  /** A result and a block that may stand for a receipt: inside the window, with the receipt's digest and
      error flag, of one tool, the block not used before. */
  ghost predicate Fits(receipt: Receipt, e: Events, used: set<int>, scope: Scope, c: Credit) {
    && c.block < |e.blocks| && c.result < |e.results|
    && var (block, result) := (e.blocks[c.block], e.results[c.result]);
       && scope.inputSeq < result.seqNo <= scope.terminalSeq + 1
       && result.resultHash.Some? && result.resultHash.value == receipt.resultHash
       && result.isError.Some? && result.isError.value == receipt.isError
       && block.seqNo > scope.inputSeq && block.seqNo !in used
       && block.toolId.Scalar? && result.toolId.Scalar? && block.toolId.text == result.toolId.text
  }

  ghost predicate OnlyFit(receipt: Receipt, e: Events, used: set<int>, scope: Scope, c: Credit) {
    Fits(receipt, e, used, scope, c) && forall d :: Fits(receipt, e, used, scope, d) ==> d == c
  }

  /** The block begins before the terminal event and its result follows it; the reviewed call alone ends right
      after the terminal event, every other before it. */
  ghost predicate InSequence(receipt: Receipt, block: Block, result: Outcome, scope: Scope) {
    && block.seqNo < scope.terminalSeq && block.seqNo < result.seqNo
    && (receipt.callId == scope.callId ==> result.seqNo == scope.terminalSeq + 1)
    && (receipt.callId != scope.callId ==> result.seqNo < scope.terminalSeq)
  }

  /** The reviewed call asked for read access with the reviewed input. */
  ghost predicate AsksForRead(block: Block, scope: Scope) {
    && block.toolName == Some("RequestWebAccess")
    && block.input.Some? && block.input.value.hash == scope.requestHash
    && block.input.value.operation == Some("request_access")
  }

  lemma {:induction false} FitsAreMatches(receipt: Receipt, e: Events, used: set<int>, scope: Scope, c: Credit)
    ensures Fits(receipt, e, used, scope, c) <==> c in Matches(receipt, e, used, scope)
  {}

  lemma {:induction false} OneMatch(receipt: Receipt, e: Events, used: set<int>, scope: Scope, c: Credit)
    ensures OnlyFit(receipt, e, used, scope, c) <==> Matches(receipt, e, used, scope) == {c}
  {
    forall d ensures Fits(receipt, e, used, scope, d) <==> d in Matches(receipt, e, used, scope) {
      FitsAreMatches(receipt, e, used, scope, d);
    }
    hide Fits;
    hide Matches;
  }

  /** A receipt is credited with its only fit, refused when it has none or several, and refused when the fit
      is out of sequence or the reviewed call asked for something else. */
  lemma {:induction false} CreditExactly(receipt: Receipt, e: Events, used: set<int>, scope: Scope, c: Credit)
    requires Fits(receipt, e, used, scope, c)
    ensures var (block, result) := (e.blocks[c.block], e.results[c.result]);
            var reviewed := receipt.callId == scope.callId;
            Credited(receipt, e, used, scope)
            == if !OnlyFit(receipt, e, used, scope, c) then Err(NotUnique)
               else if !InSequence(receipt, block, result, scope) then Err(OrderChanged)
               else if reviewed && !AsksForRead(block, scope) then Err(NotReadAccess)
               else Ok(c)
  {
    OneMatch(receipt, e, used, scope, c);
    FitsAreMatches(receipt, e, used, scope, c);
    var matches := Matches(receipt, e, used, scope);
    hide Fits;
    hide OnlyFit;
    hide Matches;
    if |matches| == 1 {
      assert c in matches && The(matches) in matches;
      OnlyOne(matches, c, The(matches));
    }
  }

  lemma {:induction false} WithoutAFit(receipt: Receipt, e: Events, used: set<int>, scope: Scope)
    requires forall c :: !Fits(receipt, e, used, scope, c)
    ensures Credited(receipt, e, used, scope) == Err(NotUnique)
  {
    var matches := Matches(receipt, e, used, scope);
    if c :| c in matches {
      FitsAreMatches(receipt, e, used, scope, c);
    }
    hide Matches;
  }

  /** The numbers of the blocks of these credits. */
  ghost predicate AreUsed(used: set<int>, e: Events, cs: seq<Credit>) {
    forall n :: n in used <==> exists i :: 0 <= i < |cs| && cs[i].block < |e.blocks| && e.blocks[cs[i].block].seqNo == n
  }

  /** One receipt of an inspection: its only fit when these blocks are used, in sequence. */
  ghost predicate IsCredited(receipt: Receipt, e: Events, used: set<int>, scope: Scope, c: Credit) {
    && OnlyFit(receipt, e, used, scope, c)
    && InSequence(receipt, e.blocks[c.block], e.results[c.result], scope)
    && (receipt.callId == scope.callId ==> AsksForRead(e.blocks[c.block], scope))
  }

  /** The same, given what was credited before it. */
  ghost predicate CreditedAfter(receipt: Receipt, e: Events, before: seq<Credit>, scope: Scope, c: Credit) {
    exists used :: AreUsed(used, e, before) && IsCredited(receipt, e, used, scope, c)
  }

  lemma {:induction false} UsedAreUsed(e: Events, cs: seq<Credit>, used: set<int>)
    ensures AreUsed(used, e, cs) <==> used == Used(cs, e)
  {
    assert AreUsed(Used(cs, e), e, cs);
    if AreUsed(used, e, cs) {
      assert forall n :: n in used <==> n in Used(cs, e);
    }
  }

  lemma {:induction false} IsCreditedExactly(receipt: Receipt, e: Events, used: set<int>, scope: Scope, c: Credit)
    ensures Credited(receipt, e, used, scope) == Ok(c) <==> IsCredited(receipt, e, used, scope, c)
  {
    if Fits(receipt, e, used, scope, c) {
      CreditExactly(receipt, e, used, scope, c);
    } else if Credited(receipt, e, used, scope) == Ok(c) {
      CreditedHolds(receipt, e, used, scope, c);
      FitsAreMatches(receipt, e, used, scope, c);
      assert false;
    }
    hide Credited;
    hide InSequence;
    hide AsksForRead;
  }

  lemma {:induction false} CreditedAfterExactly(receipt: Receipt, e: Events, before: seq<Credit>, scope: Scope, c: Credit)
    ensures Credited(receipt, e, Used(before, e), scope) == Ok(c) <==> CreditedAfter(receipt, e, before, scope, c)
  {
    hide Credited;
    hide IsCredited;
    hide Used;
    hide AreUsed;
    UsedAreUsed(e, before, Used(before, e));
    IsCreditedExactly(receipt, e, Used(before, e), scope, c);
    if used :| AreUsed(used, e, before) && IsCredited(receipt, e, used, scope, c) {
      UsedAreUsed(e, before, used);
    }
  }

  /** The inspection succeeds exactly if there is a receipt, there are fewer than 1024 blocks and results, and
      each receipt in turn has one fit among the unused blocks, in sequence; it credits these. */
  lemma {:induction false} InspectionExactly(receipts: seq<Receipt>, e: Events, scope: Scope, cs: seq<Credit>)
    ensures Inspect(receipts, e, scope) == Ok(cs) <==>
              && receipts != [] && |e.blocks| < 1024 && |e.results| < 1024 && |cs| == |receipts|
              && forall i :: 0 <= i < |receipts| ==> CreditedAfter(receipts[i], e, cs[..i], scope, cs[i])
  {
    CreditsExactly(receipts, e, scope, cs);
    hide Credits;
    hide CreditedAfter;
  }

  lemma {:induction false} CreditsExactly(receipts: seq<Receipt>, e: Events, scope: Scope, cs: seq<Credit>)
    ensures Credits(receipts, e, scope) == Ok(cs) <==>
              && |cs| == |receipts|
              && forall i :: 0 <= i < |receipts| ==> CreditedAfter(receipts[i], e, cs[..i], scope, cs[i])
    decreases |receipts|
  {
    hide CreditedAfter;
    hide Credited;
    if Credits(receipts, e, scope) == Ok(cs) {
      CreditsLength(receipts, e, scope);
      forall i | 0 <= i < |receipts| ensures CreditedAfter(receipts[i], e, cs[..i], scope, cs[i]) {
        EachWasCredited(receipts, e, scope, i);
        CreditedAfterExactly(receipts[i], e, cs[..i], scope, cs[i]);
      }
    }
    if |cs| == |receipts| && receipts != []
      && forall i :: 0 <= i < |receipts| ==> CreditedAfter(receipts[i], e, cs[..i], scope, cs[i])
    {
      var n := |receipts| - 1;
      forall i | 0 <= i < n ensures CreditedAfter(receipts[..n][i], e, cs[..n][..i], scope, cs[..n][i]) {
        assert cs[..n][..i] == cs[..i];
      }
      CreditsExactly(receipts[..n], e, scope, cs[..n]);
      CreditedAfterExactly(receipts[n], e, cs[..n], scope, cs[n]);
      assert cs == cs[..n] + [cs[n]];
    }
  }
}

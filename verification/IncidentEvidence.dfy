/** The evidence checks of one reviewed incident (server/callback-incident-evidence.ts): tool receipts
    matched to the tool events of a session, and the automaton over the native rollout.  The digest is
    injective, so a text is represented by its digest. */
module IncidentEvidence {
  import opened Options
  import opened Permutations

  type Hash = string

  datatype Receipt = Receipt(callId: string, resultHash: Hash, isError: int)

  /** The input of a tool call: its digest and, when it is readable, its operation. */
  datatype Input = Input(hash: Hash, operation: Option<string>)

  /** A tool identifier: its JSON text, empty when it is absent; or an object or a list, which is never
      identical to another. */
  datatype ToolId = Scalar(text: string) | Structured

  predicate Same(a: ToolId, b: ToolId) {
    a.Scalar? && a == b
  }

  /** Any other field of the wrong kind, or a missing one, is `None`. */
  datatype Block = Block(seqNo: int, toolId: ToolId, toolName: Option<string>, input: Option<Input>)
  datatype Outcome = Outcome(seqNo: int, toolId: ToolId, resultHash: Option<Hash>, isError: Option<int>)

  datatype Scope = Scope(inputSeq: int, terminalSeq: int, callId: string, requestHash: Hash)

  datatype Events = Events(blocks: seq<Block>, results: seq<Outcome>)

  const BOUND: nat := 1024

  datatype Error = BoundExceeded | NotUnique | OrderChanged | NotReadAccess

  /** The block and the result a receipt is credited with, by position. */
  datatype Credit = Credit(block: nat, result: nat)
  datatype Observed = Observed(callId: string, block: int, result: int)

  // ---------------------------------------------------------------- one receipt

  predicate ResultMatches(receipt: Receipt, result: Outcome, scope: Scope) {
    && scope.inputSeq < result.seqNo <= scope.terminalSeq + 1
    && result.resultHash == Some(receipt.resultHash)
    && result.isError == Some(receipt.isError)
  }

  predicate Pairs(receipt: Receipt, e: Events, c: Credit, used: set<int>, scope: Scope) {
    && c.block < |e.blocks| && c.result < |e.results|
    && ResultMatches(receipt, e.results[c.result], scope)
    && e.blocks[c.block].seqNo !in used
    && scope.inputSeq < e.blocks[c.block].seqNo
    && Same(e.results[c.result].toolId, e.blocks[c.block].toolId)
  }

  /** Every matching pair once. */
  function Matches(receipt: Receipt, e: Events, used: set<int>, scope: Scope): set<Credit> {
    set b, r | 0 <= b < |e.blocks| && 0 <= r < |e.results| && Pairs(receipt, e, Credit(b, r), used, scope)
      :: Credit(b, r)
  }

  predicate InOrder(receipt: Receipt, block: Block, result: Outcome, scope: Scope) {
    && block.seqNo < scope.terminalSeq
    && block.seqNo < result.seqNo
    && if receipt.callId == scope.callId then result.seqNo == scope.terminalSeq + 1
       else result.seqNo < scope.terminalSeq
  }

  predicate IsReadAccess(block: Block, scope: Scope) {
    && block.toolName == Some("RequestWebAccess")
    && block.input.Some? && block.input.value.hash == scope.requestHash
    && block.input.value.operation == Some("request_access")
  }

  /** What the order and the reviewed operation ask of a matched pair. */
  predicate Settled(receipt: Receipt, block: Block, result: Outcome, scope: Scope) {
    InOrder(receipt, block, result, scope) && (receipt.callId == scope.callId ==> IsReadAccess(block, scope))
  }

  lemma {:induction false} OnlyOne(s: set<Credit>, a: Credit, b: Credit)
    requires |s| == 1 && a in s && b in s
    ensures a == b
  {
    assert |s - {a}| == 0;
    assert b == a || b in s - {a};
  }

  function The(s: set<Credit>): (c: Credit)
    requires |s| == 1
    ensures s == {c}
  {
    assert s != {};
    assert forall a, b :: a in s && b in s ==> a == b by {
      forall a, b | a in s && b in s ensures a == b { OnlyOne(s, a, b); }
    }
    var c :| c in s;
    c
  }

  function Credited(receipt: Receipt, e: Events, used: set<int>, scope: Scope): Result<Credit, Error> {
    var matches := Matches(receipt, e, used, scope);
    if |matches| != 1 then Err(NotUnique)
    else
      var c := The(matches);
      assert c in matches;
      if !InOrder(receipt, e.blocks[c.block], e.results[c.result], scope) then Err(OrderChanged)
      else if receipt.callId == scope.callId && !IsReadAccess(e.blocks[c.block], scope) then Err(NotReadAccess)
      else Ok(c)
  }

  /** The sequence numbers of the blocks credited so far. */
  function Used(credits: seq<Credit>, e: Events): set<int> {
    set i | 0 <= i < |credits| && credits[i].block < |e.blocks| :: e.blocks[credits[i].block].seqNo
  }

  function Credits(receipts: seq<Receipt>, e: Events, scope: Scope): Result<seq<Credit>, Error> {
    if receipts == [] then Ok([])
    else
      var before := Credits(receipts[..|receipts| - 1], e, scope);
      if before.Err? then before
      else
        var last := Credited(receipts[|receipts| - 1], e, Used(before.value, e), scope);
        if last.Err? then Err(last.error) else Ok(before.value + [last.value])
  }

  function Inspect(receipts: seq<Receipt>, e: Events, scope: Scope): Result<seq<Credit>, Error> {
    if receipts == [] || |e.blocks| >= BOUND || |e.results| >= BOUND then Err(BoundExceeded)
    else Credits(receipts, e, scope)
  }

  // ---------------------------------------------------------------- what success means

  lemma {:induction false} EachWasCredited(receipts: seq<Receipt>, e: Events, scope: Scope, i: nat)
    requires Credits(receipts, e, scope).Ok? && i < |receipts|
    ensures var cs := Credits(receipts, e, scope).value;
            |cs| == |receipts| && Credited(receipts[i], e, Used(cs[..i], e), scope) == Ok(cs[i])
    decreases |receipts|
  {
    var init := receipts[..|receipts| - 1];
    var cs := Credits(receipts, e, scope).value;
    var before := Credits(init, e, scope).value;
    CreditsLength(receipts, e, scope);
    CreditsLength(init, e, scope);
    if i < |init| {
      EachWasCredited(init, e, scope, i);
      assert before[..i] == cs[..i];
    } else {
      assert cs[..i] == before;
    }
  }

  lemma {:induction false} CreditsLength(receipts: seq<Receipt>, e: Events, scope: Scope)
    requires Credits(receipts, e, scope).Ok?
    ensures |Credits(receipts, e, scope).value| == |receipts|
  {
    if receipts != [] { CreditsLength(receipts[..|receipts| - 1], e, scope); }
  }

  /** A match with fewer blocks left is a match with more. */
  lemma {:induction false} MatchesShrink(
    receipt: Receipt, other: Receipt, e: Events, used: set<int>, more: set<int>, scope: Scope,
                      c: Credit, d: Credit)
    requires used <= more && receipt.resultHash == other.resultHash && receipt.isError == other.isError
    requires Matches(receipt, e, used, scope) == {c} && Matches(other, e, more, scope) == {d}
    ensures c == d
  {
    assert Pairs(other, e, d, more, scope) by { assert d in Matches(other, e, more, scope); }
    assert d in Matches(receipt, e, used, scope);
  }

  lemma {:induction false} UsedHolds(cs: seq<Credit>, e: Events, i: nat, j: nat)
    requires i < j <= |cs| && cs[i].block < |e.blocks|
    ensures Used(cs[..i], e) <= Used(cs[..j], e) && e.blocks[cs[i].block].seqNo in Used(cs[..j], e)
  {
    forall n | n in Used(cs[..i], e) ensures n in Used(cs[..j], e) {
      var k :| 0 <= k < i && cs[..i][k].block < |e.blocks| && e.blocks[cs[..i][k].block].seqNo == n;
      assert cs[..j][k] == cs[k];
    }
    assert cs[..j][i] == cs[i];
  }

  /** A credited receipt has exactly one unused pair, and that pair is settled. */
  lemma {:induction false} CreditedHolds(receipt: Receipt, e: Events, used: set<int>, scope: Scope, c: Credit)
    requires Credited(receipt, e, used, scope) == Ok(c)
    ensures Matches(receipt, e, used, scope) == {c} && Pairs(receipt, e, c, used, scope)
    ensures Settled(receipt, e.blocks[c.block], e.results[c.result], scope)
  {
    assert c in Matches(receipt, e, used, scope);
  }

  /** Although only blocks are remembered, receipts that agree in digest and error flag cannot both
      be credited, so neither a block nor a result is credited twice. */
  lemma {:induction false} MatchingIsInjective(receipts: seq<Receipt>, e: Events, scope: Scope, i: nat, j: nat)
    requires Inspect(receipts, e, scope).Ok? && i < j < |receipts|
    ensures var cs := Inspect(receipts, e, scope).value;
            && |cs| == |receipts|
            && cs[i].block < |e.blocks| && cs[j].block < |e.blocks|
            && (receipts[i].resultHash != receipts[j].resultHash || receipts[i].isError != receipts[j].isError)
            && e.blocks[cs[i].block].seqNo != e.blocks[cs[j].block].seqNo
            && cs[i].block != cs[j].block && cs[i].result != cs[j].result
  {
    CreditsDiffer(receipts, e, scope, i, j);
  }

  lemma {:induction false} CreditsDiffer(receipts: seq<Receipt>, e: Events, scope: Scope, i: nat, j: nat)
    requires Credits(receipts, e, scope).Ok? && i < j < |receipts|
    ensures var cs := Credits(receipts, e, scope).value;
            && |cs| == |receipts| && cs[i].block < |e.blocks| && cs[j].block < |e.blocks|
            && Differ(receipts[i], receipts[j])
            && e.blocks[cs[i].block].seqNo != e.blocks[cs[j].block].seqNo
            && cs[i].result != cs[j].result
  {
    var cs := Credits(receipts, e, scope).value;
    EachWasCredited(receipts, e, scope, i);
    EachWasCredited(receipts, e, scope, j);
    hide Credits;
    CreditedHolds(receipts[i], e, Used(cs[..i], e), scope, cs[i]);
    CreditedHolds(receipts[j], e, Used(cs[..j], e), scope, cs[j]);
    UsedHolds(cs, e, i, j);
    hide Credited;
    hide Used;
    if receipts[i].resultHash == receipts[j].resultHash && receipts[i].isError == receipts[j].isError {
      MatchesShrink(receipts[i], receipts[j], e, Used(cs[..i], e), Used(cs[..j], e), scope, cs[i], cs[j]);
    }
  }

  /** Every credited result follows its block inside the window, and the reviewed call ends it. */
  lemma {:induction false} CreditsAreSettled(receipts: seq<Receipt>, e: Events, scope: Scope, i: nat)
    requires Inspect(receipts, e, scope).Ok? && i < |receipts|
    ensures var cs := Inspect(receipts, e, scope).value;
            && |cs| == |receipts| && cs[i].block < |e.blocks| && cs[i].result < |e.results|
            && var (block, result) := (e.blocks[cs[i].block], e.results[cs[i].result]);
               && Same(block.toolId, result.toolId)
               && result.resultHash == Some(receipts[i].resultHash) && result.isError == Some(receipts[i].isError)
               && scope.inputSeq < block.seqNo < result.seqNo && block.seqNo < scope.terminalSeq
               && (if receipts[i].callId == scope.callId
                   then result.seqNo == scope.terminalSeq + 1 && IsReadAccess(block, scope)
                   else result.seqNo < scope.terminalSeq)
  {
    EachWasCredited(receipts, e, scope, i);
    var cs := Credits(receipts, e, scope).value;
    CreditedHolds(receipts[i], e, Used(cs[..i], e), scope, cs[i]);
  }

  // ---------------------------------------------------------------- exactly when every order is accepted

  /** The number of the block a receipt is credited with when it comes first. */
  function AloneBlock(receipt: Receipt, e: Events, scope: Scope): Option<int> {
    var r := Credited(receipt, e, {}, scope);
    if r.Ok? && r.value.block < |e.blocks| then Some(e.blocks[r.value.block].seqNo) else None
  }

  /** Each receipt alone has one settled pair, and no two of these share a block. */
  ghost predicate StandAlone(receipts: seq<Receipt>, e: Events, scope: Scope) {
    && (forall i :: 0 <= i < |receipts| ==> Credited(receipts[i], e, {}, scope).Ok?)
    && (forall i, j :: 0 <= i < j < |receipts| ==>
          AloneBlock(receipts[i], e, scope) != AloneBlock(receipts[j], e, scope))
  }

  ghost predicate AcceptedInEveryOrder(receipts: seq<Receipt>, e: Events, scope: Scope) {
    forall rs :: multiset(rs) == multiset(receipts) ==> Credits(rs, e, scope).Ok?
  }

  /** Blocks that are used elsewhere do not disturb a receipt that has its pair to itself. */
  lemma {:induction false} AloneAmongOthers(receipt: Receipt, e: Events, used: set<int>, scope: Scope)
    requires Credited(receipt, e, {}, scope).Ok?
    requires AloneBlock(receipt, e, scope).Some? ==> AloneBlock(receipt, e, scope).value !in used
    ensures Credited(receipt, e, used, scope) == Credited(receipt, e, {}, scope)
  {
    var c := Credited(receipt, e, {}, scope).value;
    CreditedHolds(receipt, e, {}, scope, c);
    forall d | d in Matches(receipt, e, used, scope) ensures d in Matches(receipt, e, {}, scope) {}
    assert c in Matches(receipt, e, used, scope);
    assert Matches(receipt, e, used, scope) == {c};
    SameMatches(receipt, e, used, {}, scope);
  }

  /** The blocks of the earlier receipts are not the last one's. */
  lemma {:induction false} LastIsElsewhere(receipts: seq<Receipt>, e: Events, scope: Scope, cs: seq<Credit>)
    requires StandAlone(receipts, e, scope) && |receipts| == |cs| + 1
    requires forall i :: 0 <= i < |cs| ==> Credited(receipts[i], e, {}, scope) == Ok(cs[i])
    ensures AloneBlock(receipts[|cs|], e, scope).Some? ==> AloneBlock(receipts[|cs|], e, scope).value !in Used(cs, e)
  {
    hide Credited;
    forall n | n in Used(cs, e) ensures AloneBlock(receipts[|cs|], e, scope) != Some(n) {
      var i :| 0 <= i < |cs| && cs[i].block < |e.blocks| && e.blocks[cs[i].block].seqNo == n;
      assert AloneBlock(receipts[i], e, scope) == Some(n);
    }
  }

  lemma {:induction false} StandAloneIsCredited(receipts: seq<Receipt>, e: Events, scope: Scope)
    requires StandAlone(receipts, e, scope)
    ensures Credits(receipts, e, scope).Ok?
    ensures var cs := Credits(receipts, e, scope).value;
            |cs| == |receipts| && forall i :: 0 <= i < |cs| ==> Credited(receipts[i], e, {}, scope) == Ok(cs[i])
    decreases |receipts|
  {
    hide Credited;
    hide AloneBlock;
    hide Used;
    if receipts == [] {
    } else {
      var init := receipts[..|receipts| - 1];
      var last := receipts[|receipts| - 1];
      StandAloneIsCredited(init, e, scope);
      var cs := Credits(init, e, scope).value;
      LastIsElsewhere(receipts, e, scope, cs);
      AloneAmongOthers(last, e, Used(cs, e), scope);
    }
  }

  lemma {:induction false} StandAloneInEveryOrder(receipts: seq<Receipt>, rs: seq<Receipt>, e: Events, scope: Scope)
    requires StandAlone(receipts, e, scope) && multiset(receipts) == multiset(rs)
    ensures StandAlone(rs, e, scope)
  {
    hide Credited;
    hide AloneBlock;
    SameMembers(receipts, rs);
    forall i | 0 <= i < |rs| ensures Credited(rs[i], e, {}, scope).Ok? {
      assert rs[i] in receipts;
    }
    forall i, j | 0 <= i < j < |rs| ensures AloneBlock(rs[i], e, scope) != AloneBlock(rs[j], e, scope) {
      var a, b := PlacesOf(receipts, rs, i, j);
    }
  }

  lemma {:induction false} FirstStandsAlone(rs: seq<Receipt>, e: Events, scope: Scope)
    requires rs != [] && Credits(rs, e, scope).Ok?
    ensures Credited(rs[0], e, {}, scope).Ok?
  {
    EachWasCredited(rs, e, scope, 0);
    assert Used(Credits(rs, e, scope).value[..0], e) == {};
    hide Credits;
    hide Credited;
  }

  /** The second receipt of an accepted order does not share the block of the first. */
  lemma {:induction false} SecondStandsApart(rs: seq<Receipt>, e: Events, scope: Scope)
    requires |rs| >= 2 && Credits(rs, e, scope).Ok? && Credited(rs[1], e, {}, scope).Ok?
    ensures AloneBlock(rs[0], e, scope) != AloneBlock(rs[1], e, scope)
  {
    var cs := Credits(rs, e, scope).value;
    EachWasCredited(rs, e, scope, 0);
    EachWasCredited(rs, e, scope, 1);
    hide Credits;
    assert Used(cs[..0], e) == {};
    CreditedHolds(rs[0], e, {}, scope, cs[0]);
    CreditedHolds(rs[1], e, Used(cs[..1], e), scope, cs[1]);
    var c := Credited(rs[1], e, {}, scope).value;
    CreditedHolds(rs[1], e, {}, scope, c);
    UsedHolds(cs, e, 0, 1);
    hide Credited;
    MatchesShrink(rs[1], rs[1], e, {}, Used(cs[..1], e), scope, c, cs[1]);
    hide Used;
  }

  /** The receipts are accepted in every order if and only if each of them alone has one settled pair and
      these pairs have pairwise different blocks. */
  lemma {:induction false} EveryOrderExactly(receipts: seq<Receipt>, e: Events, scope: Scope)
    ensures AcceptedInEveryOrder(receipts, e, scope) <==> StandAlone(receipts, e, scope)
  {
    hide Credits;
    hide Credited;
    hide AloneBlock;
    if StandAlone(receipts, e, scope) {
      forall rs | multiset(rs) == multiset(receipts) ensures Credits(rs, e, scope).Ok? {
        StandAloneInEveryOrder(receipts, rs, e, scope);
        StandAloneIsCredited(rs, e, scope);
      }
    }
    if AcceptedInEveryOrder(receipts, e, scope) {
      forall i | 0 <= i < |receipts| ensures Credited(receipts[i], e, {}, scope).Ok? {
        FirstStandsAlone(OneFirst(receipts, i), e, scope);
      }
      forall i, j | 0 <= i < j < |receipts|
        ensures AloneBlock(receipts[i], e, scope) != AloneBlock(receipts[j], e, scope)
      {
        SecondStandsApart(TwoFirst(receipts, i, j), e, scope);
      }
    }
  }

  lemma {:induction false} SameMatches(receipt: Receipt, e: Events, used: set<int>, other: set<int>, scope: Scope)
    requires Matches(receipt, e, used, scope) == Matches(receipt, e, other, scope)
    ensures Credited(receipt, e, used, scope) == Credited(receipt, e, other, scope)
  {
  }

  // ---------------------------------------------------------------- unique tool identifiers

  /** No tool identifier names two blocks or two results, and no number two blocks. */
  ghost predicate UniqueTools(e: Events) {
    && (forall i, j :: 0 <= i < j < |e.blocks| ==>
          !Same(e.blocks[i].toolId, e.blocks[j].toolId) && e.blocks[i].seqNo != e.blocks[j].seqNo)
    && (forall i, j :: 0 <= i < j < |e.results| ==> !Same(e.results[i].toolId, e.results[j].toolId))
  }

  predicate Differ(a: Receipt, b: Receipt) {
    a.resultHash != b.resultHash || a.isError != b.isError
  }

  /** Each receipt alone has one settled pair, and no two receipts agree in digest and error flag. */
  ghost predicate Accountable(receipts: seq<Receipt>, e: Events, scope: Scope) {
    && (forall i :: 0 <= i < |receipts| ==> Credited(receipts[i], e, {}, scope).Ok?)
    && (forall i, j :: 0 <= i < j < |receipts| ==> Differ(receipts[i], receipts[j]))
  }

  lemma {:induction false} UsedIsIrrelevant(receipts: seq<Receipt>, e: Events, scope: Scope, receipt: Receipt)
    requires UniqueTools(e) && Credits(receipts, e, scope).Ok?
    requires forall i :: 0 <= i < |receipts| ==> Differ(receipts[i], receipt)
    ensures Matches(receipt, e, Used(Credits(receipts, e, scope).value, e), scope) == Matches(receipt, e, {}, scope)
  {
    var cs := Credits(receipts, e, scope).value;
    CreditsLength(receipts, e, scope);
    var used := Used(cs, e);
    forall d | d in Matches(receipt, e, {}, scope) ensures e.blocks[d.block].seqNo !in used {
      if e.blocks[d.block].seqNo in used {
        var i :| 0 <= i < |cs| && cs[i].block < |e.blocks| && e.blocks[cs[i].block].seqNo == e.blocks[d.block].seqNo;
        EachWasCredited(receipts, e, scope, i);
        hide Credits;
        CreditedHolds(receipts[i], e, Used(cs[..i], e), scope, cs[i]);
        hide Credited;
        hide Used;
        SameResult(e, cs[i], d);
      }
    }
    assert forall d :: d in Matches(receipt, e, used, scope) <==> d in Matches(receipt, e, {}, scope);
  }

  /** Two pairs of one block are the same pair. */
  lemma {:induction false} SameResult(e: Events, c: Credit, d: Credit)
    requires UniqueTools(e) && c.block < |e.blocks| && d.block < |e.blocks| && c.result < |e.results| && d.result < |e.results|
    requires e.blocks[c.block].seqNo == e.blocks[d.block].seqNo
    requires Same(e.results[c.result].toolId, e.blocks[c.block].toolId)
    requires Same(e.results[d.result].toolId, e.blocks[d.block].toolId)
    ensures c == d
  {
  }

  /** With unique tool identifiers, sharing a block is sharing the digest and the error flag. */
  lemma {:induction false} SharedBlockIsShared(a: Receipt, b: Receipt, e: Events, scope: Scope)
    requires UniqueTools(e) && Credited(a, e, {}, scope).Ok? && Credited(b, e, {}, scope).Ok?
    ensures AloneBlock(a, e, scope) == AloneBlock(b, e, scope) <==> !Differ(a, b)
  {
    var (c, d) := (Credited(a, e, {}, scope).value, Credited(b, e, {}, scope).value);
    CreditedHolds(a, e, {}, scope, c);
    CreditedHolds(b, e, {}, scope, d);
    assert AloneBlock(a, e, scope) == Some(e.blocks[c.block].seqNo);
    assert AloneBlock(b, e, scope) == Some(e.blocks[d.block].seqNo);
    hide Credited;
    hide AloneBlock;
    if e.blocks[c.block].seqNo == e.blocks[d.block].seqNo { SameResult(e, c, d); }
    if !Differ(a, b) { MatchesShrink(a, b, e, {}, {}, scope, c, d); }
  }

  lemma {:induction false} AccountableStandsAlone(receipts: seq<Receipt>, e: Events, scope: Scope)
    requires UniqueTools(e)
    ensures Accountable(receipts, e, scope) <==> StandAlone(receipts, e, scope)
  {
    hide UniqueTools;
    hide AloneBlock;
    hide Differ;
    hide Credited;
    if forall i :: 0 <= i < |receipts| ==> Credited(receipts[i], e, {}, scope).Ok? {
      forall i, j | 0 <= i < j < |receipts|
        ensures AloneBlock(receipts[i], e, scope) == AloneBlock(receipts[j], e, scope) <==>
                !Differ(receipts[i], receipts[j])
      {
        SharedBlockIsShared(receipts[i], receipts[j], e, scope);
      }
    }
  }

  /** In an accepted order of receipts with unique tool identifiers each receipt is accountable. */
  lemma {:induction false} CreditedIsAccountable(receipts: seq<Receipt>, e: Events, scope: Scope)
    requires UniqueTools(e) && Credits(receipts, e, scope).Ok?
    ensures Accountable(receipts, e, scope)
    decreases |receipts|
  {
    if receipts == [] {
    } else {
      var init := receipts[..|receipts| - 1];
      var last := receipts[|receipts| - 1];
      CreditedIsAccountable(init, e, scope);
      hide UniqueTools;
      AccountableInit(receipts, e, scope);
      CreditedDiffer(receipts, e, scope);
      UsedIsIrrelevant(init, e, scope, last);
      SameMatches(last, e, Used(Credits(init, e, scope).value, e), {}, scope);
      hide Credited;
      hide Used;
      hide Matches;
      hide Accountable;
    }
  }

  /** When tool identifiers are unique the order of the receipts does not matter: one order is accepted
      if and only if every order is, and that is when every receipt alone has one settled pair and no two
      agree in digest and error flag. */
  lemma {:induction false} UniqueToolsAreOrderFree(receipts: seq<Receipt>, e: Events, scope: Scope)
    requires UniqueTools(e)
    ensures Credits(receipts, e, scope).Ok? <==> Accountable(receipts, e, scope)
    ensures Credits(receipts, e, scope).Ok? <==> AcceptedInEveryOrder(receipts, e, scope)
    ensures Credits(receipts, e, scope).Ok? ==>
              var cs := Credits(receipts, e, scope).value;
              |cs| == |receipts| && forall i :: 0 <= i < |cs| ==> Credited(receipts[i], e, {}, scope) == Ok(cs[i])
  {
    if Credits(receipts, e, scope).Ok? { CreditedIsAccountable(receipts, e, scope); }
    AccountableStandsAlone(receipts, e, scope);
    EveryOrderExactly(receipts, e, scope);
    if StandAlone(receipts, e, scope) { StandAloneIsCredited(receipts, e, scope); }
    hide Credits;
    hide Credited;
    hide Accountable;
    hide StandAlone;
  }

  lemma {:induction false} AccountableInit(receipts: seq<Receipt>, e: Events, scope: Scope)
    requires receipts != []
    ensures var init := receipts[..|receipts| - 1];
            var last := receipts[|receipts| - 1];
            Accountable(receipts, e, scope) <==>
              Accountable(init, e, scope) && Credited(last, e, {}, scope).Ok?
              && forall i :: 0 <= i < |init| ==> Differ(init[i], last)
  {
    hide Credited;
    hide Differ;
  }

  lemma {:induction false} CreditedDiffer(receipts: seq<Receipt>, e: Events, scope: Scope)
    requires receipts != [] && Credits(receipts, e, scope).Ok?
    ensures forall i :: 0 <= i < |receipts| - 1 ==> Differ(receipts[i], receipts[|receipts| - 1])
  {
    forall i | 0 <= i < |receipts| - 1 ensures Differ(receipts[i], receipts[|receipts| - 1]) {
      CreditsDiffer(receipts, e, scope, i, |receipts| - 1);
    }
  }

  lemma {:induction false} CreditsOfTwo(a: Receipt, b: Receipt, e: Events, scope: Scope)
    ensures var first := Credited(a, e, {}, scope);
            first.Err? ==> Credits([a, b], e, scope) == Err(first.error)
    ensures var first := Credited(a, e, {}, scope);
            first.Ok? && Credited(b, e, Used([first.value], e), scope).Ok? ==> Credits([a, b], e, scope).Ok?
  {
    assert [a, b][..1] == [a] && [a][..0] == [];
    assert Used([], e) == {};
    assert Credits([a][..0], e, scope) == Ok([]);
    var first := Credited(a, e, {}, scope);
    assert first.Ok? ==> [] + [first.value] == [first.value];
    hide Credited;
    hide Used;
  }

  /** A scope, two receipts and events in which both results of one tool precede another's. */
  const SCOPE := Scope(0, 100, "none", "")
  const RECEIPT_A := Receipt("a", "ra", 0)
  const RECEIPT_B := Receipt("b", "rb", 0)
  const SHARED_TOOL := Events(
    [Block(1, Scalar("t"), None, None), Block(2, Scalar("u"), None, None)],
    [Outcome(3, Scalar("t"), Some("ra"), Some(0)), Outcome(4, Scalar("t"), Some("rb"), Some(0)),
     Outcome(5, Scalar("u"), Some("rb"), Some(0))])

  lemma {:induction false} FirstOrder()
    ensures Credited(RECEIPT_A, SHARED_TOOL, {}, SCOPE) == Ok(Credit(0, 0))
    ensures Credited(RECEIPT_B, SHARED_TOOL, {1}, SCOPE) == Ok(Credit(1, 2))
    ensures Used([Credit(0, 0)], SHARED_TOOL) == {1}
  {
    assert Matches(RECEIPT_A, SHARED_TOOL, {}, SCOPE) == {Credit(0, 0)};
    assert Matches(RECEIPT_B, SHARED_TOOL, {1}, SCOPE) == {Credit(1, 2)};
    assert [Credit(0, 0)][0].block < |SHARED_TOOL.blocks|;
  }

  lemma {:induction false} SecondOrder()
    ensures Credited(RECEIPT_B, SHARED_TOOL, {}, SCOPE) == Err(NotUnique)
  {
    assert Matches(RECEIPT_B, SHARED_TOOL, {}, SCOPE) == {Credit(0, 1), Credit(1, 2)};
  }

  /** In general it does: here the second order finds two pairs for its first receipt. */
  lemma {:induction false} OrderMatters()
    ensures exists a: Receipt, b: Receipt, e: Events, scope: Scope ::
              Inspect([a, b], e, scope).Ok? && Inspect([b, a], e, scope) == Err(NotUnique)
  {
    FirstOrder();
    SecondOrder();
    CreditsOfTwo(RECEIPT_A, RECEIPT_B, SHARED_TOOL, SCOPE);
    CreditsOfTwo(RECEIPT_B, RECEIPT_A, SHARED_TOOL, SCOPE);
    hide Credits;
    hide Credited;
    hide Used;
    assert Inspect([RECEIPT_A, RECEIPT_B], SHARED_TOOL, SCOPE).Ok?;
    assert Inspect([RECEIPT_B, RECEIPT_A], SHARED_TOOL, SCOPE) == Err(NotUnique);
  }

  // ---------------------------------------------------------------- the pass over the receipts

  method InspectToolEvents(receipts: seq<Receipt>, blocks: seq<Block>, results: seq<Outcome>, scope: Scope)
    returns (r: Result<seq<Observed>, Error>)
    ensures var e := Events(blocks, results);
            var inspected := Inspect(receipts, e, scope);
            if inspected.Err? then r == Err(inspected.error)
            else
              && r.Ok? && |r.value| == |receipts| == |inspected.value|
              && forall i :: 0 <= i < |receipts| ==> Projects(receipts[i], e, inspected.value[i], r.value[i])
  {
    var e := Events(blocks, results);
    if |receipts| == 0 || |blocks| >= BOUND || |results| >= BOUND { return Err(BoundExceeded); }
    var used: set<int> := {};
    var observed: seq<Observed> := [];
    ghost var credits: seq<Credit> := [];
    assert receipts[..0] == [] && Used(credits, e) == {};
    hide Credited;
    hide Used;
    var i := 0;
    while i < |receipts|
      invariant 0 <= i <= |receipts| && |observed| == |credits| == i
      invariant Credits(receipts[..i], e, scope) == Ok(credits)
      invariant used == Used(credits, e)
      invariant forall j :: 0 <= j < i ==> Projects(receipts[j], e, credits[j], observed[j])
    {
      assert receipts[..i + 1][..i] == receipts[..i];
      var credited := CreditReceipt(receipts[i], e, used, scope);
      if credited.Err? {
        RefusalStands(receipts, e, scope, i + 1);
        return Err(credited.error);
      }
      var c := credited.value;
      UsedMore(credits, c, e);
      used := used + {e.blocks[c.block].seqNo};
      observed := observed + [Observed(receipts[i].callId, e.blocks[c.block].seqNo, e.results[c.result].seqNo)];
      credits := credits + [c];
      i := i + 1;
    }
    assert receipts[..i] == receipts;
    r := Ok(observed);
  }

  predicate Projects(receipt: Receipt, e: Events, c: Credit, o: Observed) {
    && c.block < |e.blocks| && c.result < |e.results|
    && o == Observed(receipt.callId, e.blocks[c.block].seqNo, e.results[c.result].seqNo)
  }

  method CreditReceipt(receipt: Receipt, e: Events, used: set<int>, scope: Scope) returns (r: Result<Credit, Error>)
    ensures r == Credited(receipt, e, used, scope)
    ensures r.Ok? ==> r.value.block < |e.blocks| && r.value.result < |e.results|
  {
    var matches := Matches(receipt, e, used, scope);
    if |matches| != 1 { return Err(NotUnique); }
    var c := The(matches);
    assert c in matches;
    var block, result := e.blocks[c.block], e.results[c.result];
    if block.seqNo >= scope.terminalSeq || result.seqNo <= block.seqNo
       || (if receipt.callId == scope.callId then result.seqNo != scope.terminalSeq + 1
           else result.seqNo >= scope.terminalSeq) {
      return Err(OrderChanged);
    }
    if receipt.callId == scope.callId
       && (block.toolName != Some("RequestWebAccess") || block.input.None?
           || block.input.value.hash != scope.requestHash || block.input.value.operation != Some("request_access")) {
      return Err(NotReadAccess);
    }
    r := Ok(c);
  }

  lemma {:induction false} UsedMore(credits: seq<Credit>, c: Credit, e: Events)
    requires c.block < |e.blocks|
    ensures Used(credits + [c], e) == Used(credits, e) + {e.blocks[c.block].seqNo}
  {
    var more := credits + [c];
    assert more[|credits|] == c;
    forall n | n in Used(credits, e) ensures n in Used(more, e) {
      var k :| 0 <= k < |credits| && credits[k].block < |e.blocks| && e.blocks[credits[k].block].seqNo == n;
      assert more[k] == credits[k];
    }
  }

  lemma {:induction false} RefusalStands(receipts: seq<Receipt>, e: Events, scope: Scope, n: nat)
    requires n <= |receipts| && Credits(receipts[..n], e, scope).Err?
    ensures Credits(receipts, e, scope) == Credits(receipts[..n], e, scope)
    decreases |receipts|
  {
    if n == |receipts| {
      assert receipts[..n] == receipts;
    } else {
      assert receipts[..|receipts| - 1][..n] == receipts[..n];
      RefusalStands(receipts[..|receipts| - 1], e, scope, n);
    }
  }

  // ---------------------------------------------------------------- the native rollout

  /** One line of the rollout; `Unreadable` is a line that is no event at all. */
  datatype Line = Started(turnId: Option<string>) | Complete(turnId: Option<string>) | Failed | Other | Unreadable

  datatype Rollout = Rollout(endsInNewline: bool, bytes: nat, headerIsExpected: bool, lines: seq<Line>)

  const MAX_ROLLOUT_BYTES: nat := 64 * 1024 * 1024

  /** The turn starts once and completes once, nothing starts after its start, nothing fails after it. */
  ghost predicate RanOnce(lines: seq<Line>, turn: string, start: nat, end: nat) {
    && start < end < |lines|
    && lines[start] == Started(Some(turn)) && lines[end] == Complete(Some(turn))
    && (forall k :: 0 <= k < |lines| && lines[k] == Started(Some(turn)) ==> k == start)
    && (forall k :: 0 <= k < |lines| && lines[k] == Complete(Some(turn)) ==> k == end)
    && (forall k :: start < k < |lines| ==> !lines[k].Started? && !lines[k].Failed?)
    && (forall k :: 0 <= k < |lines| ==> !lines[k].Unreadable?)
  }

  ghost predicate Accepted(source: Rollout, turn: string) {
    && source.endsInNewline && source.bytes <= MAX_ROLLOUT_BYTES && source.headerIsExpected
    && exists start, end :: RanOnce(source.lines, turn, start, end)
  }

  /** The automaton accepts exactly the rollouts in which the turn ran once and last. */
  method InspectRollout(source: Rollout, turn: string) returns (ok: bool)
    ensures ok <==> Accepted(source, turn)
  {
    if !source.endsInNewline || source.bytes > MAX_ROLLOUT_BYTES || !source.headerIsExpected { return false; }
    var lines := source.lines;
    var started, completed := false, false;
    var latest: Option<string> := None;
    ghost var start, end := 0, 0;
    var i := 0;
    while i < |lines|
      invariant 0 <= i <= |lines|
      invariant started <==> exists k :: 0 <= k < i && lines[k] == Started(Some(turn))
      invariant completed <==> exists k :: 0 <= k < i && lines[k] == Complete(Some(turn))
      invariant completed ==> started && start < end < i && lines[end] == Complete(Some(turn))
      invariant started ==> start < i && lines[start] == Started(Some(turn))
      invariant forall k :: 0 <= k < i && lines[k] == Started(Some(turn)) ==> k == start
      invariant completed ==> forall k :: 0 <= k < i && lines[k] == Complete(Some(turn)) ==> k == end
      invariant started ==> forall k :: start < k < i ==> !lines[k].Failed?
      invariant started ==> (latest == Some(turn) <==> forall k :: start < k < i ==> !lines[k].Started?)
      invariant completed ==> latest == Some(turn)
      invariant forall k :: 0 <= k < i ==> !lines[k].Unreadable?
    {
      match lines[i] {
      case Unreadable => return false;
      case Other =>
      case Started(t) =>
        if completed { return false; }
        latest := t;
        if latest == Some(turn) {
          if started { return false; }
          started := true;
          start := i;
        }
      case Complete(t) =>
        if t == Some(turn) {
          if !started || completed || latest != Some(turn) { return false; }
          completed := true;
          end := i;
        }
      case Failed =>
        if started { return false; }
      }
      i := i + 1;
    }
    ok := completed && latest == Some(turn);
    assert ok ==> RanOnce(lines, turn, start, end);
  }
}

/** Drafts, verifications and publications of API tools (server/api-tool-catalog.ts).

    `save` and `publish` are single transactions; `verify` is two sections around the request it
    makes.  `bound` is the binding the credential service computes for the configuration at that
    moment, or nothing when it refuses. */
module ApiToolCatalog {
  import opened Options

  datatype Configuration = Configuration(title: string, connectionId: string, entityId: string)
  type Binding = string
  type ToolId = string

  /** `verification`: null, the generation of a running check, or `verified:` and its generation. */
  datatype Mark = Unverified | Running(generation: nat) | Verified(generation: nat)

  datatype Draft = Draft(version: nat, configuration: Configuration, binding: Binding, mark: Mark)

  datatype Phase = Active | Passed(bound: Binding) | Failed

  /** A verification; its index is its generation. */
  datatype Check = Check(id: ToolId, draft: Draft, phase: Phase)

  datatype Publication = Publication(
    id: ToolId, version: nat, revision: nat, configuration: Configuration, binding: Binding, draftVersion: nat)

  datatype State = State(
    drafts: map<ToolId, Draft>, checks: seq<Check>, publications: seq<Publication>, closed: bool)

  datatype Error = NotFound | VersionConflict | BindingRefused | NotVerified | Unresolved | Closed

  const EMPTY := State(map[], [], [], false)

  datatype Event =
    | Save(id: ToolId, expected: nat, configuration: Configuration, bound: Option<Binding>)
    | VerifyStart(id: ToolId, version: nat, live: bool, bound: Option<Binding>)
    | VerifyEnd(generation: nat, answered: bool, live: bool, bound: Option<Binding>)
    | Publish(id: ToolId, version: nat, bound: Option<Binding>)
    | Close
    | Reopen

  function VersionOf(s: State, id: ToolId): nat {
    if id in s.drafts then s.drafts[id].version else 0
  }

  predicate Current(s: State, id: ToolId, version: nat) {
    id in s.drafts && s.drafts[id].version == version
  }

  function SaveStep(s: State, id: ToolId, expected: nat, configuration: Configuration, bound: Option<Binding>): State {
    if s.closed || bound.None? || VersionOf(s, id) != expected then s
    else s.(drafts := s.drafts[id := Draft(expected + 1, configuration, bound.value, Unverified)])
  }

  /** The `catch` block of `verify`: clear the mark only if it is still this verification's own. */
  function FailStep(s: State, g: nat): State {
    if g >= |s.checks| then s
    else
      var check := s.checks[g];
      var failed := s.(checks := s.checks[g := check.(phase := Failed)]);
      if !s.closed && Current(s, check.id, check.draft.version) && s.drafts[check.id].mark == Running(g)
      then failed.(drafts := s.drafts[check.id := check.draft.(mark := Unverified)])
      else failed
  }

  /** The fence of `verify`. */
  predicate Holds(s: State, g: nat, live: bool, bound: Option<Binding>)
    requires g < |s.checks|
  {
    var check := s.checks[g];
    && live && !s.closed
    && Current(s, check.id, check.draft.version) && s.drafts[check.id].mark == Running(g)
    && bound == Some(check.draft.binding)
  }

  /** Beginning a verification replaces the mark, whatever proof stood there. */
  function Begin(s: State, id: ToolId): State
    requires id in s.drafts
  {
    s.(drafts := s.drafts[id := s.drafts[id].(mark := Running(|s.checks|))],
       checks := s.checks + [Check(id, s.drafts[id], Active)])
  }

  function VerifyStartStep(s: State, id: ToolId, version: nat, live: bool, bound: Option<Binding>): State {
    if s.closed || !Current(s, id, version) then s
    else
      var g := |s.checks|;
      var begun := Begin(s, id);
      if Holds(begun, g, live, bound) then begun else FailStep(begun, g)
  }

  function VerifyEndStep(s: State, g: nat, answered: bool, live: bool, bound: Option<Binding>): State {
    if g >= |s.checks| || s.checks[g].phase != Active then s
    else if !answered || !Holds(s, g, live, bound) then FailStep(s, g)
    else
      var check := s.checks[g];
      s.(drafts := s.drafts[check.id := check.draft.(mark := Verified(g))],
         checks := s.checks[g := check.(phase := Passed(bound.value))])
  }

  function PublicationsOf(publications: seq<Publication>, id: ToolId): seq<Publication> {
    if publications == [] then []
    else
      var last := publications[|publications| - 1];
      PublicationsOf(publications[..|publications| - 1], id) + if last.id == id then [last] else []
  }

  function NewestOf(publications: seq<Publication>, id: ToolId): Option<Publication> {
    var mine := PublicationsOf(publications, id);
    if mine == [] then None else Some(mine[|mine| - 1])
  }

  predicate Listed(entries: seq<Publication>, id: ToolId) {
    exists k :: 0 <= k < |entries| && entries[k].id == id
  }

  lemma {:induction false} NewestAppend(publications: seq<Publication>, p: Publication, id: ToolId)
    ensures NewestOf(publications + [p], id) == if p.id == id then Some(p) else NewestOf(publications, id)
  {
    assert (publications + [p])[..|publications|] == publications;
  }

  /** Where the first publication of a tool stands, the length of the log when there is none. */
  function FirstAt(publications: seq<Publication>, id: ToolId): nat {
    if publications == [] || publications[0].id == id then 0 else 1 + FirstAt(publications[1..], id)
  }

  lemma {:induction false} FirstAppend(publications: seq<Publication>, p: Publication, id: ToolId)
    ensures FirstAt(publications + [p], id)
         == if FirstAt(publications, id) < |publications| then FirstAt(publications, id)
            else if p.id == id then |publications| else |publications| + 1
    ensures FirstAt(publications, id) < |publications| ==> publications[FirstAt(publications, id)].id == id
    ensures FirstAt(publications, id) <= |publications|
  {
    if publications != [] {
      assert (publications + [p])[1..] == publications[1..] + [p];
      FirstAppend(publications[1..], p, id);
    }
  }

  /** The tools of a log in the order of their first publications. */
  ghost predicate InFirstOrder(publications: seq<Publication>, order: seq<ToolId>) {
    && (forall k :: 0 <= k < |publications| ==> publications[k].id in order)
    && (forall k :: 0 <= k < |order| ==> FirstAt(publications, order[k]) < |publications|)
    && (forall j, k :: 0 <= j < k < |order| ==> FirstAt(publications, order[j]) < FirstAt(publications, order[k]))
  }

  lemma {:induction false} FirstOrderAppend(publications: seq<Publication>, order: seq<ToolId>, p: Publication)
    requires InFirstOrder(publications, order)
    ensures InFirstOrder(publications + [p], if p.id in order then order else order + [p.id])
  {
    forall id ensures FirstAt(publications + [p], id)
                      == if FirstAt(publications, id) < |publications| then FirstAt(publications, id)
                         else if p.id == id then |publications| else |publications| + 1
    {
      FirstAppend(publications, p, id);
    }
    FirstAppend(publications, p, p.id);
    hide FirstAt;
  }

  /** Each tool of `newest` with its newest publication. */
  ghost predicate AreNewest(publications: seq<Publication>, newest: map<ToolId, Publication>) {
    forall id :: id in newest ==> newest[id].id == id && NewestOf(publications, id) == Some(newest[id])
  }

  lemma {:induction false} NewestStay(publications: seq<Publication>, newest: map<ToolId, Publication>, p: Publication)
    requires AreNewest(publications, newest)
    ensures AreNewest(publications + [p], newest[p.id := p])
  {
    forall id | id in newest || id == p.id ensures NewestOf(publications + [p], id) == Some(newest[p.id := p][id]) {
      NewestAppend(publications, p, id);
    }
    hide NewestOf;
  }

  /** The values of `newest` in the order of its keys. */
  function Values(order: seq<ToolId>, newest: map<ToolId, Publication>): (entries: seq<Publication>)
    requires forall k :: 0 <= k < |order| ==> order[k] in newest
    ensures |entries| == |order| && forall k :: 0 <= k < |order| ==> entries[k] == newest[order[k]]
  {
    if order == [] then [] else [newest[order[0]]] + Values(order[1..], newest)
  }

  /** What the loop of `list` holds: the tools of a log in their order, each with its newest entry. */
  ghost predicate Collected(publications: seq<Publication>, order: seq<ToolId>, newest: map<ToolId, Publication>) {
    InFirstOrder(publications, order) && AreNewest(publications, newest) && SameTools(order, newest)
  }

  ghost predicate SameTools(order: seq<ToolId>, newest: map<ToolId, Publication>) {
    (forall k :: 0 <= k < |order| ==> order[k] in newest) && (forall id :: id in newest ==> id in order)
  }

  lemma {:induction false} SameToolsAppend(order: seq<ToolId>, newest: map<ToolId, Publication>, p: Publication)
    requires SameTools(order, newest)
    ensures SameTools(if p.id in newest then order else order + [p.id], newest[p.id := p])
    ensures p.id in newest <==> p.id in order
  {
    if p.id !in newest {
      assert (order + [p.id])[|order|] == p.id;
    }
  }

  lemma {:induction false} CollectedByDefinition(
    publications: seq<Publication>, order: seq<ToolId>, newest: map<ToolId, Publication>)
    ensures InFirstOrder(publications, order) && AreNewest(publications, newest) && SameTools(order, newest)
            <==> Collected(publications, order, newest)
  {}

  lemma {:induction false} CollectedAppend(
    publications: seq<Publication>, order: seq<ToolId>, newest: map<ToolId, Publication>, p: Publication)
    requires Collected(publications, order, newest)
    ensures Collected(publications + [p], if p.id in newest then order else order + [p.id], newest[p.id := p])
  {
    FirstOrderAppend(publications, order, p);
    NewestStay(publications, newest, p);
    SameToolsAppend(order, newest, p);
    hide *;
    CollectedByDefinition(publications + [p], if p.id in newest then order else order + [p.id], newest[p.id := p]);
  }

  lemma {:induction false} CollectedInside(
    publications: seq<Publication>, order: seq<ToolId>, newest: map<ToolId, Publication>)
    requires Collected(publications, order, newest)
    ensures forall k :: 0 <= k < |order| ==> order[k] in newest
  {}

  lemma {:induction false} CollectedEntries(
    publications: seq<Publication>, order: seq<ToolId>, newest: map<ToolId, Publication>, entries: seq<Publication>)
    requires Collected(publications, order, newest) && |entries| == |order|
    requires forall k :: 0 <= k < |order| && order[k] in newest ==> entries[k] == newest[order[k]]
    ensures forall i, j :: 0 <= i < j < |entries| ==> entries[i].id != entries[j].id
    ensures forall i, j :: 0 <= i < j < |entries| ==>
              FirstAt(publications, entries[i].id) < FirstAt(publications, entries[j].id)
    ensures forall i :: 0 <= i < |publications| ==> Listed(entries, publications[i].id)
    ensures forall k :: 0 <= k < |entries| ==> NewestOf(publications, entries[k].id) == Some(entries[k])
  {
    forall i | 0 <= i < |publications| ensures Listed(entries, publications[i].id) {
      var k :| 0 <= k < |order| && order[k] == publications[i].id;
      assert entries[k].id == publications[i].id;
    }
    hide FirstAt;
    hide NewestOf;
  }

  predicate Publishable(s: State, id: ToolId, version: nat, bound: Option<Binding>) {
    && !s.closed && Current(s, id, version)
    && s.drafts[id].mark.Verified? && bound == Some(s.drafts[id].binding)
  }

  predicate AlreadyPublished(s: State, id: ToolId, version: nat) {
    exists i :: 0 <= i < |s.publications| && s.publications[i].id == id && s.publications[i].draftVersion == version
  }

  function PublishStep(s: State, id: ToolId, version: nat, bound: Option<Binding>): State {
    if !Publishable(s, id, version, bound) || AlreadyPublished(s, id, version) then s
    else
      var draft := s.drafts[id];
      s.(publications := s.publications + [
           Publication(id, |PublicationsOf(s.publications, id)| + 1, |s.publications|,
                       draft.configuration, draft.binding, version)])
  }

  /** The next process finds the tables as they were; the verifications of the last one are gone. */
  function Died(checks: seq<Check>): (died: seq<Check>)
    ensures |died| == |checks|
    ensures forall g :: 0 <= g < |checks| ==>
              died[g] == if checks[g].phase == Active then checks[g].(phase := Failed) else checks[g]
  {
    seq(|checks|, (g: nat) requires g < |checks| =>
      if checks[g].phase == Active then checks[g].(phase := Failed) else checks[g])
  }

  function ReopenStep(s: State): State {
    s.(checks := Died(s.checks), closed := false)
  }

  function Step(s: State, e: Event): State {
    match e
    case Save(id, expected, configuration, bound) => SaveStep(s, id, expected, configuration, bound)
    case VerifyStart(id, version, live, bound) => VerifyStartStep(s, id, version, live, bound)
    case VerifyEnd(g, answered, live, bound) => VerifyEndStep(s, g, answered, live, bound)
    case Publish(id, version, bound) => PublishStep(s, id, version, bound)
    case Close => s.(closed := true)
    case Reopen => ReopenStep(s)
  }

  function Run(s: State, events: seq<Event>): State
    decreases |events|
  {
    if events == [] then s else Run(Step(s, events[0]), events[1..])
  }

  /** What `resolve` asks of the publication a reference names. */
  predicate Resolvable(s: State, p: Publication, bound: Option<Binding>) {
    && !s.closed && Current(s, p.id, p.draftVersion)
    && s.drafts[p.id].mark.Verified? && bound == Some(p.binding)
  }

  // ---------------------------------------------------------------- invariant

  /** A captured version of a draft: never ahead of the stored one, and equal to it when current. */
  ghost predicate Agrees(s: State, id: ToolId, version: nat, configuration: Configuration, binding: Binding) {
    && id in s.drafts && version <= s.drafts[id].version
    && (version == s.drafts[id].version ==>
          s.drafts[id].configuration == configuration && s.drafts[id].binding == binding)
  }

  /** Verification `g` is the last one begun on this draft version. */
  ghost predicate LastBegun(checks: seq<Check>, g: nat, id: ToolId, version: nat) {
    forall h :: g < h < |checks| ==> !(checks[h].id == id && checks[h].draft.version == version)
  }

  ghost predicate MarkOk(s: State, id: ToolId)
    requires id in s.drafts
  {
    var draft := s.drafts[id];
    match draft.mark
    case Unverified => true
    case Running(g) =>
      && g < |s.checks| && s.checks[g].id == id && s.checks[g].draft.version == draft.version
      && !s.checks[g].phase.Passed? && LastBegun(s.checks, g, id, draft.version)
    case Verified(g) =>
      && g < |s.checks| && s.checks[g].id == id && s.checks[g].draft.version == draft.version
      && s.checks[g].phase == Passed(draft.binding) && LastBegun(s.checks, g, id, draft.version)
  }

  ghost predicate DraftsOk(s: State) {
    && (forall id :: id in s.drafts ==> s.drafts[id].version > 0 && MarkOk(s, id))
    && (forall g :: 0 <= g < |s.checks| ==>
          Agrees(s, s.checks[g].id, s.checks[g].draft.version, s.checks[g].draft.configuration, s.checks[g].draft.binding))
  }

  /** Some verification passed on exactly what was published. */
  ghost predicate Certified(s: State, p: Publication) {
    exists g :: 0 <= g < |s.checks| && s.checks[g].id == p.id && s.checks[g].draft.version == p.draftVersion
                && s.checks[g].draft.configuration == p.configuration
                && s.checks[g].draft.binding == p.binding && s.checks[g].phase == Passed(p.binding)
  }

  ghost predicate PublicationsOk(s: State) {
    && (forall i :: 0 <= i < |s.publications| ==>
          var p := s.publications[i];
          && p.revision == i && p.version == |PublicationsOf(s.publications[..i], p.id)| + 1
          && Agrees(s, p.id, p.draftVersion, p.configuration, p.binding)
          && Certified(s, p))
    && (forall i, j :: 0 <= i < j < |s.publications| && s.publications[i].id == s.publications[j].id ==>
          s.publications[i].draftVersion < s.publications[j].draftVersion)
  }

  ghost predicate Inv(s: State) {
    DraftsOk(s) && PublicationsOk(s)
  }

  /** Later states keep every stored version, every publication and every passed verification. */
  ghost predicate Grows(s: State, t: State) {
    && (forall id :: id in s.drafts ==>
          && id in t.drafts && s.drafts[id].version <= t.drafts[id].version
          && (s.drafts[id].version == t.drafts[id].version ==>
                t.drafts[id].configuration == s.drafts[id].configuration && t.drafts[id].binding == s.drafts[id].binding))
    && |s.checks| <= |t.checks|
    && (forall g :: 0 <= g < |s.checks| ==>
          && t.checks[g].id == s.checks[g].id && t.checks[g].draft == s.checks[g].draft
          && (s.checks[g].phase.Passed? ==> t.checks[g].phase == s.checks[g].phase))
    && s.publications <= t.publications
  }

  /** A phase change, or a verification begun on something else, keeps `g` the last one. */
  lemma {:induction false} LastBegunCarries(checks: seq<Check>, later: seq<Check>, g: nat, id: ToolId, version: nat)
    requires LastBegun(checks, g, id, version) && |checks| <= |later|
    requires forall h :: 0 <= h < |checks| ==> later[h].id == checks[h].id && later[h].draft == checks[h].draft
    requires forall h :: |checks| <= h < |later| ==> !(later[h].id == id && later[h].draft.version == version)
    ensures LastBegun(later, g, id, version)
  {}

  /** An untouched draft keeps its mark's meaning. */
  lemma {:induction false} MarkCarries(s: State, t: State, id: ToolId)
    requires id in s.drafts && MarkOk(s, id) && id in t.drafts && t.drafts[id] == s.drafts[id]
    requires |s.checks| <= |t.checks|
    requires forall h :: 0 <= h < |s.checks| ==> t.checks[h].id == s.checks[h].id && t.checks[h].draft == s.checks[h].draft
    requires forall h :: |s.checks| <= h < |t.checks| ==> t.checks[h].id != id
    requires s.drafts[id].mark.Running? ==> !t.checks[s.drafts[id].mark.generation].phase.Passed?
    requires s.drafts[id].mark.Verified? ==>
               t.checks[s.drafts[id].mark.generation].phase == s.checks[s.drafts[id].mark.generation].phase
    ensures MarkOk(t, id)
  {
    if !s.drafts[id].mark.Unverified? {
      LastBegunCarries(s.checks, t.checks, s.drafts[id].mark.generation, id, s.drafts[id].version);
    }
    hide LastBegun;
  }

  /** A failing verification touches at most its own mark. */
  lemma {:induction false} FailMarks(s: State, g: nat, id: ToolId)
    requires DraftsOk(s) && id in s.drafts && g < |s.checks| && s.checks[g].phase == Active
    ensures var t := FailStep(s, g);
            && id in t.drafts && MarkOk(t, id) && t.drafts[id] == s.drafts[id].(mark := t.drafts[id].mark)
  {
    var t := FailStep(s, g);
    var check := s.checks[g];
    assert Agrees(s, check.id, check.draft.version, check.draft.configuration, check.draft.binding);
    assert MarkOk(s, id);
    if t.drafts[id] == s.drafts[id] {
      MarkCarries(s, t, id);
    }
    hide LastBegun;
  }

  lemma {:induction false} FailGrows(s: State, g: nat)
    requires DraftsOk(s) && (g < |s.checks| ==> s.checks[g].phase == Active)
    ensures DraftsOk(FailStep(s, g)) && Grows(s, FailStep(s, g)) && FailStep(s, g).publications == s.publications
  {
    if g < |s.checks| {
      var t := FailStep(s, g);
      hide MarkOk;
      forall id | id in s.drafts
        ensures id in t.drafts && MarkOk(t, id) && t.drafts[id] == s.drafts[id].(mark := t.drafts[id].mark)
      {
        FailMarks(s, g, id);
      }
      assert t.drafts.Keys == s.drafts.Keys;
      assert |t.checks| == |s.checks| && t.checks[g] == s.checks[g].(phase := Failed);
      assert forall h :: 0 <= h < |s.checks| ==> t.checks[h] == s.checks[h] || h == g;
      hide FailStep;
    }
  }

  lemma {:induction false} BeginGrows(s: State, id: ToolId)
    requires DraftsOk(s) && id in s.drafts
    ensures DraftsOk(Begin(s, id)) && Grows(s, Begin(s, id))
  {
    var begun := Begin(s, id);
    forall d | d in begun.drafts ensures MarkOk(begun, d) {
      if d != id {
        assert MarkOk(s, d);
        MarkCarries(s, begun, d);
      }
    }
    hide MarkOk;
    hide LastBegun;
  }

  lemma {:induction false} VerifyStartGrows(s: State, id: ToolId, version: nat, live: bool, bound: Option<Binding>)
    requires DraftsOk(s)
    ensures DraftsOk(VerifyStartStep(s, id, version, live, bound))
    ensures Grows(s, VerifyStartStep(s, id, version, live, bound))
    ensures VerifyStartStep(s, id, version, live, bound).publications == s.publications
  {
    if !s.closed && Current(s, id, version) {
      var g := |s.checks|;
      var begun := Begin(s, id);
      BeginGrows(s, id);
      FailGrows(begun, g);
      GrowsTwice(s, begun, FailStep(begun, g));
      hide DraftsOk;
      hide Grows;
      hide FailStep;
    } else {
      assert Grows(s, s);
    }
  }

  lemma {:induction false} VerifyEndGrows(s: State, g: nat, answered: bool, live: bool, bound: Option<Binding>)
    requires DraftsOk(s)
    ensures DraftsOk(VerifyEndStep(s, g, answered, live, bound))
    ensures Grows(s, VerifyEndStep(s, g, answered, live, bound))
    ensures VerifyEndStep(s, g, answered, live, bound).publications == s.publications
  {
    if g < |s.checks| && s.checks[g].phase == Active {
      if !answered || !Holds(s, g, live, bound) {
        FailGrows(s, g);
      } else {
        var t := VerifyEndStep(s, g, answered, live, bound);
        forall id | id in t.drafts ensures MarkOk(t, id) {
          assert MarkOk(s, id);
        }
      }
    }
  }

  lemma {:induction false} SaveGrows(
    s: State, id: ToolId, expected: nat, configuration: Configuration, bound: Option<Binding>)
    requires DraftsOk(s)
    ensures DraftsOk(SaveStep(s, id, expected, configuration, bound))
    ensures Grows(s, SaveStep(s, id, expected, configuration, bound))
    ensures SaveStep(s, id, expected, configuration, bound).publications == s.publications
  {
    var t := SaveStep(s, id, expected, configuration, bound);
    forall d | d in t.drafts ensures MarkOk(t, d) {
      if d in s.drafts {
        assert MarkOk(s, d);
      }
    }
  }

  lemma {:induction false} PublicationsCarry(s: State, t: State)
    requires PublicationsOk(s) && Grows(s, t) && t.publications == s.publications
    ensures PublicationsOk(t)
  {
    forall i | 0 <= i < |t.publications| ensures Certified(t, t.publications[i]) {
      assert Certified(s, s.publications[i]);
      var p := s.publications[i];
      var g :| 0 <= g < |s.checks| && s.checks[g].id == p.id && s.checks[g].draft.version == p.draftVersion
               && s.checks[g].draft.configuration == p.configuration
               && s.checks[g].draft.binding == p.binding && s.checks[g].phase == Passed(p.binding);
      assert t.checks[g].phase == Passed(p.binding);
    }
  }

  /** Publishing appends one certified entry; nothing else moves. */
  lemma {:induction false} PublishKeeps(s: State, id: ToolId, version: nat, bound: Option<Binding>)
    requires Inv(s)
    ensures Inv(PublishStep(s, id, version, bound)) && Grows(s, PublishStep(s, id, version, bound))
  {
    hide PublicationsOf;
    if Publishable(s, id, version, bound) && !AlreadyPublished(s, id, version) {
      var p := Publication(id, |PublicationsOf(s.publications, id)| + 1, |s.publications|,
                           s.drafts[id].configuration, s.drafts[id].binding, version);
      var t := s.(publications := s.publications + [p]);
      hide AlreadyPublished;
      PublishedIsCertified(s, t, id, p);
      DraftsCarry(s, t);
      AppendGrows(s, t);
      hide DraftsOk;
      hide PublicationsOk;
      hide Certified;
      hide Grows;
      AppendKeeps(s, t, p);
    } else {
      hide AlreadyPublished;
      hide DraftsOk;
      hide PublicationsOk;
      assert PublishStep(s, id, version, bound) == s;
    }
  }

  lemma {:induction false} AppendGrows(s: State, t: State)
    requires t.drafts == s.drafts && t.checks == s.checks && s.publications <= t.publications
    ensures Grows(s, t)
  {}

  lemma {:induction false} PublishedIsCertified(s: State, t: State, id: ToolId, p: Publication)
    requires Inv(s) && t.checks == s.checks && id in s.drafts && s.drafts[id].mark.Verified?
    requires p.id == id && p.draftVersion == s.drafts[id].version
    requires p.configuration == s.drafts[id].configuration && p.binding == s.drafts[id].binding
    ensures Certified(t, p)
  {
    assert MarkOk(s, id);
    var g := s.drafts[id].mark.generation;
    assert Agrees(s, id, s.checks[g].draft.version, s.checks[g].draft.configuration, s.checks[g].draft.binding);
    assert s.checks[g].phase == Passed(p.binding);
  }

  lemma {:induction false} DraftsCarry(s: State, t: State)
    requires DraftsOk(s) && t.drafts == s.drafts && t.checks == s.checks
    ensures DraftsOk(t)
  {
    forall id | id in t.drafts ensures MarkOk(t, id) {
      assert MarkOk(s, id);
    }
  }

  lemma {:induction false} AppendKeeps(s: State, t: State, p: Publication)
    requires PublicationsOk(s) && t.drafts == s.drafts && t.checks == s.checks
    requires t.publications == s.publications + [p] && p.revision == |s.publications|
    requires p.version == |PublicationsOf(s.publications, p.id)| + 1
    requires Agrees(t, p.id, p.draftVersion, p.configuration, p.binding) && Certified(t, p)
    requires Current(s, p.id, p.draftVersion) && !AlreadyPublished(s, p.id, p.draftVersion)
    ensures PublicationsOk(t)
  {
    hide PublicationsOf;
    var n := |s.publications|;
    assert s.publications[..n] == s.publications;
    forall i | 0 <= i < |t.publications|
      ensures Certified(t, t.publications[i]) && t.publications[..i] == s.publications[..i]
    {
      if i < n {
        assert Certified(s, s.publications[i]);
      }
    }
    hide Certified;
  }

  lemma {:induction false} ReopenKeeps(s: State)
    requires Inv(s)
    ensures Inv(ReopenStep(s)) && Grows(s, ReopenStep(s))
  {
    var t := ReopenStep(s);
    forall id | id in t.drafts ensures MarkOk(t, id) {
      assert MarkOk(s, id);
      MarkCarries(s, t, id);
    }
    hide MarkOk;
    hide LastBegun;
    hide PublicationsOk;
    PublicationsCarry(s, t);
  }

  lemma {:induction false} StepKeeps(s: State, e: Event)
    requires Inv(s)
    ensures Inv(Step(s, e)) && Grows(s, Step(s, e))
  {
    var t := Step(s, e);
    match e
    case Save(id, expected, configuration, bound) =>
      SaveGrows(s, id, expected, configuration, bound);
      PublicationsCarry(s, t);
    case VerifyStart(id, version, live, bound) =>
      VerifyStartGrows(s, id, version, live, bound);
      PublicationsCarry(s, t);
    case VerifyEnd(g, answered, live, bound) =>
      VerifyEndGrows(s, g, answered, live, bound);
      PublicationsCarry(s, t);
    case Publish(id, version, bound) => PublishKeeps(s, id, version, bound);
    case Close =>
      DraftsCarry(s, t);
      PublicationsCarry(s, t);
    case Reopen => ReopenKeeps(s);
  }

  lemma {:induction false} GrowsTwice(s: State, t: State, u: State)
    requires Grows(s, t) && Grows(t, u)
    ensures Grows(s, u)
  {}

  lemma {:induction false} RunKeeps(s: State, events: seq<Event>)
    requires Inv(s)
    ensures Inv(Run(s, events)) && Grows(s, Run(s, events))
    decreases |events|
  {
    if events != [] {
      StepKeeps(s, events[0]);
      RunKeeps(Step(s, events[0]), events[1..]);
      GrowsTwice(s, Step(s, events[0]), Run(s, events));
    }
  }

  // ---------------------------------------------------------------- verification fencing

  /** A draft marked verified was checked by that verification, on that very draft version, with the
      binding matching at completion, and no later verification of the version has begun; across any
      number of restarts. */
  lemma {:induction false} VerifiedMarkIsEarned(events: seq<Event>, t: State, id: ToolId)
    requires t == Run(EMPTY, events) && id in t.drafts && t.drafts[id].mark.Verified?
    ensures var g := t.drafts[id].mark.generation;
            && g < |t.checks|
            && t.checks[g].id == id
            && t.checks[g].draft.version == t.drafts[id].version
            && t.checks[g].draft.configuration == t.drafts[id].configuration
            && t.checks[g].phase == Passed(t.drafts[id].binding)
            && LastBegun(t.checks, g, id, t.drafts[id].version)
  {
    RunKeeps(EMPTY, events);
    assert MarkOk(t, id);
  }

  /** The end of a verification changes a draft only if its own mark still stands there, and then
      only that mark: a newer verification, a newer version and a newer mark are never overwritten. */
  lemma {:induction false} EndTouchesOnlyItsOwnMark(
    s: State, g: nat, answered: bool, live: bool, bound: Option<Binding>, id: ToolId)
    requires Inv(s) && id in s.drafts && g < |s.checks|
    ensures var t := VerifyEndStep(s, g, answered, live, bound);
            && id in t.drafts
            && t.drafts[id] == s.drafts[id].(mark := t.drafts[id].mark)
            && (t.drafts[id].mark != s.drafts[id].mark ==>
                  s.drafts[id].mark == Running(g) && t.drafts[id].mark in {Verified(g), Unverified})
            && (t.drafts[id].mark == Verified(g) && s.drafts[id].mark != Verified(g) ==>
                  answered && live && bound == Some(s.drafts[id].binding))
  {
    assert MarkOk(s, id);
    assert Agrees(s, s.checks[g].id, s.checks[g].draft.version, s.checks[g].draft.configuration, s.checks[g].draft.binding);
  }

  // ---------------------------------------------------------------- the publication log

  lemma {:induction false} PublicationsOfCount(publications: seq<Publication>, id: ToolId, i: nat)
    requires i < |publications| && publications[i].id == id
    ensures |PublicationsOf(publications[..i], id)| < |PublicationsOf(publications, id)|
    ensures PublicationsOf(publications, id)[|PublicationsOf(publications[..i], id)|] == publications[i]
  {
    var n := |publications| - 1;
    if i < n {
      assert publications[..n][..i] == publications[..i];
      PublicationsOfCount(publications[..n], id, i);
    }
  }

  /** The position in the log of the `k`th publication of a tool. */
  lemma {:induction false} PositionOf(publications: seq<Publication>, id: ToolId, k: nat) returns (i: nat)
    requires k < |PublicationsOf(publications, id)|
    ensures i < |publications| && publications[i] == PublicationsOf(publications, id)[k]
    ensures publications[i].id == id && |PublicationsOf(publications[..i], id)| == k
  {
    var n := |publications| - 1;
    if k < |PublicationsOf(publications[..n], id)| {
      i := PositionOf(publications[..n], id, k);
      assert publications[..n][..i] == publications[..i];
    } else {
      i := n;
    }
  }

  lemma {:induction false} LogPosition(s: State, id: ToolId, k: nat) returns (i: nat)
    requires PublicationsOk(s) && k < |PublicationsOf(s.publications, id)|
    ensures i < |s.publications| && s.publications[i] == PublicationsOf(s.publications, id)[k]
    ensures s.publications[i].id == id && |PublicationsOf(s.publications[..i], id)| == k
    ensures s.publications[i].version == k + 1
  {
    hide Certified;
    hide Agrees;
    i := PositionOf(s.publications, id, k);
    hide PublicationsOf;
  }

  lemma {:induction false} PositionsOrdered(publications: seq<Publication>, id: ToolId, a: nat, b: nat)
    requires a < |publications| && b < |publications| && publications[a].id == id && publications[b].id == id
    requires |PublicationsOf(publications[..a], id)| < |PublicationsOf(publications[..b], id)|
    ensures a < b
  {
    if b < a {
      assert publications[..a][..b] == publications[..b];
      PublicationsOfCount(publications[..a], id, b);
    }
  }

  /** Per tool, the publication versions are exactly 1..n in order, and the draft versions they
      publish strictly increase. */
  lemma {:induction false} PublicationLog(events: seq<Event>, t: State, id: ToolId, j: nat, k: nat)
    requires t == Run(EMPTY, events) && j <= k < |PublicationsOf(t.publications, id)|
    ensures PublicationsOf(t.publications, id)[k].version == k + 1
    ensures j < k ==> PublicationsOf(t.publications, id)[j].draftVersion < PublicationsOf(t.publications, id)[k].draftVersion
  {
    RunKeeps(EMPTY, events);
    hide Run;
    hide DraftsOk;
    hide Grows;
    var a := LogPosition(t, id, j);
    var b := LogPosition(t, id, k);
    hide Certified;
    hide Agrees;
    if j < k {
      PositionsOrdered(t.publications, id, a, b);
    }
    hide PublicationsOf;
  }

  /** Whatever was published had passed a verification of exactly that configuration and binding. */
  lemma {:induction false} PublishedWasVerified(events: seq<Event>, t: State, i: nat)
    requires t == Run(EMPTY, events) && i < |t.publications|
    ensures Certified(t, t.publications[i])
  {
    RunKeeps(EMPTY, events);
  }

  /** Of all publications of a tool at most one can be resolved, in any state. */
  lemma {:induction false} AtMostOneResolvable(
    events: seq<Event>, t: State, i: nat, j: nat, a: Option<Binding>, b: Option<Binding>)
    requires t == Run(EMPTY, events) && i < |t.publications| && j < |t.publications|
    requires t.publications[i].id == t.publications[j].id
    requires Resolvable(t, t.publications[i], a) && Resolvable(t, t.publications[j], b)
    ensures i == j
  {
    RunKeeps(EMPTY, events);
  }

  /** A publication is resolvable only while its draft version is the stored one: once a later draft
      is saved, no sequence of saves, verifications, publications and restarts brings it back. */
  lemma {:induction false} SupersededForEver(
    events: seq<Event>, t: State, later: seq<Event>, i: nat, bound: Option<Binding>)
    requires t == Run(EMPTY, events) && i < |t.publications|
    requires VersionOf(t, t.publications[i].id) > t.publications[i].draftVersion
    ensures !Resolvable(Run(t, later), t.publications[i], bound)
    ensures i < |Run(t, later).publications| && Run(t, later).publications[i] == t.publications[i]
  {
    RunKeeps(EMPTY, events);
    RunKeeps(t, later);
  }

  // ---------------------------------------------------------------- the catalogue object

  class ApiToolCatalog {
    var drafts: map<ToolId, Draft>
    var publications: seq<Publication>
    var closed: bool
    /** Verifications begun so far; a generation is its index. */
    var checks: seq<Check>

    ghost function View(): State
      reads this
    {
      State(drafts, checks, publications, closed)
    }

    constructor ()
      ensures View() == EMPTY
    {
      drafts, publications, closed, checks := map[], [], false, [];
    }

    /** One transaction: the next version, or the stored draft when this very save already happened. */
    method Save(id: ToolId, expected: nat, configuration: Configuration, bound: Option<Binding>)
      returns (r: Result<Draft, Error>)
      modifies this`drafts
      ensures View() == SaveStep(old(View()), id, expected, configuration, bound)
      ensures r.Ok? ==> id in drafts && r.value == drafts[id] && r.value.version == expected + 1
                        && r.value.configuration == configuration && bound == Some(r.value.binding)
      ensures r.Err? ==> drafts == old(drafts)
      ensures r.Err? <==> closed || bound.None?
                          || (VersionOf(old(View()), id) != expected
                              && !(Current(old(View()), id, expected + 1)
                                   && old(drafts)[id].binding == bound.value
                                   && old(drafts)[id].configuration == configuration))
    {
      if closed {
        return Err(Closed);
      }
      if bound.None? {
        return Err(BindingRefused);
      }
      var version := if id in drafts then drafts[id].version else 0;
      if version != expected {
        if version == expected + 1 && drafts[id].binding == bound.value && drafts[id].configuration == configuration {
          return Ok(drafts[id]);
        }
        return Err(VersionConflict);
      }
      var draft := Draft(expected + 1, configuration, bound.value, Unverified);
      drafts := drafts[id := draft];
      return Ok(draft);
    }

    /** The fence of verification `g`. */
    predicate Fence(g: nat, live: bool, bound: Option<Binding>)
      requires g < |checks|
      reads this
    {
      var check := checks[g];
      && live && !closed
      && check.id in drafts && drafts[check.id].version == check.draft.version
      && drafts[check.id].mark == Running(g)
      && bound == Some(check.draft.binding)
    }

    method Fail(g: nat)
      requires g < |checks|
      modifies this`drafts, this`checks
      ensures View() == FailStep(old(View()), g)
    {
      var check := checks[g];
      checks := checks[g := check.(phase := Failed)];
      if !closed && check.id in drafts && drafts[check.id].version == check.draft.version
         && drafts[check.id].mark == Running(g)
      {
        drafts := drafts[check.id := check.draft.(mark := Unverified)];
      }
    }

    /** Beginning a verification invalidates earlier proof, then the fence is checked for the first time. */
    method VerifyStart(id: ToolId, version: nat, live: bool, bound: Option<Binding>) returns (r: Result<nat, Error>)
      modifies this`drafts, this`checks
      ensures View() == VerifyStartStep(old(View()), id, version, live, bound)
      ensures r.Ok? ==> r.value == |old(checks)| && Current(View(), id, version) && drafts[id].mark == Running(r.value)
      ensures r.Err? && !closed && Current(old(View()), id, version) ==> drafts[id].mark == Unverified
      ensures r.Ok? <==> !closed && id in old(drafts) && old(drafts)[id].version == version
                         && live && bound == Some(old(drafts)[id].binding)
    {
      if closed {
        return Err(Closed);
      }
      if id !in drafts || drafts[id].version != version {
        return Err(if id in drafts then VersionConflict else NotFound);
      }
      var draft := drafts[id];
      var g := |checks|;
      drafts := drafts[id := draft.(mark := Running(g))];
      checks := checks + [Check(id, draft, Active)];
      if !Fence(g, live, bound) {
        Fail(g);
        return Err(NotVerified);
      }
      return Ok(g);
    }

    method VerifyEnd(g: nat, answered: bool, live: bool, bound: Option<Binding>) returns (ok: bool)
      modifies this`drafts, this`checks
      ensures View() == VerifyEndStep(old(View()), g, answered, live, bound)
      ensures ok <==> && g < |checks| && old(checks)[g].phase == Active && answered && live && !closed
                      && checks[g].id in old(drafts) && old(drafts)[checks[g].id].version == checks[g].draft.version
                      && old(drafts)[checks[g].id].mark == Running(g) && bound == Some(checks[g].draft.binding)
      ensures ok ==> g < |checks| && checks[g].phase.Passed?
                     && checks[g].id in drafts && drafts[checks[g].id].mark == Verified(g)
    {
      if g >= |checks| || checks[g].phase != Active {
        return false;
      }
      if !answered || !Fence(g, live, bound) {
        Fail(g);
        return false;
      }
      var check := checks[g];
      drafts := drafts[check.id := check.draft.(mark := Verified(g))];
      checks := checks[g := check.(phase := Passed(bound.value))];
      return true;
    }

    /** One transaction: the entry of this draft version, created at most once. */
    method Publish(id: ToolId, version: nat, bound: Option<Binding>) returns (r: Result<Publication, Error>)
      modifies this`publications
      ensures View() == PublishStep(old(View()), id, version, bound)
      ensures r.Ok? <==> Publishable(old(View()), id, version, bound)
      ensures r.Ok? ==> r.value in publications && r.value.id == id && r.value.draftVersion == version
    {
      if closed {
        return Err(Closed);
      }
      if id !in drafts || drafts[id].version != version {
        return Err(if id in drafts then VersionConflict else NotFound);
      }
      var draft := drafts[id];
      if !draft.mark.Verified? || bound != Some(draft.binding) {
        return Err(NotVerified);
      }
      var count := 0;
      for i := 0 to |publications|
        invariant count == |PublicationsOf(publications[..i], id)|
        invariant forall k :: 0 <= k < i ==> !(publications[k].id == id && publications[k].draftVersion == version)
      {
        assert publications[..i + 1][..i] == publications[..i];
        if publications[i].id == id {
          if publications[i].draftVersion == version {
            return Ok(publications[i]);
          }
          count := count + 1;
        }
      }
      assert publications[..|publications|] == publications;
      var entry := Publication(id, count + 1, |publications|, draft.configuration, draft.binding, version);
      publications := publications + [entry];
      return Ok(entry);
    }

    /** One entry per published tool: its newest publication, in the order of the first ones. */
    method List() returns (entries: seq<Publication>)
      ensures forall i, j :: 0 <= i < j < |entries| ==> entries[i].id != entries[j].id
      ensures forall i, j :: 0 <= i < j < |entries| ==>
                FirstAt(publications, entries[i].id) < FirstAt(publications, entries[j].id)
      ensures forall i :: 0 <= i < |publications| ==> Listed(entries, publications[i].id)
      ensures forall k :: 0 <= k < |entries| ==> NewestOf(publications, entries[k].id) == Some(entries[k])
    {
      var order: seq<ToolId> := [];
      var newest: map<ToolId, Publication> := map[];
      assert Collected([], order, newest);
      hide *;
      for i := 0 to |publications|
        invariant Collected(publications[..i], order, newest)
      {
        var p := publications[i];
        assert publications[..i + 1] == publications[..i] + [p];
        CollectedAppend(publications[..i], order, newest, p);
        if p.id !in newest {
          order := order + [p.id];
        }
        newest := newest[p.id := p];
      }
      assert publications[..|publications|] == publications;
      CollectedInside(publications, order, newest);
      entries := Values(order, newest);
      CollectedEntries(publications, order, newest, entries);
    }

    /** The receipt a reference names, while its draft version is current, verified and bound. */
    method Resolve(id: ToolId, version: nat, revision: nat, bound: Option<Binding>) returns (r: Result<Publication, Error>)
      ensures r.Ok? ==> r.value in publications && Resolvable(View(), r.value, bound)
                        && r.value.id == id && r.value.version == version && r.value.revision == revision
      ensures r.Err? ==> forall i :: 0 <= i < |publications| && publications[i].id == id
                                     && publications[i].version == version && publications[i].revision == revision ==>
                           !Resolvable(View(), publications[i], bound)
                           || exists k :: 0 <= k < i && publications[k].id == id
                                          && publications[k].version == version && publications[k].revision == revision
    {
      if closed {
        return Err(Closed);
      }
      for i := 0 to |publications|
        invariant forall k :: 0 <= k < i ==>
                    !(publications[k].id == id && publications[k].version == version && publications[k].revision == revision)
      {
        var p := publications[i];
        if p.id == id && p.version == version && p.revision == revision {
          if id in drafts && drafts[id].version == p.draftVersion && drafts[id].mark.Verified? && bound == Some(p.binding) {
            return Ok(p);
          }
          return Err(NotVerified);
        }
      }
      return Err(Unresolved);
    }

    /** The catalogue of the next process over the same tables. */
    method Reopen()
      modifies this`checks, this`closed
      ensures View() == Step(old(View()), Event.Reopen)
    {
      checks := Died(checks);
      closed := false;
    }

    method Close()
      modifies this`closed
      ensures View() == Step(old(View()), Event.Close)
    {
      closed := true;
    }
  }
}

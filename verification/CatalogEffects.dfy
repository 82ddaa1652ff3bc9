/** What each operation of the API tool catalogue (server/api-tool-catalog.ts) does, said of the drafts, the
    verifications and the publications themselves, and that a tool can go the whole way. */
module CatalogEffects {
  import opened Options
  import opened ApiToolCatalog

  /** Only the draft of this tool may differ. */
  ghost predicate OtherDraftsStay(s: State, t: State, id: ToolId) {
    forall other :: other != id ==>
      (other in t.drafts <==> other in s.drafts) && (other in s.drafts ==> t.drafts[other] == s.drafts[other])
  }

  // ---------------------------------------------------------------- saving

  /** A save is executed exactly when it names the stored version and the configuration can be bound; it stores
      the next version, bound to what the credential service computed, without any verification. */
  lemma {:induction false} SavingExactly(
    s: State, id: ToolId, expected: nat, configuration: Configuration, bound: Option<Binding>)
    ensures var t := SaveStep(s, id, expected, configuration, bound);
            var saves := !s.closed && bound.Some?
                         && if id in s.drafts then s.drafts[id].version == expected else expected == 0;
            && (!saves ==> t == s)
            && (saves ==>
                  && t == s.(drafts := t.drafts) && OtherDraftsStay(s, t, id) && id in t.drafts
                  && t.drafts[id] == Draft(expected + 1, configuration, bound.value, Unverified))
  {}

  // ---------------------------------------------------------------- verifying

  /** A verification begins on the stored version, under a generation of its own that replaces any earlier
      proof; it goes on exactly if the first look at its fence holds, and is withdrawn otherwise. */
  lemma {:induction false} BeginningExactly(s: State, id: ToolId, version: nat, live: bool, bound: Option<Binding>)
    ensures var t := VerifyStartStep(s, id, version, live, bound);
            var begins := !s.closed && id in s.drafts && s.drafts[id].version == version;
            var g := |s.checks|;
            && (!begins ==> t == s)
            && (begins ==>
                  var goesOn := live && bound == Some(s.drafts[id].binding);
                  && t == s.(drafts := t.drafts, checks := t.checks) && OtherDraftsStay(s, t, id) && id in t.drafts
                  && t.checks == s.checks + [Check(id, s.drafts[id], if goesOn then Active else Failed)]
                  && t.drafts[id] == s.drafts[id].(mark := if goesOn then Running(g) else Unverified))
  {}

  /** The draft a check works on is still there, unchanged, under the check's own mark. */
  ghost predicate OwnsItsDraft(s: State, g: nat) {
    && g < |s.checks| && s.checks[g].id in s.drafts
    && s.drafts[s.checks[g].id].version == s.checks[g].draft.version
    && s.drafts[s.checks[g].id].mark == Running(g)
  }

  /** A check verifies its draft exactly if it was answered while it is live, the catalogue is open, its draft
      is still its own and the configuration is still bound as it was; otherwise its own mark is withdrawn,
      unless the catalogue is closed, and every other draft and mark stays. */
  lemma {:induction false} EndingExactly(s: State, g: nat, answered: bool, live: bool, bound: Option<Binding>)
    requires g < |s.checks|
    ensures var t := VerifyEndStep(s, g, answered, live, bound);
            var (id, draft) := (s.checks[g].id, s.checks[g].draft);
            var active := s.checks[g].phase == Active;
            var verifies := active && answered && live && !s.closed && OwnsItsDraft(s, g) && bound == Some(draft.binding);
            && (!active ==> t == s)
            && (active ==> t == s.(drafts := t.drafts, checks := t.checks))
            && OtherDraftsStay(s, t, id)
            && (verifies <==> active && t.checks[g].phase != Failed)
            && (verifies ==>
                  && id in t.drafts && t.drafts[id] == draft.(mark := Verified(g))
                  && t.checks == s.checks[g := Check(id, draft, Passed(draft.binding))])
            && (active && !verifies ==>
                  && t.checks == s.checks[g := Check(id, draft, Failed)]
                  && if !s.closed && OwnsItsDraft(s, g)
                     then id in t.drafts && t.drafts[id] == draft.(mark := Unverified) else t.drafts == s.drafts)
  {}

  // ---------------------------------------------------------------- publishing

  /** Publishing appends exactly a verified draft whose binding still holds, once per version, with its own
      configuration and binding, under the next number of its tool and a revision no other entry has. */
  lemma {:induction false} PublishingExactly(s: State, id: ToolId, version: nat, bound: Option<Binding>)
    ensures var t := PublishStep(s, id, version, bound);
            var publishes := !s.closed && id in s.drafts && s.drafts[id].version == version
              && s.drafts[id].mark.Verified? && bound == Some(s.drafts[id].binding)
              && forall i :: 0 <= i < |s.publications| ==>
                   !(s.publications[i].id == id && s.publications[i].draftVersion == version);
            && (!publishes ==> t == s)
            && (publishes ==>
                  && t == s.(publications := t.publications) && |t.publications| == |s.publications| + 1
                  && t.publications[..|s.publications|] == s.publications
                  && var p := t.publications[|s.publications|];
                     && p.id == id && p.draftVersion == version && p.revision == |s.publications|
                     && p.configuration == s.drafts[id].configuration && p.binding == s.drafts[id].binding)
  {
    hide PublicationsOf;
  }

  /** The entries of one tool, in the order of the log. */
  lemma {:induction false} EntriesOfATool(publications: seq<Publication>, p: Publication, id: ToolId)
    ensures PublicationsOf([], id) == []
    ensures PublicationsOf(publications + [p], id) == PublicationsOf(publications, id) + if p.id == id then [p] else []
  {
    assert (publications + [p])[..|publications|] == publications;
  }

  /** No two entries of the log share a revision. */
  lemma {:induction false} RevisionsAreUnique(events: seq<Event>, t: State, i: nat, j: nat)
    requires t == Run(EMPTY, events) && i < j < |t.publications|
    ensures t.publications[i].revision != t.publications[j].revision
  {
    RunKeeps(EMPTY, events);
    hide Run;
    hide DraftsOk;
    hide Certified;
    hide Agrees;
    hide PublicationsOf;
  }

  /** The newest entry of a tool is its last one in the log. */
  lemma {:induction false} NewestIsTheLast(publications: seq<Publication>, id: ToolId)
    ensures match NewestOf(publications, id)
            case None => forall i :: 0 <= i < |publications| ==> publications[i].id != id
            case Some(p) => exists i :: 0 <= i < |publications| && publications[i] == p && p.id == id
                              && forall j :: i < j < |publications| ==> publications[j].id != id
  {
    if publications != [] {
      var init := publications[..|publications| - 1];
      NewestIsTheLast(init, id);
      EntriesOfATool(init, publications[|publications| - 1], id);
      assert publications == init + [publications[|publications| - 1]];
      if publications[|publications| - 1].id != id && NewestOf(init, id).Some? {
        var p := NewestOf(init, id).value;
        var i :| 0 <= i < |init| && init[i] == p && p.id == id && forall j :: i < j < |init| ==> init[j].id != id;
        assert publications[i] == p;
      }
      hide PublicationsOf;
    }
  }

  /** `FirstAt` is the place of the first entry of a tool. */
  lemma {:induction false} FirstIsTheFirst(publications: seq<Publication>, id: ToolId)
    ensures FirstAt(publications, id) <= |publications|
    ensures FirstAt(publications, id) < |publications| ==> publications[FirstAt(publications, id)].id == id
    ensures forall j :: 0 <= j < FirstAt(publications, id) ==> publications[j].id != id
  {
    if publications != [] && publications[0].id != id { FirstIsTheFirst(publications[1..], id); }
  }

  /** A publication resolves while the catalogue is open, its draft version is the stored one and verified, and
      its own binding still holds. */
  lemma {:induction false} ResolvingExactly(s: State, p: Publication, bound: Option<Binding>)
    ensures Resolvable(s, p, bound) <==>
              && !s.closed && p.id in s.drafts && s.drafts[p.id].version == p.draftVersion
              && s.drafts[p.id].mark.Verified? && bound.Some? && bound.value == p.binding
  {}

  /** Closing keeps the tables; reopening keeps them too, and the checks that were running have failed. */
  lemma {:induction false} ClosingAndReopening(s: State)
    ensures Step(s, Close) == s.(closed := true)
    ensures var t := Step(s, Reopen);
            && t == s.(checks := t.checks, closed := false) && |t.checks| == |s.checks|
            && forall g :: 0 <= g < |s.checks| ==>
                 t.checks[g] == if s.checks[g].phase == Active then s.checks[g].(phase := Failed) else s.checks[g]
  {}

  // ---------------------------------------------------------------- the whole way

  lemma {:induction false} SavedAndBegun(s: State, id: ToolId, configuration: Configuration, binding: Binding)
    requires !s.closed
    ensures var (v, g) := (VersionOf(s, id), |s.checks|);
            var b := Step(Step(s, Save(id, v, configuration, Some(binding))), VerifyStart(id, v + 1, true, Some(binding)));
            b == s.(drafts := s.drafts[id := Draft(v + 1, configuration, binding, Running(g))],
                    checks := s.checks + [Check(id, Draft(v + 1, configuration, binding, Unverified), Active)])
  {
    var v := VersionOf(s, id);
    var a := Step(s, Save(id, v, configuration, Some(binding)));
    assert a == s.(drafts := s.drafts[id := Draft(v + 1, configuration, binding, Unverified)]);
    BeginningExactly(a, id, v + 1, true, Some(binding));
    hide VerifyStartStep;
  }

  lemma {:induction false} VerifiedByThen(s: State, id: ToolId, configuration: Configuration, binding: Binding, b: State)
    requires var (v, g) := (VersionOf(s, id), |s.checks|);
             b == s.(drafts := s.drafts[id := Draft(v + 1, configuration, binding, Running(g))],
                     checks := s.checks + [Check(id, Draft(v + 1, configuration, binding, Unverified), Active)])
    requires !s.closed
    ensures var (v, g) := (VersionOf(s, id), |s.checks|);
            var c := Step(b, VerifyEnd(g, true, true, Some(binding)));
            && c == b.(drafts := c.drafts, checks := c.checks)
            && id in c.drafts && c.drafts[id] == Draft(v + 1, configuration, binding, Verified(g))
  {
    EndingExactly(b, |s.checks|, true, true, Some(binding));
    hide VerifyEndStep;
  }

  /** From any open state, saving the next version of a tool, verifying it and publishing it with the same
      binding yields an entry of that configuration that resolves. */
  lemma {:induction false} TheWholeWay(s: State, id: ToolId, configuration: Configuration, binding: Binding)
    requires Inv(s) && !s.closed
    ensures var (v, g) := (VersionOf(s, id), |s.checks|);
            var t := Run(s, [Save(id, v, configuration, Some(binding)), VerifyStart(id, v + 1, true, Some(binding)),
                             VerifyEnd(g, true, true, Some(binding)), Publish(id, v + 1, Some(binding))]);
            && |t.publications| == |s.publications| + 1
            && var p := t.publications[|s.publications|];
               && p.id == id && p.draftVersion == v + 1 && p.configuration == configuration && p.binding == binding
               && Resolvable(t, p, Some(binding))
  {
    var (v, g) := (VersionOf(s, id), |s.checks|);
    NothingPublishedYet(s, id);
    SavedAndBegun(s, id, configuration, binding);
    var b := Step(Step(s, Save(id, v, configuration, Some(binding))), VerifyStart(id, v + 1, true, Some(binding)));
    VerifiedByThen(s, id, configuration, binding, b);
    var c := Step(b, VerifyEnd(g, true, true, Some(binding)));
    PublishingExactly(c, id, v + 1, Some(binding));
    FourSteps(s, Save(id, v, configuration, Some(binding)), VerifyStart(id, v + 1, true, Some(binding)),
              VerifyEnd(g, true, true, Some(binding)), Publish(id, v + 1, Some(binding)));
    assert Step(c, Publish(id, v + 1, Some(binding))) == PublishStep(c, id, v + 1, Some(binding));
    hide Inv;
    hide Run;
    hide Step;
    hide PublishStep;
  }

  lemma {:induction false} NothingPublishedYet(s: State, id: ToolId)
    requires Inv(s)
    ensures forall i :: 0 <= i < |s.publications| && s.publications[i].id == id ==>
              s.publications[i].draftVersion <= VersionOf(s, id)
  {
    hide DraftsOk;
    hide Certified;
    hide PublicationsOf;
  }

  lemma {:induction false} FourSteps(s: State, e: Event, f: Event, g: Event, h: Event)
    ensures Run(s, [e, f, g, h]) == Step(Step(Step(Step(s, e), f), g), h)
  {
    hide Step;
    assert [e, f, g, h][1..] == [f, g, h] && [f, g, h][1..] == [g, h] && [g, h][1..] == [h] && [h][1..] == [];
    var (a, b, c) := (Step(s, e), Step(Step(s, e), f), Step(Step(Step(s, e), f), g));
    assert Run(c, [h]) == Run(Step(c, h), []);
    assert Run(b, [g, h]) == Run(c, [h]);
    assert Run(a, [f, g, h]) == Run(b, [g, h]);
  }
}

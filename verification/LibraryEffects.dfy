/** What the agent library (server/agent-library-store.ts) keeps of a request and answers to it, said of the
    requests, the drafts and the published versions themselves. */
module LibraryEffects {
  import opened Options
  import opened AgentLibraryStore

  // ---------------------------------------------------------------- what is stored now

  /** The profile has a draft that is not published, with this row. */
  ghost predicate HasDraft(db: Db, owner: Owner, profileId: ProfileId, row: DraftRow) {
    (owner, profileId) in db.drafts && db.drafts[(owner, profileId)] == row && !row.published
  }

  /** The number of that draft, 0 when there is none. */
  ghost predicate IsAtDraft(db: Db, owner: Owner, profileId: ProfileId, version: nat) {
    if (owner, profileId) in db.drafts && !db.drafts[(owner, profileId)].published
    then version == db.drafts[(owner, profileId)].version else version == 0
  }

  /** The revision of the newest published version, 0 when there is none. */
  ghost predicate IsAtRevision(db: Db, owner: Owner, profileId: ProfileId, revision: nat) {
    if (owner, profileId) in db.versions && db.versions[(owner, profileId)] != []
    then revision == db.versions[(owner, profileId)][|db.versions[(owner, profileId)]| - 1].revision else revision == 0
  }

  /** The number the next draft of the profile gets: numbers go on after a publication. */
  ghost predicate IsNextNumber(db: Db, owner: Owner, profileId: ProfileId, version: nat) {
    version == 1 + if (owner, profileId) in db.drafts then db.drafts[(owner, profileId)].version else 0
  }

  /** What a reader of the drafts gets. */
  lemma {:induction false} ReadingADraft(db: Db, owner: Owner, profileId: ProfileId, row: DraftRow)
    ensures GetDraft(db, owner, profileId) == Some(row) <==> HasDraft(db, owner, profileId, row)
  {}

  // ---------------------------------------------------------------- saving a draft

  /** What a save leaves: the draft and its log entry with the text and the base that were asked, the receipt
      with the answer, and nothing else. */
  ghost predicate SavesTheDraft(db: Db, t: Db, owner: Owner, request: Request, answer: Answer)
    requires request.Draft?
  {
    && answer.Saved? && IsNextNumber(db, owner, request.profileId, answer.version)
    && answer == Saved(request.profileId, answer.version, request.expectedRevision, request.definition)
    && t == db.(
         drafts := db.drafts[(owner, request.profileId) :=
           DraftRow(answer.version, request.expectedRevision, request.definition, false)],
         saves := db.saves
           + [SaveEntry(owner, request.profileId, answer.version, request.expectedRevision, request.definition)],
         receipts := db.receipts[(owner, request.key) := Receipt(request, answer)])
  }

  /** A save under a new key is executed exactly if it names the draft and the revision the profile is at; it
      answers with, and stores, what was asked. */
  lemma {:induction false} SavingExactly(db: Db, owner: Owner, request: Request)
    requires request.Draft? && (owner, request.key) !in db.receipts
    ensures var (t, answer) := Apply(db, owner, request);
            var atDraft := IsAtDraft(db, owner, request.profileId, request.expectedVersion);
            var atRevision := IsAtRevision(db, owner, request.profileId, request.expectedRevision);
            && (answer.Ok? <==> atDraft && atRevision)
            && (!atDraft ==> answer == Err(DraftConflict))
            && (atDraft && !atRevision ==> answer == Err(RevisionConflict))
            && (answer.Err? ==> t == db)
            && (answer.Ok? ==>
                  && SavesTheDraft(db, t, owner, request, answer.value)
                  && HasDraft(t, owner, request.profileId,
                              DraftRow(answer.value.version, request.expectedRevision, request.definition, false)))
  {}

  // ---------------------------------------------------------------- the profile store

  /** One version more of this profile, and the retry of the request that made it. */
  ghost predicate AppendsTheVersion(db: Db, t: Db, owner: Owner, key: Key, request: ProfileRequest, revision: nat) {
    && t == db.(versions := t.versions, profileRetries := t.profileRetries)
    && t.profileRetries == db.profileRetries[(owner, key) := ProfileRetry(request, revision)]
    && (owner, request.profileId) in t.versions
    && (forall id :: id != (owner, request.profileId) ==>
          (id in t.versions <==> id in db.versions) && (id in db.versions ==> t.versions[id] == db.versions[id]))
    && t.versions[(owner, request.profileId)]
       == (if (owner, request.profileId) in db.versions then db.versions[(owner, request.profileId)] else [])
          + [Version(revision, request.definition)]
  }

  /** A save in the profile store under a new key appends the next revision with the text that was asked,
      exactly if it names the newest one; under a used key it answers its own request only. */
  lemma {:induction false} ProfileSavingExactly(db: Db, owner: Owner, key: Key, request: ProfileRequest)
    requires request.Save?
    ensures var (t, r) := ProfileSaveStep(db, owner, key, request);
            if (owner, key) in db.profileRetries
            then
              && t == db
              && r == if db.profileRetries[(owner, key)].request == request
                      then Ok(db.profileRetries[(owner, key)].revision) else Err(KeyConflict)
            else if IsAtRevision(db, owner, request.profileId, request.expectedRevision)
            then r == Ok(request.expectedRevision + 1)
                 && AppendsTheVersion(db, t, owner, key, request, request.expectedRevision + 1)
            else t == db && r == Err(RevisionConflict)
  {}

  /** A version imported elsewhere is appended if it is the first or the next one, only noted if it is there
      already, and refused otherwise. */
  lemma {:induction false} ProfileRestoringExactly(db: Db, owner: Owner, key: Key, request: ProfileRequest)
    requires request.Restore?
    ensures var t := ProfileRestore(db, owner, key, request);
            var id := (owner, request.profileId);
            var all := if id in db.versions then db.versions[id] else [];
            var fits := request.revision > 0
                        && (all == [] || all[|all| - 1].revision == 0 || all[|all| - 1].revision + 1 == request.revision);
            if (owner, key) in db.profileRetries then t == db
            else if Version(request.revision, request.definition) in all
            then t == db.(profileRetries := db.profileRetries[(owner, key) := ProfileRetry(request, request.revision)])
            else if fits then AppendsTheVersion(db, t, owner, key, request, request.revision)
            else t == db
  {}

  // ---------------------------------------------------------------- publishing

  /** A publication under a new key needs a draft with the number it names, and is then the save of that draft's
      text in the profile store, on the revision it was based on, under a key of its own; it answers with that
      revision and text, and the draft is no draft any more. */
  lemma {:induction false} PublishingExactly(db: Db, owner: Owner, request: Request, row: DraftRow)
    requires request.Publish? && (owner, request.key) !in db.receipts && HasDraft(db, owner, request.profileId, row)
    ensures var (t, answer) := Apply(db, owner, request);
            var save := ProfileRequest.Save(request.profileId, row.baseRevision, row.definition);
            var (saved, revision) := ProfileSaveStep(db, owner, "library:" + request.key, save);
            if row.version != request.expectedVersion then t == db && answer == Err(DraftConflict)
            else if revision.Err? then t == db && answer == Err(revision.error)
            else
              && answer == Ok(Published(request.profileId, revision.value, row.definition))
              && t == saved.(
                   drafts := db.drafts[(owner, request.profileId) := row.(published := true)],
                   publications := db.publications
                     + [PublishEntry(owner, request.profileId, row.version, revision.value, row.definition)],
                   receipts := db.receipts[(owner, request.key) := Receipt(request, answer.value)])
              && GetDraft(t, owner, request.profileId) == None
  {}

  lemma {:induction false} PublishingNeedsADraft(db: Db, owner: Owner, request: Request)
    requires request.Publish? && (owner, request.key) !in db.receipts
    requires forall row :: !HasDraft(db, owner, request.profileId, row)
    ensures Apply(db, owner, request) == (db, Err(DraftNotFound))
  {
    if (owner, request.profileId) in db.drafts {
      assert !HasDraft(db, owner, request.profileId, db.drafts[(owner, request.profileId)]);
    }
  }

  // ---------------------------------------------------------------- importing

  /** An import needs an exported version with the hash of its own text and a profile without a draft and
      without a published version; it is then the first save of that text, under a key of its own, and answers
      as that save does. */
  lemma {:induction false} ImportingExactly(db: Db, owner: Owner, request: Request)
    requires request.Import? && (owner, request.key) !in db.receipts
    ensures var (t, answer) := Apply(db, owner, request);
            var sealed := request.artifact.Exported? ==> request.artifact.sealed == request.artifact.definition;
            var taken := (exists row :: HasDraft(db, owner, request.profileId, row))
                         || ((owner, request.profileId) in db.versions && db.versions[(owner, request.profileId)] != []);
            var first := Request.Draft(request.profileId, 0, 0, "import:" + request.key, request.artifact.definition);
            var (saved, result) := Apply(db, owner, first);
            && (!sealed ==> t == db && answer == Err(HashMismatch))
            && (sealed && taken ==> t == db && answer == Err(IdentityConflict))
            && (sealed && !taken && result.Err? ==> t == db && answer == result)
            && (sealed && !taken && result.Ok? ==>
                  answer == result
                  && t == saved.(receipts := saved.receipts[(owner, request.key) := Receipt(request, result.value)]))
  {
    var row := GetDraft(db, owner, request.profileId);
    if row.Some? { assert HasDraft(db, owner, request.profileId, row.value); }
    hide ExecuteDraft;
  }

  // ---------------------------------------------------------------- what was answered is published

  /** Every answer to a save is in the log of saves. */
  ghost predicate AnswersAreLogged(db: Db) {
    forall id :: id in db.receipts && db.receipts[id].answer.Saved? ==>
      var a := db.receipts[id].answer;
      SaveEntry(id.0, a.profileId, a.version, a.baseRevision, a.definition) in db.saves
  }

  lemma {:induction false} AnswerIsLogged(db: Db, owner: Owner, request: Request)
    requires AnswersAreLogged(db)
    ensures var (t, answer) := Apply(db, owner, request);
            && AnswersAreLogged(t) && db.saves <= t.saves
            && (answer.Ok? && answer.value.Saved? ==>
                  var a := answer.value;
                  SaveEntry(owner, a.profileId, a.version, a.baseRevision, a.definition) in t.saves)
  {
    if (owner, request.key) !in db.receipts {
      if request.Draft? {
        DraftIsLogged(db, owner, request);
      } else if request.Publish? {
        PublicationLogsNothing(db, owner, request);
      } else {
        ImportIsLogged(db, owner, request);
      }
    }
    hide ExecuteDraft;
    hide ExecutePublish;
    hide ExecuteImport;
  }

  lemma {:induction false} DraftIsLogged(db: Db, owner: Owner, request: Request)
    requires AnswersAreLogged(db) && request.Draft? && (owner, request.key) !in db.receipts
    ensures var (t, answer) := Apply(db, owner, request);
            && AnswersAreLogged(t) && db.saves <= t.saves
            && (answer.Ok? ==>
                  && answer.value.Saved?
                  && var a := answer.value;
                     SaveEntry(owner, a.profileId, a.version, a.baseRevision, a.definition) in t.saves)
  {
    SavingExactly(db, owner, request);
    var (t, answer) := Apply(db, owner, request);
    hide Apply;
    if answer.Ok? {
      assert t.saves[|db.saves|] in t.saves;
      assert forall e :: e in db.saves ==> e in t.saves;
    }
  }

  lemma {:induction false} PublicationLogsNothing(db: Db, owner: Owner, request: Request)
    requires AnswersAreLogged(db) && request.Publish? && (owner, request.key) !in db.receipts
    ensures var (t, answer) := Apply(db, owner, request);
            AnswersAreLogged(t) && db.saves == t.saves && (answer.Ok? ==> !answer.value.Saved?)
  {
    hide AnswersAreLogged;
    hide ProfileSaveStep;
    hide LibraryKey;
    var draft := GetDraft(db, owner, request.profileId);
    if draft.Some? {
      var save := ProfileRequest.Save(request.profileId, draft.value.baseRevision, draft.value.definition);
      ProfileSaveKeepsTheRest(db, owner, LibraryKey(request.key), save);
    }
    var (t, answer) := Apply(db, owner, request);
    OneMoreAnswer(db, t, owner, request.key);
  }

  lemma {:induction false} ProfileSaveKeepsTheRest(db: Db, owner: Owner, key: Key, request: ProfileRequest)
    requires request.Save?
    ensures var t := ProfileSaveStep(db, owner, key, request).0;
            t == db.(versions := t.versions, profileRetries := t.profileRetries)
  {}

  lemma {:induction false} OneMoreAnswer(db: Db, t: Db, owner: Owner, key: Key)
    requires AnswersAreLogged(db) && t.saves == db.saves
    requires forall id :: id in t.receipts ==>
               (id in db.receipts && t.receipts[id] == db.receipts[id]) || !t.receipts[id].answer.Saved?
    ensures AnswersAreLogged(t)
  {}

  lemma {:induction false} ImportIsLogged(db: Db, owner: Owner, request: Request)
    requires AnswersAreLogged(db) && request.Import? && (owner, request.key) !in db.receipts
    ensures var (t, answer) := Apply(db, owner, request);
            && AnswersAreLogged(t) && db.saves <= t.saves
            && (answer.Ok? && answer.value.Saved? ==>
                  var a := answer.value;
                  SaveEntry(owner, a.profileId, a.version, a.baseRevision, a.definition) in t.saves)
  {
    var first := Request.Draft(request.profileId, 0, 0, "import:" + request.key, request.artifact.definition);
    ImportingExactly(db, owner, request);
    if (owner, first.key) !in db.receipts { DraftIsLogged(db, owner, first); }
    ReplayChangesNothing(db, owner, first);
    hide Apply;
  }

  lemma {:induction false} ReplayChangesNothing(db: Db, owner: Owner, request: Request)
    requires !Tampered(request)
    ensures (owner, request.key) in db.receipts ==>
              Apply(db, owner, request) == (db, if db.receipts[(owner, request.key)].request == request
                                                then Ok(db.receipts[(owner, request.key)].answer) else Err(KeyConflict))
  {
    hide ExecuteDraft;
    hide ExecutePublish;
    hide ExecuteImport;
  }

  lemma {:induction false} LogsGrow(db: Db, events: seq<Event>)
    requires AnswersAreLogged(db)
    ensures AnswersAreLogged(Run(db, events)) && db.saves <= Run(db, events).saves
    decreases |events|
  {
    if events != [] {
      var e := events[0];
      if e.Ask? {
        AnswerIsLogged(db, e.owner, e.request);
      } else {
        ElsewhereLogsNothing(db, e);
      }
      hide AnswersAreLogged;
      hide Step;
      hide Apply;
      StepOfAsk(db, e);
      LogsGrow(Step(db, e), events[1..]);
    }
  }

  lemma {:induction false} StepOfAsk(db: Db, e: Event)
    ensures e.Ask? ==> Step(db, e) == Apply(db, e.owner, e.request).0
  {
    hide Apply;
  }

  lemma {:induction false} ElsewhereLogsNothing(db: Db, e: Event)
    requires AnswersAreLogged(db) && e.Elsewhere?
    ensures AnswersAreLogged(Step(db, e)) && Step(db, e).saves == db.saves
  {}

  lemma {:induction false} RunOfTwo(db: Db, a: seq<Event>, b: seq<Event>)
    ensures Run(db, a + b) == Run(Run(db, a), b)
    decreases |a|
  {
    hide Step;
    if a == [] {
      assert a + b == b;
    } else {
      assert (a + b)[1..] == a[1..] + b;
      RunOfTwo(Step(db, a[0]), a[1..], b);
    }
  }

  /** What the owner was shown is what is published: if a save or an import was once answered with version v of
      a profile, on base b with text d, then any later publication of v that is executed answers with text d as
      revision b + 1, and that version can be read from the profile store. */
  lemma {:induction false} PublishesWhatWasAnswered(
    before: seq<Event>, saving: Request, later: seq<Event>, owner: Owner, request: Request)
    requires var (t, answer) := Apply(Run(EMPTY, before), owner, saving);
             && answer.Ok? && answer.value.Saved? && answer.value.profileId == request.profileId
             && request.Publish? && request.expectedVersion == answer.value.version
             && var db := Run(t, later);
                (owner, request.key) !in db.receipts && Apply(db, owner, request).1.Ok?
    ensures var (t, answer) := Apply(Run(EMPTY, before), owner, saving);
            var (u, published) := Apply(Run(t, later), owner, request);
            && published.value == Published(request.profileId, answer.value.baseRevision + 1, answer.value.definition)
            && Version(answer.value.baseRevision + 1, answer.value.definition) in VersionsOf(u, owner, request.profileId)
  {
    var db0 := Run(EMPTY, before);
    var (t, answer) := Apply(db0, owner, saving);
    var (v, base, d) := (answer.value.version, answer.value.baseRevision, answer.value.definition);
    assert AnswersAreLogged(EMPTY);
    LogsGrow(EMPTY, before);
    AnswerIsLogged(db0, owner, saving);
    hide AnswersAreLogged;
    LogsGrow(t, later);
    var db := Run(t, later);
    var entry := SaveEntry(owner, request.profileId, v, base, d);
    assert entry in db.saves;
    var events := before + ([Ask(owner, saving)] + later);
    AskThen(db0, owner, saving, later);
    RunOfTwo(EMPTY, before, [Ask(owner, saving)] + later);
    assert db == Run(EMPTY, events);
    hide Run;
    hide Apply;
    PublishesWhatWasReviewed(events, db, owner, request, entry);
  }

  lemma {:induction false} AskThen(db: Db, owner: Owner, request: Request, later: seq<Event>)
    ensures Run(db, [Ask(owner, request)] + later) == Run(Apply(db, owner, request).0, later)
  {
    hide Apply;
    assert ([Ask(owner, request)] + later)[1..] == later;
  }

  // ---------------------------------------------------------------- owners are apart

  /** What this owner has is as it was. */
  ghost predicate OwnerStays(db: Db, t: Db, owner: Owner) {
    && (forall p: ProfileId ::
          ((owner, p) in t.drafts <==> (owner, p) in db.drafts)
          && ((owner, p) in db.drafts ==> t.drafts[(owner, p)] == db.drafts[(owner, p)]))
    && (forall p: ProfileId ::
          ((owner, p) in t.versions <==> (owner, p) in db.versions)
          && ((owner, p) in db.versions ==> t.versions[(owner, p)] == db.versions[(owner, p)]))
    && (forall k: Key ::
          ((owner, k) in t.receipts <==> (owner, k) in db.receipts)
          && ((owner, k) in db.receipts ==> t.receipts[(owner, k)] == db.receipts[(owner, k)]))
    && (forall k: Key ::
          ((owner, k) in t.profileRetries <==> (owner, k) in db.profileRetries)
          && ((owner, k) in db.profileRetries ==> t.profileRetries[(owner, k)] == db.profileRetries[(owner, k)]))
  }

  lemma {:induction false} StaysTwice(a: Db, b: Db, c: Db, owner: Owner)
    requires OwnerStays(a, b, owner) && OwnerStays(b, c, owner)
    ensures OwnerStays(a, c, owner)
  {}

  lemma {:induction false} ProfileApart(db: Db, asker: Owner, key: Key, request: ProfileRequest, owner: Owner)
    requires asker != owner
    ensures request.Save? ==> OwnerStays(db, ProfileSaveStep(db, asker, key, request).0, owner)
    ensures request.Restore? ==> OwnerStays(db, ProfileRestore(db, asker, key, request), owner)
  {}

  lemma {:induction false} RecordApart(db: Db, asker: Owner, request: Request, answer: Answer, owner: Owner)
    requires asker != owner
    ensures OwnerStays(db, Record(db, asker, request, answer), owner)
  {}

  lemma {:induction false} DraftApart(db: Db, asker: Owner, request: Request, owner: Owner)
    requires asker != owner && request.Draft?
    ensures OwnerStays(db, Retry(db, asker, request, ExecuteDraft(db, asker, request)).0, owner)
  {
    var stored := StoreDraft(db, asker, request);
    assert OwnerStays(db, stored, owner) && OwnerStays(db, db, owner);
    forall answer ensures OwnerStays(db, Record(stored, asker, request, answer), owner) {
      RecordApart(stored, asker, request, answer, owner);
      StaysTwice(db, stored, Record(stored, asker, request, answer), owner);
    }
    hide OwnerStays;
    hide Record;
    hide StoreDraft;
  }

  lemma {:induction false} DraftRowApart(
    db: Db, asker: Owner, profileId: ProfileId, row: DraftRow, publications: seq<PublishEntry>, owner: Owner)
    requires asker != owner
    ensures OwnerStays(db, db.(drafts := db.drafts[(asker, profileId) := row], publications := publications), owner)
  {}

  lemma {:induction false} PublishApart(db: Db, asker: Owner, request: Request, owner: Owner)
    requires asker != owner && request.Publish?
    ensures OwnerStays(db, Retry(db, asker, request, ExecutePublish(db, asker, request)).0, owner)
  {
    assert OwnerStays(db, db, owner);
    hide OwnerStays;
    hide Record;
    hide ProfileSaveStep;
    hide LibraryKey;
    var (t, answer) := ExecutePublish(db, asker, request);
    if answer.Ok? {
      var row := GetDraft(db, asker, request.profileId).value;
      var save := ProfileRequest.Save(request.profileId, row.baseRevision, row.definition);
      var saved := ProfileSaveStep(db, asker, LibraryKey(request.key), save).0;
      ProfileApart(db, asker, LibraryKey(request.key), save, owner);
      DraftRowApart(saved, asker, request.profileId, row.(published := true), t.publications, owner);
      StaysTwice(db, saved, t, owner);
      RecordApart(t, asker, request, answer.value, owner);
      StaysTwice(db, t, Record(t, asker, request, answer.value), owner);
    }
  }

  lemma {:induction false} ImportApart(db: Db, asker: Owner, request: Request, owner: Owner)
    requires asker != owner && request.Import?
    ensures OwnerStays(db, Retry(db, asker, request, ExecuteImport(db, asker, request)).0, owner)
  {
    assert OwnerStays(db, db, owner);
    DraftApart(db, asker, Nested(request), owner);
    var (t, answer) := ExecuteImport(db, asker, request);
    hide OwnerStays;
    hide Record;
    hide ExecuteDraft;
    if answer.Ok? {
      RecordApart(t, asker, request, answer.value, owner);
      StaysTwice(db, t, Record(t, asker, request, answer.value), owner);
    }
  }

  /** Nothing another owner does, in the library or in the profile store, changes what this one has. */
  lemma {:induction false} OwnersAreApart(db: Db, e: Event, owner: Owner)
    requires e.owner != owner
    ensures OwnerStays(db, Step(db, e), owner)
  {
    assert OwnerStays(db, db, owner);
    hide OwnerStays;
    hide Retry;
    hide ProfileSaveStep;
    hide ProfileRestore;
    match e {
      case Ask(asker, request) =>
        if request.Draft? {
          DraftApart(db, asker, request, owner);
        } else if request.Publish? {
          PublishApart(db, asker, request, owner);
        } else {
          ImportApart(db, asker, request, owner);
        }
      case Elsewhere(asker, key, request) => ProfileApart(db, asker, key, request, owner);
    }
  }
}

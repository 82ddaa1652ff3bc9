/** The draft lifecycle of the agent library (server/agent-library-store.ts) over the published
    versions of server/symposium-profiles.ts, which other callers write too.  Hashes are injective:
    a receipt keeps the request, a content hash keeps the definition, and a derived key keeps the
    key it was derived from. */
module AgentLibraryStore {
  import opened Options

  type Owner = string
  type ProfileId = string
  type Key = string
  type Definition = string

  datatype DraftRow = DraftRow(version: nat, baseRevision: nat, definition: Definition, published: bool)
  datatype Version = Version(revision: nat, definition: Definition)

  /** What an import reads: a bare definition, or an exported version with the hash it was sealed with. */
  datatype Artifact =
    | Bare(definition: Definition)
    | Exported(profileId: ProfileId, revision: nat, definition: Definition, sealed: Definition)

  datatype Request =
    | Draft(profileId: ProfileId, expectedVersion: nat, expectedRevision: nat, key: Key, definition: Definition)
    | Publish(profileId: ProfileId, expectedVersion: nat, key: Key)
    | Import(profileId: ProfileId, artifact: Artifact, key: Key)

  datatype Answer =
    | Saved(profileId: ProfileId, version: nat, baseRevision: nat, definition: Definition)
    | Published(profileId: ProfileId, revision: nat, definition: Definition)

  datatype Receipt = Receipt(request: Request, answer: Answer)

  /** Requests to the profile store itself. */
  datatype ProfileRequest =
    | Save(profileId: ProfileId, expectedRevision: nat, definition: Definition)
    | Restore(profileId: ProfileId, revision: nat, definition: Definition)

  datatype ProfileRetry = ProfileRetry(request: ProfileRequest, revision: nat)

  /** A draft save that was executed, and a publication, in the order they happened. */
  datatype SaveEntry = SaveEntry(
    owner: Owner, profileId: ProfileId, version: nat, baseRevision: nat, definition: Definition)
  datatype PublishEntry = PublishEntry(
    owner: Owner, profileId: ProfileId, version: nat, revision: nat, definition: Definition)

  datatype Db = Db(
    drafts: map<(Owner, ProfileId), DraftRow>,
    receipts: map<(Owner, Key), Receipt>,
    versions: map<(Owner, ProfileId), seq<Version>>,
    profileRetries: map<(Owner, Key), ProfileRetry>,
    saves: seq<SaveEntry>,
    publications: seq<PublishEntry>)

  const EMPTY := Db(map[], map[], map[], map[], [], [])

  datatype Error = KeyConflict | DraftConflict | RevisionConflict | DraftNotFound | HashMismatch | IdentityConflict

  function LibraryKey(key: Key): Key { "library:" + key }
  function ImportKey(key: Key): Key { "import:" + key }

  // ---------------------------------------------------------------- the profile store

  function VersionsOf(db: Db, owner: Owner, profileId: ProfileId): seq<Version> {
    if (owner, profileId) in db.versions then db.versions[(owner, profileId)] else []
  }

  /** The revision of the newest version, 0 when there is none. */
  function Latest(db: Db, owner: Owner, profileId: ProfileId): nat {
    var all := VersionsOf(db, owner, profileId);
    if all == [] then 0 else all[|all| - 1].revision
  }

  function Append(db: Db, owner: Owner, key: Key, request: ProfileRequest, v: Version): Db {
    db.(versions := db.versions[(owner, request.profileId) := VersionsOf(db, owner, request.profileId) + [v]],
        profileRetries := db.profileRetries[(owner, key) := ProfileRetry(request, v.revision)])
  }

  /** Compare and append: the revision that now holds the definition. */
  function ProfileSaveStep(db: Db, owner: Owner, key: Key, request: ProfileRequest): (Db, Result<nat, Error>)
    requires request.Save?
  {
    if (owner, key) in db.profileRetries then
      (db, if db.profileRetries[(owner, key)].request == request
           then Ok(db.profileRetries[(owner, key)].revision) else Err(KeyConflict))
    else if Latest(db, owner, request.profileId) != request.expectedRevision then (db, Err(RevisionConflict))
    else (Append(db, owner, key, request, Version(request.expectedRevision + 1, request.definition)),
          Ok(request.expectedRevision + 1))
  }

  /** Importing a version elsewhere in the application: the next revision, or any first one. */
  function ProfileRestore(db: Db, owner: Owner, key: Key, request: ProfileRequest): Db
    requires request.Restore?
  {
    var v := Version(request.revision, request.definition);
    if (owner, key) in db.profileRetries then db
    else if v in VersionsOf(db, owner, request.profileId) then
      db.(profileRetries := db.profileRetries[(owner, key) := ProfileRetry(request, request.revision)])
    else if request.revision == 0
            || (Latest(db, owner, request.profileId) != 0
                && Latest(db, owner, request.profileId) + 1 != request.revision)
    then db
    else Append(db, owner, key, request, v)
  }

  // ---------------------------------------------------------------- the library

  /** `getDraft`: published rows are no drafts. */
  function GetDraft(db: Db, owner: Owner, profileId: ProfileId): Option<DraftRow> {
    if (owner, profileId) in db.drafts && !db.drafts[(owner, profileId)].published
    then Some(db.drafts[(owner, profileId)])
    else None
  }

  function DraftVersion(db: Db, owner: Owner, profileId: ProfileId): nat {
    var draft := GetDraft(db, owner, profileId);
    if draft.Some? then draft.value.version else 0
  }

  /** The version the row holds, published or not: numbers are never reused. */
  function LastVersion(db: Db, owner: Owner, profileId: ProfileId): nat {
    if (owner, profileId) in db.drafts then db.drafts[(owner, profileId)].version else 0
  }

  function Record(db: Db, owner: Owner, request: Request, answer: Answer): Db {
    db.(receipts := db.receipts[(owner, request.key) := Receipt(request, answer)])
  }

  function StoreDraft(db: Db, owner: Owner, request: Request): Db
    requires request.Draft?
  {
    var version := LastVersion(db, owner, request.profileId) + 1;
    db.(drafts := db.drafts[(owner, request.profileId) :=
                              DraftRow(version, request.expectedRevision, request.definition, false)],
        saves := db.saves + [SaveEntry(owner, request.profileId, version, request.expectedRevision, request.definition)])
  }

  function ExecuteDraft(db: Db, owner: Owner, request: Request): (Db, Result<Answer, Error>)
    requires request.Draft?
  {
    if DraftVersion(db, owner, request.profileId) != request.expectedVersion then (db, Err(DraftConflict))
    else if Latest(db, owner, request.profileId) != request.expectedRevision then (db, Err(RevisionConflict))
    else (StoreDraft(db, owner, request),
          Ok(Saved(request.profileId, LastVersion(db, owner, request.profileId) + 1,
                   request.expectedRevision, request.definition)))
  }

  function ExecutePublish(db: Db, owner: Owner, request: Request): (Db, Result<Answer, Error>)
    requires request.Publish?
  {
    var draft := GetDraft(db, owner, request.profileId);
    if draft.None? then (db, Err(DraftNotFound))
    else if draft.value.version != request.expectedVersion then (db, Err(DraftConflict))
    else
      var save := Save(request.profileId, draft.value.baseRevision, draft.value.definition);
      var (saved, revision) := ProfileSaveStep(db, owner, LibraryKey(request.key), save);
      if revision.Err? then (db, Err(revision.error))
      else (saved.(drafts := saved.drafts[(owner, request.profileId) := draft.value.(published := true)],
                   publications := saved.publications
                     + [PublishEntry(owner, request.profileId, draft.value.version, revision.value, draft.value.definition)]),
            Ok(Published(request.profileId, revision.value, draft.value.definition)))
  }

  /** A first request with this key: execute it, and keep the receipt only if it succeeded. */
  function Retry(db: Db, owner: Owner, request: Request, executed: (Db, Result<Answer, Error>)): (Db, Result<Answer, Error>) {
    if (owner, request.key) in db.receipts then
      (db, if db.receipts[(owner, request.key)].request == request
           then Ok(db.receipts[(owner, request.key)].answer) else Err(KeyConflict))
    else if executed.1.Err? then (db, executed.1)
    else (Record(executed.0, owner, request, executed.1.value), executed.1)
  }

  /** The draft save nested in an import, under its own derived key. */
  function Nested(request: Request): Request
    requires request.Import?
  {
    Draft(request.profileId, 0, 0, ImportKey(request.key), request.artifact.definition)
  }

  function ExecuteImport(db: Db, owner: Owner, request: Request): (Db, Result<Answer, Error>)
    requires request.Import?
  {
    if GetDraft(db, owner, request.profileId).Some? || VersionsOf(db, owner, request.profileId) != []
    then (db, Err(IdentityConflict))
    else Retry(db, owner, Nested(request), ExecuteDraft(db, owner, Nested(request)))
  }

  /** An exported version whose content hash is not that of its definition. */
  predicate Tampered(request: Request) {
    request.Import? && request.artifact.Exported? && request.artifact.sealed != request.artifact.definition
  }

  function Apply(db: Db, owner: Owner, request: Request): (Db, Result<Answer, Error>) {
    match request
    case Draft(_, _, _, _, _) => Retry(db, owner, request, ExecuteDraft(db, owner, request))
    case Publish(_, _, _) => Retry(db, owner, request, ExecutePublish(db, owner, request))
    case Import(_, _, _) =>
      if Tampered(request) then (db, Err(HashMismatch))
      else Retry(db, owner, request, ExecuteImport(db, owner, request))
  }

  /** A library request, or another caller of the profile store. */
  datatype Event =
    | Ask(owner: Owner, request: Request)
    | Elsewhere(owner: Owner, key: Key, profile: ProfileRequest)

  function Step(db: Db, e: Event): Db {
    match e
    case Ask(owner, request) => Apply(db, owner, request).0
    case Elsewhere(owner, key, profile) =>
      if profile.Save? then ProfileSaveStep(db, owner, key, profile).0 else ProfileRestore(db, owner, key, profile)
  }

  function Run(db: Db, events: seq<Event>): Db
    decreases |events|
  {
    if events == [] then db else Run(Step(db, events[0]), events[1..])
  }

  // ---------------------------------------------------------------- invariant

  /** Draft numbers of a profile only go up, and the row holds what the save of its number stored. */
  ghost predicate SavesOk(db: Db) {
    && (forall i, j :: 0 <= i < j < |db.saves| && db.saves[i].owner == db.saves[j].owner
                       && db.saves[i].profileId == db.saves[j].profileId ==>
          db.saves[i].version < db.saves[j].version)
    && (forall i :: 0 <= i < |db.saves| ==> 1 <= db.saves[i].version <= LastVersion(db, db.saves[i].owner, db.saves[i].profileId))
    && (forall o, p :: (o, p) in db.drafts ==>
          var row := db.drafts[(o, p)];
          SaveEntry(o, p, row.version, row.baseRevision, row.definition) in db.saves)
  }

  /** Each draft version is published at most once, with the definition its save stored. */
  ghost predicate PublicationsOk(db: Db) {
    && (forall i, j :: 0 <= i < j < |db.publications| && db.publications[i].owner == db.publications[j].owner
                       && db.publications[i].profileId == db.publications[j].profileId ==>
          db.publications[i].version < db.publications[j].version)
    && (forall i :: 0 <= i < |db.publications| ==>
          var e := db.publications[i];
          && (exists base :: SaveEntry(e.owner, e.profileId, e.version, base, e.definition) in db.saves)
          && (GetDraft(db, e.owner, e.profileId).Some? ==> e.version < LastVersion(db, e.owner, e.profileId))
          && e.version <= LastVersion(db, e.owner, e.profileId)
          && Version(e.revision, e.definition) in VersionsOf(db, e.owner, e.profileId))
  }

  ghost predicate ProfilesOk(db: Db) {
    && (forall o, p, i :: 0 <= i < |VersionsOf(db, o, p)| ==> VersionsOf(db, o, p)[i].revision > 0)
    && (forall o, p :: (o, p) in db.drafts && db.drafts[(o, p)].published ==> VersionsOf(db, o, p) != [])
    && (forall o, k :: (o, k) in db.profileRetries && db.profileRetries[(o, k)].request.Save? ==>
          var r := db.profileRetries[(o, k)];
          && r.revision == r.request.expectedRevision + 1
          && Version(r.revision, r.request.definition) in VersionsOf(db, o, r.request.profileId))
  }

  /** A saved draft left a row; the receipt of an import never stands without that of its nested save. */
  ghost predicate ReceiptsOk(db: Db) {
    forall o, k :: (o, k) in db.receipts ==>
      var r := db.receipts[(o, k)];
      && r.request.key == k
      && (r.request.Draft? ==> (o, r.request.profileId) in db.drafts)
      && (r.request.Import? ==>
            (o, ImportKey(k)) in db.receipts && db.receipts[(o, ImportKey(k))] == Receipt(Nested(r.request), r.answer))
  }

  ghost predicate Inv(db: Db) {
    SavesOk(db) && PublicationsOk(db) && ProfilesOk(db) && ReceiptsOk(db)
  }

  // ---------------------------------------------------------------- every operation keeps it

  lemma {:induction false} AppendKeeps(db: Db, owner: Owner, key: Key, request: ProfileRequest, v: Version)
    requires Inv(db) && v.revision > 0 && (owner, key) !in db.profileRetries
    requires request.Save? ==> v == Version(request.expectedRevision + 1, request.definition)
    ensures Inv(Append(db, owner, key, request, v))
    ensures v in VersionsOf(Append(db, owner, key, request, v), owner, request.profileId)
  {
    var t := Append(db, owner, key, request, v);
    var before := VersionsOf(db, owner, request.profileId);
    assert VersionsOf(t, owner, request.profileId) == before + [v];
    forall o, p ensures VersionsOf(db, o, p) <= VersionsOf(t, o, p) {}
    assert SavesOk(t) && ReceiptsOk(t);
    hide SavesOk;
    hide ReceiptsOk;
  }

  lemma {:induction false} RetryRowKeeps(db: Db, owner: Owner, key: Key, retry: ProfileRetry)
    requires Inv(db) && retry.request.Restore? && (owner, key) !in db.profileRetries
    ensures Inv(db.(profileRetries := db.profileRetries[(owner, key) := retry]))
  {
    var t := db.(profileRetries := db.profileRetries[(owner, key) := retry]);
    forall o, p ensures VersionsOf(db, o, p) == VersionsOf(t, o, p) && GetDraft(t, o, p) == GetDraft(db, o, p) {}
    assert SavesOk(t) && ReceiptsOk(t) && PublicationsOk(t);
    hide SavesOk;
    hide ReceiptsOk;
    hide PublicationsOk;
  }

  lemma {:induction false} ProfileKeeps(db: Db, owner: Owner, key: Key, request: ProfileRequest)
    requires Inv(db)
    ensures Inv(Step(db, Elsewhere(owner, key, request)))
  {
    hide Inv;
    hide Append;
    hide VersionsOf;
    if (owner, key) !in db.profileRetries {
      if request.Save? {
        AppendKeeps(db, owner, key, request, Version(request.expectedRevision + 1, request.definition));
      } else {
        var v := Version(request.revision, request.definition);
        RetryRowKeeps(db, owner, key, ProfileRetry(request, request.revision));
        if request.revision > 0 {
          AppendKeeps(db, owner, key, request, v);
        }
      }
    }
  }

  /** The revision a profile save answers with holds the definition it was asked to save, even when
      another caller had used the same key for the same request. */
  lemma {:induction false} ProfileSaveHolds(db: Db, owner: Owner, key: Key, request: ProfileRequest)
    requires Inv(db) && request.Save? && ProfileSaveStep(db, owner, key, request).1.Ok?
    ensures var (t, r) := ProfileSaveStep(db, owner, key, request);
            && Inv(t) && r.value == request.expectedRevision + 1
            && Version(r.value, request.definition) in VersionsOf(t, owner, request.profileId)
            && t.drafts == db.drafts && t.saves == db.saves && t.publications == db.publications
            && t.receipts == db.receipts
  {
    if (owner, key) !in db.profileRetries {
      AppendKeeps(db, owner, key, request, Version(request.expectedRevision + 1, request.definition));
    }
    hide SavesOk;
    hide PublicationsOk;
    hide ReceiptsOk;
  }

  lemma {:induction false} StoreDraftSaves(db: Db, owner: Owner, request: Request)
    requires SavesOk(db) && request.Draft?
    ensures SavesOk(StoreDraft(db, owner, request))
  {
    var t := StoreDraft(db, owner, request);
    assert t.saves[|db.saves|] in t.saves;
    forall e | e in db.saves ensures e in t.saves {}
    forall o, p ensures LastVersion(db, o, p) <= LastVersion(t, o, p) {}
  }

  lemma {:induction false} StoreDraftKeeps(db: Db, owner: Owner, request: Request)
    requires Inv(db) && request.Draft?
    ensures Inv(StoreDraft(db, owner, request))
  {
    hide SavesOk;
    StoreDraftSaves(db, owner, request);
    var t := StoreDraft(db, owner, request);
    forall o, p ensures VersionsOf(t, o, p) == VersionsOf(db, o, p) {}
    assert ProfilesOk(t) && ReceiptsOk(t);
    forall e | e in db.saves ensures e in t.saves {}
    forall o, p ensures LastVersion(db, o, p) <= LastVersion(t, o, p) {}
    hide ProfilesOk;
    hide ReceiptsOk;
    hide VersionsOf;
  }

  lemma {:induction false} MarkPublishedKeeps(db: Db, owner: Owner, profileId: ProfileId, revision: nat)
    requires Inv(db) && GetDraft(db, owner, profileId).Some?
    requires Version(revision, db.drafts[(owner, profileId)].definition) in VersionsOf(db, owner, profileId)
    ensures var row := db.drafts[(owner, profileId)];
            Inv(db.(drafts := db.drafts[(owner, profileId) := row.(published := true)],
                    publications := db.publications
                      + [PublishEntry(owner, profileId, row.version, revision, row.definition)]))
  {
    var row := db.drafts[(owner, profileId)];
    var t := db.(drafts := db.drafts[(owner, profileId) := row.(published := true)],
                 publications := db.publications + [PublishEntry(owner, profileId, row.version, revision, row.definition)]);
    forall o, p ensures VersionsOf(t, o, p) == VersionsOf(db, o, p) && LastVersion(t, o, p) == LastVersion(db, o, p) {}
    forall o, p ensures GetDraft(t, o, p).Some? ==> GetDraft(db, o, p).Some? {}
    assert SavesOk(t);
    assert ProfilesOk(t) && ReceiptsOk(t);
    hide ReceiptsOk;
    hide ProfilesOk;
    hide VersionsOf;
  }

  lemma {:induction false} RecordKeeps(db: Db, owner: Owner, request: Request, answer: Answer)
    requires Inv(db) && (owner, request.key) !in db.receipts
    requires request.Draft? ==> (owner, request.profileId) in db.drafts
    requires request.Import? ==>
               (owner, ImportKey(request.key)) in db.receipts
               && db.receipts[(owner, ImportKey(request.key))] == Receipt(Nested(request), answer)
    ensures Inv(Record(db, owner, request, answer))
  {
    var t := Record(db, owner, request, answer);
    forall o, p ensures VersionsOf(t, o, p) == VersionsOf(db, o, p) && GetDraft(t, o, p) == GetDraft(db, o, p)
                        && LastVersion(t, o, p) == LastVersion(db, o, p) {}
    assert SavesOk(t) && PublicationsOk(t) && ProfilesOk(t);
    hide SavesOk;
    hide PublicationsOk;
    hide ProfilesOk;
    assert ImportKey(request.key) != request.key by {
      assert |ImportKey(request.key)| > |request.key|;
    }
    hide ImportKey;
  }

  lemma {:induction false} DraftKeeps(db: Db, owner: Owner, request: Request)
    requires Inv(db) && request.Draft?
    ensures Inv(Retry(db, owner, request, ExecuteDraft(db, owner, request)).0)
  {
    var executed := ExecuteDraft(db, owner, request);
    StoreDraftKeeps(db, owner, request);
    hide Inv;
    if (owner, request.key) !in db.receipts && executed.1.Ok? {
      RecordKeeps(executed.0, owner, request, executed.1.value);
    }
    hide Record;
  }

  lemma {:induction false} PublishKeeps(db: Db, owner: Owner, request: Request)
    requires Inv(db) && request.Publish?
    ensures Inv(Retry(db, owner, request, ExecutePublish(db, owner, request)).0)
  {
    var executed := ExecutePublish(db, owner, request);
    if (owner, request.key) !in db.receipts && executed.1.Ok? {
      var draft := GetDraft(db, owner, request.profileId).value;
      var save := Save(request.profileId, draft.baseRevision, draft.definition);
      ProfileSaveHolds(db, owner, LibraryKey(request.key), save);
      var (saved, revision) := ProfileSaveStep(db, owner, LibraryKey(request.key), save);
      hide Inv;
      MarkPublishedKeeps(saved, owner, request.profileId, revision.value);
      RecordKeeps(executed.0, owner, request, executed.1.value);
      hide Record;
      hide ProfileSaveStep;
    }
  }

  lemma {:induction false} ImportKeeps(db: Db, owner: Owner, request: Request)
    requires Inv(db) && request.Import?
    ensures Inv(Retry(db, owner, request, ExecuteImport(db, owner, request)).0)
  {
    var executed := ExecuteImport(db, owner, request);
    if (owner, request.key) !in db.receipts && executed.1.Ok? {
      DraftKeeps(db, owner, Nested(request));
      assert ImportKey(request.key) != request.key by {
        assert |ImportKey(request.key)| > |request.key|;
      }
      hide ImportKey;
      hide Inv;
      RecordKeeps(executed.0, owner, request, executed.1.value);
    }
  }

  lemma {:induction false} StepKeeps(db: Db, e: Event)
    requires Inv(db)
    ensures Inv(Step(db, e))
  {
    match e
    case Ask(owner, request) =>
      if request.Draft? {
        DraftKeeps(db, owner, request);
      } else if request.Publish? {
        PublishKeeps(db, owner, request);
      } else {
        ImportKeeps(db, owner, request);
      }
      hide Inv;
      hide Retry;
    case Elsewhere(owner, key, profile) => ProfileKeeps(db, owner, key, profile);
  }

  lemma {:induction false} RunKeeps(db: Db, events: seq<Event>)
    requires Inv(db)
    ensures Inv(Run(db, events))
    decreases |events|
  {
    if events != [] {
      StepKeeps(db, events[0]);
      hide Inv;
      hide Step;
      RunKeeps(Step(db, events[0]), events[1..]);
    }
  }

  // ---------------------------------------------------------------- what was reviewed is published

  /** Over the whole run, across publishing and re-drafting: draft numbers strictly increase, so a
      number names one definition. */
  lemma {:induction false} DraftNumbersIncrease(events: seq<Event>, db: Db, i: nat, j: nat)
    requires db == Run(EMPTY, events) && i < j < |db.saves|
    requires db.saves[i].owner == db.saves[j].owner && db.saves[i].profileId == db.saves[j].profileId
    ensures db.saves[i].version < db.saves[j].version
  {
    assert Inv(EMPTY);
    RunKeeps(EMPTY, events);
  }

  /** An executed `publish` of version v publishes the definition that the save numbered v stored, as
      the revision after the one the draft was based on, whoever else uses the profile store. */
  lemma {:induction false} PublishesWhatWasReviewed(
    events: seq<Event>, db: Db, owner: Owner, request: Request, entry: SaveEntry)
    requires db == Run(EMPTY, events) && request.Publish? && (owner, request.key) !in db.receipts
    requires Apply(db, owner, request).1.Ok?
    requires entry in db.saves && entry.owner == owner && entry.profileId == request.profileId
    requires entry.version == request.expectedVersion
    ensures var (t, answer) := Apply(db, owner, request);
            && answer.value == Published(request.profileId, entry.baseRevision + 1, entry.definition)
            && Version(answer.value.revision, entry.definition) in VersionsOf(t, owner, request.profileId)
  {
    assert Inv(EMPTY);
    RunKeeps(EMPTY, events);
    hide Run;
    PublishesTheSave(db, owner, request, entry);
    hide Inv;
    hide Apply;
  }

  lemma {:induction false} PublishesTheSave(db: Db, owner: Owner, request: Request, entry: SaveEntry)
    requires Inv(db) && request.Publish? && (owner, request.key) !in db.receipts
    requires Apply(db, owner, request).1.Ok?
    requires entry in db.saves && entry.owner == owner && entry.profileId == request.profileId
    requires entry.version == request.expectedVersion
    ensures var (t, answer) := Apply(db, owner, request);
            && answer.value == Published(request.profileId, entry.baseRevision + 1, entry.definition)
            && Version(answer.value.revision, entry.definition) in VersionsOf(t, owner, request.profileId)
  {
    var row := db.drafts[(owner, request.profileId)];
    SameNumberSameDefinition(
      db, entry, SaveEntry(owner, request.profileId, row.version, row.baseRevision, row.definition));
    ProfileSaveHolds(db, owner, LibraryKey(request.key), Save(request.profileId, row.baseRevision, row.definition));
    hide Inv;
    hide ProfileSaveStep;
  }

  lemma {:induction false} SameNumberSameDefinition(db: Db, a: SaveEntry, b: SaveEntry)
    requires SavesOk(db) && a in db.saves && b in db.saves
    requires a.owner == b.owner && a.profileId == b.profileId && a.version == b.version
    ensures a == b
  {
    var i :| 0 <= i < |db.saves| && db.saves[i] == a;
    var j :| 0 <= j < |db.saves| && db.saves[j] == b;
  }

  /** Each draft version is published at most once, and a publication once made stays readable. */
  lemma {:induction false} PublishedOnce(events: seq<Event>, db: Db, i: nat, j: nat)
    requires db == Run(EMPTY, events) && i < |db.publications| && j < |db.publications|
    requires db.publications[i].owner == db.publications[j].owner
    requires db.publications[i].profileId == db.publications[j].profileId
    requires db.publications[i].version == db.publications[j].version
    ensures i == j
    ensures var e := db.publications[i]; Version(e.revision, e.definition) in VersionsOf(db, e.owner, e.profileId)
  {
    assert Inv(EMPTY);
    RunKeeps(EMPTY, events);
  }

  // ---------------------------------------------------------------- receipts

  lemma {:induction false} ReceiptStays(db: Db, e: Event, owner: Owner, key: Key)
    requires (owner, key) in db.receipts
    ensures (owner, key) in Step(db, e).receipts && Step(db, e).receipts[(owner, key)] == db.receipts[(owner, key)]
  {
    if e.Ask? && e.request.Import? {
      assert ImportKey(e.request.key) != e.request.key by {
        assert |ImportKey(e.request.key)| > |e.request.key|;
      }
      hide ImportKey;
    }
    hide LibraryKey;
  }

  lemma {:induction false} ReceiptSurvives(db: Db, events: seq<Event>, owner: Owner, key: Key)
    requires (owner, key) in db.receipts
    ensures (owner, key) in Run(db, events).receipts
    ensures Run(db, events).receipts[(owner, key)] == db.receipts[(owner, key)]
    decreases |events|
  {
    if events != [] {
      ReceiptStays(db, events[0], owner, key);
      hide Step;
      ReceiptSurvives(Step(db, events[0]), events[1..], owner, key);
    }
  }

  lemma {:induction false} AnsweredIsReceipted(db: Db, owner: Owner, request: Request)
    requires Apply(db, owner, request).1.Ok?
    ensures var (t, answer) := Apply(db, owner, request);
            (owner, request.key) in t.receipts && t.receipts[(owner, request.key)] == Receipt(request, answer.value)
  {
    hide ExecuteDraft;
    hide ExecutePublish;
    hide ExecuteImport;
  }

  /** Once a request was answered, its key belongs to it for ever: however the library and the profiles
      move on, it gets the same answer again and every other request with the key is refused, neither
      changing anything. */
  lemma {:induction false} KeyBelongsToItsRequest(
    db: Db, owner: Owner, first: Request, events: seq<Event>, other: Request)
    requires Apply(db, owner, first).1.Ok? && other.key == first.key
    ensures var (after, answer) := Apply(db, owner, first);
            var later := Run(after, events);
            Apply(later, owner, other)
            == (later, if other == first then answer else Err(if Tampered(other) then HashMismatch else KeyConflict))
  {
    AnsweredIsReceipted(db, owner, first);
    ReceiptSurvives(Apply(db, owner, first).0, events, owner, first.key);
    hide Run;
    hide ExecuteDraft;
    hide ExecutePublish;
    hide ExecuteImport;
  }

  /** The derived key of an import is never taken by a save that would answer for it. */
  lemma {:induction false} NestedIsFresh(db: Db, owner: Owner, request: Request)
    requires Inv(db) && request.Import? && ExecuteImport(db, owner, request).1.Ok?
    ensures (owner, ImportKey(request.key)) !in db.receipts && (owner, request.profileId) !in db.drafts
    ensures VersionsOf(db, owner, request.profileId) == []
    ensures ImportKey(request.key) != request.key
  {
    assert |ImportKey(request.key)| > |request.key|;
    hide ImportKey;
    hide SavesOk;
    hide PublicationsOk;
  }

  /** What one import leaves behind: both receipts with one answer and version 1 of the draft, or the
      tables as they were. */
  ghost predicate ImportedWhole(db: Db, owner: Owner, request: Request)
    requires request.Import?
  {
    var (t, answer) := Apply(db, owner, request);
    if answer.Err? then t == db
    else && (owner, request.key) in t.receipts && (owner, ImportKey(request.key)) in t.receipts
         && t.receipts[(owner, request.key)].answer == t.receipts[(owner, ImportKey(request.key))].answer
         && answer.value == Saved(request.profileId, 1, 0, request.artifact.definition)
         && GetDraft(t, owner, request.profileId) == Some(DraftRow(1, 0, request.artifact.definition, false))
  }

  lemma {:induction false} ImportOutcome(db: Db, owner: Owner, request: Request)
    requires Inv(db) && request.Import? && (owner, request.key) !in db.receipts
    ensures ImportedWhole(db, owner, request)
  {
    if Apply(db, owner, request).1.Ok? {
      NestedIsFresh(db, owner, request);
      hide Inv;
      hide ImportKey;
    }
    hide Inv;
  }

  /** An executed import creates version 1 of a draft and leaves both receipts; a refused one leaves
      everything as it was. */
  lemma {:induction false} ImportIsAllOrNothing(events: seq<Event>, db: Db, owner: Owner, request: Request)
    requires db == Run(EMPTY, events) && request.Import? && (owner, request.key) !in db.receipts
    ensures ImportedWhole(db, owner, request)
  {
    assert Inv(EMPTY);
    RunKeeps(EMPTY, events);
    hide Run;
    hide Inv;
    hide ImportedWhole;
    ImportOutcome(db, owner, request);
  }

  // ---------------------------------------------------------------- the store object

  /** The library over the shared database; every method is one transaction that changes nothing when
      it is refused. */
  class AgentLibraryStore {
    var drafts: map<(Owner, ProfileId), DraftRow>
    var receipts: map<(Owner, Key), Receipt>
    var versions: map<(Owner, ProfileId), seq<Version>>
    var profileRetries: map<(Owner, Key), ProfileRetry>
    ghost var saves: seq<SaveEntry>
    ghost var publications: seq<PublishEntry>

    ghost function View(): Db
      reads this
    {
      Db(drafts, receipts, versions, profileRetries, saves, publications)
    }

    constructor ()
      ensures View() == EMPTY && Inv(View())
    {
      drafts, receipts, versions, profileRetries := map[], map[], map[], map[];
      saves, publications := [], [];
    }

    method ReadDraft(owner: Owner, profileId: ProfileId) returns (r: Option<DraftRow>)
      ensures r == GetDraft(View(), owner, profileId)
    {
      r := None;
      if (owner, profileId) in drafts && !drafts[(owner, profileId)].published {
        r := Some(drafts[(owner, profileId)]);
      }
    }

    method LatestRevision(owner: Owner, profileId: ProfileId) returns (revision: nat)
      ensures revision == Latest(View(), owner, profileId)
    {
      revision := 0;
      if (owner, profileId) in versions {
        var all := versions[(owner, profileId)];
        if all != [] {
          revision := all[|all| - 1].revision;
        }
      }
    }

    method ProfileSave(owner: Owner, key: Key, profileId: ProfileId, expected: nat, definition: Definition)
      returns (r: Result<nat, Error>)
      modifies this`versions, this`profileRetries
      ensures (View(), r) == ProfileSaveStep(old(View()), owner, key, Save(profileId, expected, definition))
    {
      var request := Save(profileId, expected, definition);
      if (owner, key) in profileRetries {
        var prior := profileRetries[(owner, key)];
        return if prior.request == request then Ok(prior.revision) else Err(KeyConflict);
      }
      var latest := LatestRevision(owner, profileId);
      if latest != expected {
        return Err(RevisionConflict);
      }
      var all := if (owner, profileId) in versions then versions[(owner, profileId)] else [];
      versions := versions[(owner, profileId) := all + [Version(expected + 1, definition)]];
      profileRetries := profileRetries[(owner, key) := ProfileRetry(request, expected + 1)];
      return Ok(expected + 1);
    }

    /** The answer of the receipt kept for this key, if there is one. */
    method Replay(owner: Owner, request: Request) returns (answer: Option<Result<Answer, Error>>)
      ensures answer == if (owner, request.key) !in receipts then None
                        else if receipts[(owner, request.key)].request == request
                        then Some(Ok(receipts[(owner, request.key)].answer)) else Some(Err(KeyConflict))
    {
      answer := None;
      if (owner, request.key) in receipts {
        var prior := receipts[(owner, request.key)];
        answer := Some(if prior.request == request then Ok(prior.answer) else Err(KeyConflict));
      }
    }

    method SaveDraft(owner: Owner, request: Request) returns (answer: Result<Answer, Error>)
      requires request.Draft?
      modifies this`drafts, this`receipts, this`saves
      ensures (View(), answer) == Apply(old(View()), owner, request)
    {
      var replay := Replay(owner, request);
      if replay.Some? {
        return replay.value;
      }
      var current := ReadDraft(owner, request.profileId);
      if (if current.Some? then current.value.version else 0) != request.expectedVersion {
        return Err(DraftConflict);
      }
      var latest := LatestRevision(owner, request.profileId);
      if latest != request.expectedRevision {
        return Err(RevisionConflict);
      }
      var id := (owner, request.profileId);
      var version := (if id in drafts then drafts[id].version else 0) + 1;
      drafts := drafts[id := DraftRow(version, request.expectedRevision, request.definition, false)];
      saves := saves + [SaveEntry(owner, request.profileId, version, request.expectedRevision, request.definition)];
      var saved := Saved(request.profileId, version, request.expectedRevision, request.definition);
      receipts := receipts[(owner, request.key) := Receipt(request, saved)];
      return Ok(saved);
    }

    method Publish(owner: Owner, request: Request) returns (answer: Result<Answer, Error>)
      requires request.Publish?
      modifies this
      ensures (View(), answer) == Apply(old(View()), owner, request)
    {
      var replay := Replay(owner, request);
      if replay.Some? {
        return replay.value;
      }
      var draft := ReadDraft(owner, request.profileId);
      if draft.None? {
        return Err(DraftNotFound);
      }
      if draft.value.version != request.expectedVersion {
        return Err(DraftConflict);
      }
      var saved := ProfileSave(owner, LibraryKey(request.key), request.profileId, draft.value.baseRevision, draft.value.definition);
      hide ProfileSaveStep;
      if saved.Err? {
        return Err(saved.error);
      }
      var published := Published(request.profileId, saved.value, draft.value.definition);
      drafts := drafts[(owner, request.profileId) := draft.value.(published := true)];
      publications := publications
        + [PublishEntry(owner, request.profileId, draft.value.version, saved.value, draft.value.definition)];
      receipts := receipts[(owner, request.key) := Receipt(request, published)];
      return Ok(published);
    }

    method ImportDraft(owner: Owner, request: Request) returns (answer: Result<Answer, Error>)
      requires request.Import?
      modifies this`drafts, this`receipts, this`saves
      ensures (View(), answer) == Apply(old(View()), owner, request)
    {
      if Tampered(request) {
        return Err(HashMismatch);
      }
      var replay := Replay(owner, request);
      if replay.Some? {
        return replay.value;
      }
      var draft := ReadDraft(owner, request.profileId);
      if draft.Some? || ((owner, request.profileId) in versions && versions[(owner, request.profileId)] != []) {
        return Err(IdentityConflict);
      }
      answer := SaveDraft(owner, Nested(request));
      hide ImportKey;
      if answer.Ok? {
        receipts := receipts[(owner, request.key) := Receipt(request, answer.value)];
      }
    }
  }
}

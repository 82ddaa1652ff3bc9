/** What the operations on the account objects, the published list and the store preserve. */
module AdviserBook {
  import opened Options
  import opened AdviserState

  // ---------------------------------------------------------------- invariants of one book

  ghost predicate RowsOk(rows: seq<Account>) {
    forall r :: 0 <= r < |rows| ==>
      RowMeetsSchema(rows[r]) && rows[r].id == AccountId(rows[r].clientId, rows[r].subject)
  }

  ghost predicate InRange(rows: seq<Account>, accounts: seq<RowRef>) {
    forall i :: 0 <= i < |accounts| ==> accounts[i] < |rows|
  }

  ghost predicate DistinctIds(rows: seq<Account>, accounts: seq<RowRef>) {
    forall i, j :: 0 <= i < j < |accounts| ==> At(rows, accounts[i]).id != At(rows, accounts[j]).id
  }

  ghost predicate Listable(rows: seq<Account>, accounts: seq<RowRef>) {
    RowsOk(rows) && InRange(rows, accounts) && DistinctIds(rows, accounts) && |accounts| <= MAX_ACCOUNTS
  }

  /** Equal on everything a restart depends on; expiry and catalogue are re-established anyway. */
  predicate SameCustody(a: Account, b: Account) {
    && a.id == b.id && a.clientId == b.clientId && a.subject == b.subject
    && a.accessToken == b.accessToken && a.refreshToken == b.refreshToken && a.idToken == b.idToken
    && a.state == b.state && a.revocationPending == b.revocationPending
  }

  ghost predicate Mirrors(stored: seq<Account>, rows: seq<Account>, accounts: seq<RowRef>) {
    && |stored| == |accounts|
    && forall i :: 0 <= i < |stored| ==> SameCustody(stored[i], At(rows, accounts[i]))
  }

  ghost predicate BookOk(b: Book) {
    && Listable(b.rows, b.accounts)
    && MeetsSchema(b.durable)
    && (!b.saveFailed ==> Mirrors(b.durable, b.rows, b.accounts))
  }

  // ---------------------------------------------------------------- how a book may move

  ghost predicate RowEvolves(a: Account, b: Account) {
    && b.id == a.id && b.clientId == a.clientId && b.subject == a.subject && b.expiresAt == a.expiresAt
    && (a.state == Disconnected ==> b.state == Disconnected)
    && TokenEvolves(a.accessToken, b, b.accessToken) && TokenEvolves(a.refreshToken, b, b.refreshToken)
    && TokenEvolves(a.idToken, b, b.idToken)
  }

  /** A credential of an object is never exchanged, only erased once the object is disconnected. */
  predicate TokenEvolves(before: Token, b: Account, after: Token) {
    after == before || (b.state == Disconnected && after == 0)
  }

  ghost predicate RowsEvolve(s: seq<Account>, t: seq<Account>) {
    |s| <= |t| && forall r :: 0 <= r < |s| ==> RowEvolves(s[r], t[r])
  }

  /** No object is reconnected. */
  const NONE := -1

  /** Objects are never forgotten, a published object is an old one or a new one, a disconnected
      object stays so, only a published one can become so, which moves the generation, and no old
      object but `back` becomes connected. */
  ghost predicate Moves(b: Book, g: nat, c: Book, h: nat, back: int) {
    && g <= h
    && RowsEvolve(b.rows, c.rows)
    && (forall r :: r in c.accounts ==> r in b.accounts || |b.rows| <= r < |c.rows|)
    && (forall r :: 0 <= r < |b.rows| && c.rows[r].state == Disconnected && b.rows[r].state != Disconnected ==>
          g < h && r in b.accounts)
    && (forall r :: 0 <= r < |b.rows| && r != back && c.rows[r].state == Connected ==>
          b.rows[r].state == Connected)
    && (b.saveFailed ==> c.saveFailed)
  }

  lemma {:induction false} MovesNot(b: Book, g: nat, h: nat)
    requires g <= h && InRange(b.rows, b.accounts)
    ensures Moves(b, g, b, h, NONE)
  {}

  lemma {:induction false} MovesTwice(a: Book, f: nat, b: Book, g: nat, c: Book, h: nat, back: int)
    requires Moves(a, f, b, g, back) && Moves(b, g, c, h, back)
    ensures Moves(a, f, c, h, back)
  {
    forall r | 0 <= r < |a.rows| ensures RowEvolves(a.rows[r], c.rows[r]) {
      assert RowEvolves(a.rows[r], b.rows[r]) && RowEvolves(b.rows[r], c.rows[r]);
    }
    forall r | 0 <= r < |a.rows| && c.rows[r].state == Disconnected && a.rows[r].state != Disconnected
      ensures f < h && r in a.accounts
    {
      if b.rows[r].state != Disconnected {
        assert g < h && r in b.accounts;
      }
    }
  }

  // ---------------------------------------------------------------- finding rows

  lemma {:induction false} FindInRow(rows: seq<Account>, accounts: seq<RowRef>, id: AccountId)
    ensures match FindIn(rows, accounts, id)
            case None => forall r :: r in accounts ==> At(rows, r).id != id
            case Some(r) => r in accounts && At(rows, r).id == id
  {
    if accounts != [] && At(rows, accounts[0]).id != id {
      FindInRow(rows, accounts[1..], id);
      assert accounts == [accounts[0]] + accounts[1..];
    }
  }

  lemma {:induction false} WithoutMembers(rows: seq<Account>, accounts: seq<RowRef>, id: AccountId)
    ensures forall r :: r in Without(rows, accounts, id) <==> r in accounts && At(rows, r).id != id
    ensures |Without(rows, accounts, id)| <= |accounts|
    ensures (exists r :: r in accounts && At(rows, r).id == id) ==> |Without(rows, accounts, id)| < |accounts|
  {
    if accounts != [] {
      WithoutMembers(rows, accounts[1..], id);
      assert accounts == [accounts[0]] + accounts[1..];
    }
  }

  lemma {:induction false} WithoutDistinct(rows: seq<Account>, accounts: seq<RowRef>, id: AccountId)
    requires DistinctIds(rows, accounts)
    ensures DistinctIds(rows, Without(rows, accounts, id))
  {
    if accounts != [] {
      var rest := accounts[1..];
      assert DistinctIds(rows, rest) by {
        forall i, j | 0 <= i < j < |rest| ensures At(rows, rest[i]).id != At(rows, rest[j]).id {
          assert rest[i] == accounts[i + 1] && rest[j] == accounts[j + 1];
        }
      }
      WithoutDistinct(rows, rest, id);
      var kept := Without(rows, rest, id);
      WithoutMembers(rows, rest, id);
      if At(rows, accounts[0]).id != id {
        var all := [accounts[0]] + kept;
        forall i, j | 0 <= i < j < |all| ensures At(rows, all[i]).id != At(rows, all[j]).id {
          if i == 0 {
            assert all[j] in kept;
            var k :| 0 <= k < |rest| && rest[k] == all[j];
            assert accounts[k + 1] == all[j];
          } else {
            assert all[i] == kept[i - 1] && all[j] == kept[j - 1];
          }
        }
      }
    }
  }

  // ---------------------------------------------------------------- save before publish

  lemma {:induction false} ImageMeetsSchema(rows: seq<Account>, accounts: seq<RowRef>)
    requires Listable(rows, accounts)
    ensures MeetsSchema(Image(rows, accounts))
    ensures Mirrors(Image(rows, accounts), rows, accounts)
  {}

  lemma {:induction false} DemoteKeeps(rows: seq<Account>, accounts: seq<RowRef>)
    requires Listable(rows, accounts)
    ensures Listable(Demote(rows, accounts), accounts)
    ensures RowsEvolve(rows, Demote(rows, accounts))
    ensures |Demote(rows, accounts)| == |rows|
    ensures forall r :: 0 <= r < |rows| && Demote(rows, accounts)[r].state == Disconnected ==>
              rows[r].state == Disconnected
    ensures forall r :: 0 <= r < |rows| && Demote(rows, accounts)[r].state == Connected ==>
              rows[r].state == Connected
  {}

  /** Every state handed to the store meets its schema, whatever the store answers. */
  lemma {:induction false} PersistKeeps(b: Book, next: seq<RowRef>, save: Save, g: nat)
    requires Listable(b.rows, b.accounts) && Listable(b.rows, next) && MeetsSchema(b.durable)
    requires forall r :: r in next ==> r in b.accounts || r < |b.rows|
    ensures BookOk(Persist(b, next, save))
    ensures |Persist(b, next, save).rows| == |b.rows|
    ensures next == b.accounts ==> Moves(b, g, Persist(b, next, save), g, NONE)
    ensures RowsEvolve(b.rows, Persist(b, next, save).rows)
    ensures forall r :: 0 <= r < |b.rows| && Persist(b, next, save).rows[r].state == Disconnected ==>
              b.rows[r].state == Disconnected
    ensures forall r :: 0 <= r < |b.rows| && Persist(b, next, save).rows[r].state == Connected ==>
              b.rows[r].state == Connected
    ensures save.Confirmed? ==> Persist(b, next, save).rows == b.rows && Persist(b, next, save).accounts == next
    ensures !save.Confirmed? ==> Persist(b, next, save).accounts == b.accounts
    ensures b.saveFailed || !save.Confirmed? ==> Persist(b, next, save).saveFailed
  {
    hide Image;
    hide Demote;
    hide Listable;
    hide RowsOk;
    hide MeetsSchema;
    hide Mirrors;
    ImageMeetsSchema(b.rows, next);
    DemoteKeeps(b.rows, b.accounts);
  }

  // ---------------------------------------------------------------- the operations

  /** Writing one row: the published list keeps its ids, the stored state is left behind. */
  lemma {:induction false} UpdateKeeps(b: Book, r: RowRef, a: Account)
    requires Listable(b.rows, b.accounts)
    requires r < |b.rows| ==> RowMeetsSchema(a) && a.id == b.rows[r].id
                              && a.clientId == b.rows[r].clientId && a.subject == b.rows[r].subject
    ensures Listable(Update(b, r, a).rows, b.accounts)
    ensures |Update(b, r, a).rows| == |b.rows|
  {}

  lemma {:induction false} UpdateModelsKeeps(b: Book, r: RowRef, models: set<string>, g: nat)
    requires BookOk(b) && models != {}
    ensures BookOk(Update(b, r, At(b.rows, r).(models := models)))
    ensures Moves(b, g, Update(b, r, At(b.rows, r).(models := models)), g, NONE)
  {
    var a := At(b.rows, r).(models := models);
    UpdateKeeps(b, r, a);
    assert InRange(b.rows, b.accounts);
  }

  /** The shape shared by every in-place write that is then persisted. */
  lemma {:induction false} WriteAndPersist(b: Book, r: RowRef, a: Account, save: Save, g: nat, h: nat)
    requires BookOk(b) && g <= h
    requires r < |b.rows| ==> RowMeetsSchema(a) && RowEvolves(b.rows[r], a)
    requires r < |b.rows| && a.state == Disconnected && b.rows[r].state != Disconnected ==>
               g < h && r in b.accounts
    ensures BookOk(Persist(Update(b, r, a), b.accounts, save))
    ensures Moves(b, g, Persist(Update(b, r, a), b.accounts, save), h, r)
    ensures a.state != Connected ==> Moves(b, g, Persist(Update(b, r, a), b.accounts, save), h, NONE)
    ensures |Persist(Update(b, r, a), b.accounts, save).rows| == |b.rows|
    ensures Persist(Update(b, r, a), b.accounts, save).accounts == b.accounts
    ensures save.Confirmed? ==> Persist(Update(b, r, a), b.accounts, save).rows == Put(b.rows, r, a)
  {
    hide Persist;
    hide MeetsSchema;
    hide Mirrors;
    UpdateKeeps(b, r, a);
    var back := if a.state == Connected then r else NONE;
    assert Moves(b, g, Update(b, r, a), h, back);
    PersistKeeps(Update(b, r, a), b.accounts, save, h);
    MovesTwice(b, g, Update(b, r, a), h, Persist(Update(b, r, a), b.accounts, save), h, back);
  }

  lemma {:induction false} ConnectKeeps(b: Book, r: RowRef, models: set<string>, save: Save, g: nat)
    requires BookOk(b) && models != {} && (r < |b.rows| ==> b.rows[r].state != Disconnected)
    ensures BookOk(Connect(b, r, models, save)) && Moves(b, g, Connect(b, r, models, save), g, r)
    ensures |Connect(b, r, models, save).rows| == |b.rows|
    ensures Connect(b, r, models, save).accounts == b.accounts
  {
    hide Persist;
    hide Update;
    hide MeetsSchema;
    hide Mirrors;
    WriteAndPersist(b, r, At(b.rows, r).(models := models, state := Connected), save, g, g);
  }

  lemma {:induction false} LapseKeeps(b: Book, r: RowRef, save: Save, g: nat)
    requires BookOk(b) && Owns(b, r)
    ensures BookOk(Lapse(b, r, save)) && Moves(b, g, Lapse(b, r, save), g, NONE)
    ensures |Lapse(b, r, save).rows| == |b.rows|
    ensures Lapse(b, r, save).accounts == b.accounts
  {
    hide Persist;
    hide Update;
    hide MeetsSchema;
    hide Mirrors;
    WriteAndPersist(b, r, At(b.rows, r).(state := ReauthRequired), save, g, g);
  }

  lemma {:induction false} WithdrawKeeps(b: Book, r: RowRef, save: Save, g: nat, h: nat)
    requires BookOk(b) && r in b.accounts && g < h
    ensures BookOk(Withdraw(b, r, save)) && Moves(b, g, Withdraw(b, r, save), h, NONE)
    ensures |Withdraw(b, r, save).rows| == |b.rows|
    ensures Withdraw(b, r, save).accounts == b.accounts
    ensures At(Withdraw(b, r, save).rows, r).state == Disconnected
  {
    hide Persist;
    hide Update;
    hide MeetsSchema;
    hide Mirrors;
    var row := At(b.rows, r);
    var a := row.(state := Disconnected, revocationPending := row.revocationPending || row.refreshToken != 0);
    assert r < |b.rows| by {
      var i :| 0 <= i < |b.accounts| && b.accounts[i] == r;
    }
    WriteAndPersist(b, r, a, save, g, h);
    PersistPut(b, r, a, save);
  }

  lemma {:induction false} EraseKeeps(b: Book, r: RowRef, revoked: bool, save: Save, g: nat)
    requires BookOk(b) && At(b.rows, r).state == Disconnected
    ensures BookOk(Erase(b, r, revoked, save)) && Moves(b, g, Erase(b, r, revoked, save), g, NONE)
    ensures |Erase(b, r, revoked, save).rows| == |b.rows|
    ensures Erase(b, r, revoked, save).accounts == b.accounts
  {
    hide Persist;
    hide Update;
    hide MeetsSchema;
    hide Mirrors;
    WriteAndPersist(b, r, SignedOut(At(b.rows, r), revoked), save, g, g);
  }

  lemma {:induction false} PersistPut(b: Book, r: RowRef, a: Account, save: Save)
    requires r < |b.rows| && a.state == Disconnected
    ensures At(Persist(Update(b, r, a), b.accounts, save).rows, r).state == Disconnected
  {}

  // ---------------------------------------------------------------- new objects

  lemma {:induction false} AllocateKeeps(b: Book, a: Account)
    requires Listable(b.rows, b.accounts) && RowMeetsSchema(a) && a.id == AccountId(a.clientId, a.subject)
    ensures Listable(Allocate(b, a).rows, b.accounts)
  {}

  lemma {:induction false} ReplaceListable(b: Book, r: RowRef, a: Account)
    requires Listable(b.rows, b.accounts) && RowMeetsSchema(a) && a.id == AccountId(a.clientId, a.subject)
    requires r < |b.rows| && a.id == b.rows[r].id
    ensures Listable(Allocate(b, a).rows, Replace(b.accounts, r, |b.rows|))
    ensures forall q :: q in Replace(b.accounts, r, |b.rows|) ==> (q in b.accounts && q != r) || q == |b.rows|
    ensures forall q :: q in b.accounts && q != r ==> q in Replace(b.accounts, r, |b.rows|)
    ensures r in b.accounts ==> |b.rows| in Replace(b.accounts, r, |b.rows|)
  {
    var next := Replace(b.accounts, r, |b.rows|);
    forall q | q in b.accounts && q != r ensures q in next {
      var i :| 0 <= i < |b.accounts| && b.accounts[i] == q;
      assert next[i] == q;
    }
    if r in b.accounts {
      var i :| 0 <= i < |b.accounts| && b.accounts[i] == r;
      assert next[i] == |b.rows|;
    }
    forall i, j | 0 <= i < j < |next|
      ensures At(Allocate(b, a).rows, next[i]).id != At(Allocate(b, a).rows, next[j]).id
    {
      assert At(b.rows, b.accounts[i]).id != At(b.rows, b.accounts[j]).id;
    }
  }

  /** Saving a rotated pair swaps exactly one published object for its successor. */
  lemma {:induction false} RotateKeeps(b: Book, r: RowRef, g: Grant, save: Save, n: nat)
    requires BookOk(b) && r in b.accounts && At(b.rows, r).state != Disconnected
    ensures BookOk(Rotate(b, r, g, save)) && Moves(b, n, Rotate(b, r, g, save), n, NONE)
    ensures |Rotate(b, r, g, save).rows| == |b.rows| + 1
    ensures !save.Confirmed? ==> Rotate(b, r, g, save).accounts == b.accounts
    ensures save.Confirmed? ==>
              && Rotate(b, r, g, save).rows == b.rows + [Rotated(At(b.rows, r), g)]
              && Rotate(b, r, g, save).accounts == Replace(b.accounts, r, |b.rows|)
  {
    hide Persist;
    hide MeetsSchema;
    hide Mirrors;
    hide Replace;
    var a := Rotated(At(b.rows, r), g);
    var i :| 0 <= i < |b.accounts| && b.accounts[i] == r;
    AllocateKeeps(b, a);
    ReplaceListable(b, r, a);
    var grown := Allocate(b, a);
    PersistKeeps(grown, Replace(b.accounts, r, |b.rows|), save, n);
    PersistMoves(b, a, Replace(b.accounts, r, |b.rows|), save, n);
  }

  lemma {:induction false} PersistMoves(b: Book, a: Account, next: seq<RowRef>, save: Save, n: nat)
    requires BookOk(b) && Listable(Allocate(b, a).rows, b.accounts) && Listable(Allocate(b, a).rows, next)
    requires forall q :: q in next ==> q in b.accounts || q == |b.rows|
    ensures Moves(b, n, Persist(Allocate(b, a), next, save), n, NONE)
  {
    hide Persist;
    hide MeetsSchema;
    hide Mirrors;
    hide Listable;
    var grown := Allocate(b, a);
    assert forall q :: q in next ==> q in b.accounts || q < |grown.rows|;
    PersistKeeps(grown, next, save, n);
    var c := Persist(grown, next, save);
    forall q | 0 <= q < |b.rows| ensures RowEvolves(b.rows[q], c.rows[q]) {
      assert RowEvolves(grown.rows[q], c.rows[q]);
    }
  }

  lemma {:induction false} RegisterListable(b: Book, a: Account)
    requires Listable(b.rows, b.accounts) && RowMeetsSchema(a) && a.id == AccountId(a.clientId, a.subject)
    requires |b.accounts| < MAX_ACCOUNTS || exists r :: r in b.accounts && At(b.rows, r).id == a.id
    ensures Listable(Allocate(b, a).rows, Without(Allocate(b, a).rows, b.accounts, a.id) + [|b.rows|])
    ensures forall q :: q in Without(Allocate(b, a).rows, b.accounts, a.id) + [|b.rows|] <==>
                        (q in b.accounts && At(b.rows, q).id != a.id) || q == |b.rows|
  {
    var rows := Allocate(b, a).rows;
    AllocateKeeps(b, a);
    WithoutMembers(rows, b.accounts, a.id);
    assert DistinctIds(rows, b.accounts);
    WithoutDistinct(rows, b.accounts, a.id);
    var kept := Without(rows, b.accounts, a.id);
    var next := kept + [|b.rows|];
    forall q | q in b.accounts ensures q < |b.rows| && At(rows, q) == At(b.rows, q) {
      var i :| 0 <= i < |b.accounts| && b.accounts[i] == q;
    }
    forall i, j | 0 <= i < j < |next| ensures At(rows, next[i]).id != At(rows, next[j]).id {
      assert next[i] in kept;
      if j < |kept| {
        assert next[j] == kept[j];
      }
    }
    forall i | 0 <= i < |next| ensures next[i] < |rows| {
      if i < |kept| {
        assert kept[i] in kept;
      }
    }
  }

  /** Saving a sign-in publishes its row in place of every row with the same id. */
  lemma {:induction false} RegisterKeeps(b: Book, a: Account, save: Save, n: nat)
    requires BookOk(b) && RowMeetsSchema(a) && a.id == AccountId(a.clientId, a.subject)
    requires |b.accounts| < MAX_ACCOUNTS || exists r :: r in b.accounts && At(b.rows, r).id == a.id
    ensures BookOk(Register(b, a, save)) && Moves(b, n, Register(b, a, save), n, NONE)
    ensures |Register(b, a, save).rows| == |b.rows| + 1
    ensures !save.Confirmed? ==> Register(b, a, save).accounts == b.accounts
    ensures save.Confirmed? ==>
              && Register(b, a, save).rows == b.rows + [a]
              && forall q :: q in Register(b, a, save).accounts <==>
                             (q in b.accounts && At(b.rows, q).id != a.id) || q == |b.rows|
  {
    hide Persist;
    hide MeetsSchema;
    hide Mirrors;
    hide Without;
    AllocateKeeps(b, a);
    RegisterListable(b, a);
    var grown := Allocate(b, a);
    var next := Without(grown.rows, b.accounts, a.id) + [|b.rows|];
    PersistKeeps(grown, next, save, n);
    PersistMoves(b, a, next, save, n);
  }
}

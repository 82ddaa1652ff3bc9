/** The two commands of the transfer (scripts/ci-build-output.py) on a checkout whose tree they read
    and rewrite. */
module BuildTree {
  import opened Options
  import opened BuildOutput

  /** No output lies below two roots. */
  lemma {:induction false} RootsAreApart(scope: Scope, a: Path, b: Path, p: Path)
    requires a in Roots(scope) && b in Roots(scope) && a <= p && b <= p
    ensures a == b
  {
    PrefixesCompare(a, b, p);
    assert forall x, y :: x in Roots(scope) && y in Roots(scope) && |x| < |y| ==> x[0] != y[0];
    assert |a| == |b|;
    assert a == p[..|a|] && b == p[..|b|];
  }

  /** What pack has collected so far. */
  ghost predicate Collected(files: map<Path, Node>, total: nat, t: Tree) {
    && (forall p :: p in files ==> p in t && files[p] == t[p] && t[p].File?)
    && total == Sum(Lengths(files)) && total <= MAX_BYTES && |files| <= MAX_FILES
  }

  lemma {:induction false} CollectOne(files: map<Path, Node>, total: nat, t: Tree, p: Path)
    requires Collected(files, total, t) && p !in files && p in t && t[p].File?
    ensures var more := files[p := t[p]];
            Sum(Lengths(more)) == total + |t[p].data| && |more| == |files| + 1
  {
    OneMore(files, p, t[p]);
    LengthsMore(files, p, t[p]);
    var before := Lengths(files);
    hide Lengths;
    SumWith(before, p, |t[p].data|);
    hide Sum;
  }

  lemma {:induction false} OneMore(files: map<Path, Node>, p: Path, node: Node)
    requires p !in files
    ensures |files[p := node]| == |files| + 1
  {
    assert files[p := node].Keys == files.Keys + {p};
  }

  lemma {:induction false} LengthsMore(files: map<Path, Node>, p: Path, node: Node)
    requires p !in files && node.File?
    ensures p !in Lengths(files)
    ensures Lengths(files[p := node]) == Lengths(files)[p := |node.data|]
  {
  }

  /** More files than the limits allow stay more. */
  lemma {:induction false} OutputsAreTheTree(t: Tree, scope: Scope)
    ensures forall p :: p in Outputs(t, scope) ==> p in t && Outputs(t, scope)[p] == t[p]
  {}

  lemma {:induction false} LengthsOfSome(files: map<Path, Node>, all: map<Path, Node>)
    requires forall p :: p in files ==> p in all && files[p] == all[p]
    ensures forall p :: p in Lengths(files) ==> p in Lengths(all) && Lengths(files)[p] == Lengths(all)[p]
  {}

  lemma {:induction false} TooMuch(files: map<Path, Node>, t: Tree, scope: Scope)
    requires forall p :: p in files ==> p in Outputs(t, scope) && files[p] == t[p]
    ensures |files| <= |Outputs(t, scope)|
    ensures Sum(Lengths(files)) <= Sum(Lengths(Outputs(t, scope)))
  {
    hide Outputs;
    hide Sum;
    hide Lengths;
    var all := Outputs(t, scope);
    OutputsAreTheTree(t, scope);
    assert files.Keys <= all.Keys;
    assert |files.Keys| <= |all.Keys| by { assert all.Keys == files.Keys + (all.Keys - files.Keys); }
    LengthsOfSome(files, all);
    SumOfSome(Lengths(files), Lengths(all));
  }

  lemma {:induction false} NothingCollected(t: Tree, scope: Scope, rule: Rule)
    ensures IsSplit(Roots(scope), Roots(scope), {})
    ensures Collected(map[], 0, t) && AreFilesBelow(map[], t, {}) && AllPackable(t, {}, scope, rule)
  {
    assert Lengths(map[]) == map[];
  }

  /** Within the limits one more file is collected. */
  lemma {:induction false} CollectMore(files: map<Path, Node>, total: nat, t: Tree, p: Path)
    requires Collected(files, total, t) && p !in files && p in t && t[p].File?
    requires total + |t[p].data| <= MAX_BYTES && |files| < MAX_FILES
    ensures Collected(files[p := t[p]], total + |t[p].data|, t)
  {
    CollectOne(files, total, t, p);
    hide Sum;
    hide Lengths;
  }

  /** Beyond them the tree cannot be packed. */
  lemma {:induction false} TooMuchToPack(files: map<Path, Node>, total: nat, t: Tree, p: Path, scope: Scope, rule: Rule)
    requires Collected(files, total, t) && p !in files && p in t && t[p].File?
    requires Below(p, Roots(scope)) && forall q :: q in files ==> Below(q, Roots(scope))
    requires total + |t[p].data| > MAX_BYTES || |files| >= MAX_FILES
    ensures !Packable(t, scope, rule)
  {
    CollectOne(files, total, t, p);
    hide Roots;
    TooMuch(files[p := t[p]], t, scope);
    hide Sum;
    hide Lengths;
    hide Required;
    hide IsPackable;
    hide IsRegularParent;
  }

  /** When every root has been collected only the required entries are left to check. */
  lemma {:induction false} AllCollected(files: map<Path, Node>, total: nat, t: Tree, scope: Scope, rule: Rule)
    requires Collected(files, total, t) && AllPackable(t, Roots(scope), scope, rule)
    requires AreFilesBelow(files, t, Roots(scope))
    ensures files == Outputs(t, scope)
    ensures Packable(t, scope, rule) <==> Required(scope) <= files.Keys
  {
    hide Roots;
    hide Below;
    hide Sum;
    hide Lengths;
    hide Required;
    hide IsPackable;
    hide IsRegularParent;
    assert files == Outputs(t, scope);
    hide Outputs;
  }

  lemma {:induction false} PackedByDefinition(a: Archive, t: Tree, c: Checkout, scope: Scope)
    requires IdentityOf(c, scope).Some? && Holds(a.entries, Outputs(t, scope))
    requires forall p :: p in Outputs(t, scope) ==> Outputs(t, scope)[p].File?
    requires c.host.Some?
    requires a.manifest == Some(ManifestOf(Outputs(t, scope), scope, IdentityOf(c, scope).value, c.host.value))
    ensures Packs(a, t, c, scope)
  {
  }

  lemma {:induction false} HoldsOneMore(entries: seq<Entry>, files: map<Path, Node>, name: Path, node: Node)
    requires Holds(entries, files) && name !in files && node.File?
    ensures Holds(entries + [Entry(name, node.data, true)], files[name := node])
  {
    var more := entries + [Entry(name, node.data, true)];
    assert more[|entries|].name == name;
    forall p | p in files ensures exists i :: 0 <= i < |more| && more[i].name == p {
      var i :| 0 <= i < |entries| && entries[i].name == p;
      assert more[i].name == p;
    }
  }

  /** Everything below these roots may be transferred. */
  ghost predicate AllPackable(t: Tree, roots: set<Path>, scope: Scope, rule: Rule) {
    forall p :: p in t && Below(p, roots) ==> t[p].Directory? || IsPackable(p, t[p], scope, rule)
  }

  lemma {:induction false} ApartFromTheDone(scope: Scope, done: set<Path>, root: Path, p: Path)
    requires done <= Roots(scope) && root in Roots(scope) && root !in done && Below(p, done)
    ensures !(root < p) && Below(p, Roots(scope))
  {
    var other :| other in done && other < p;
    if root < p { RootsAreApart(scope, root, other, p); }
  }

  /** These are the regular files below these roots, and the roots are directories. */
  ghost predicate AreFilesBelow(files: map<Path, Node>, t: Tree, roots: set<Path>) {
    && (forall p :: p in files <==> p in t && t[p].File? && Below(p, roots))
    && (forall root :: root in roots ==> IsRegularParent(t, root) && root in t)
  }

  /** The regular files below one root were added. */
  ghost predicate AddsRoot(files: map<Path, Node>, more: map<Path, Node>, t: Tree, root: Path) {
    forall p :: p in more <==> p in files || (p in t && root < p && t[p].File?)
  }

  lemma {:induction false} FilesOneMore(
    files: map<Path, Node>, more: map<Path, Node>, t: Tree, done: set<Path>, root: Path)
    requires AreFilesBelow(files, t, done) && IsRegularParent(t, root) && root in t
    requires AddsRoot(files, more, t, root)
    ensures AreFilesBelow(more, t, done + {root})
  {
    BelowOneMore(done, root);
    hide Below;
    hide IsRegularParent;
  }

  lemma {:induction false} NextRoot(files: map<Path, Node>, t: Tree, scope: Scope, done: set<Path>, root: Path)
    requires AreFilesBelow(files, t, done)
    requires done <= Roots(scope) && root in Roots(scope) && root !in done
    ensures forall p :: p in files ==> Below(p, Roots(scope)) && !(root < p)
  {
    forall p | p in files ensures Below(p, Roots(scope)) && !(root < p) { ApartFromTheDone(scope, done, root, p); }
  }

  lemma {:induction false} BelowOne(root: Path)
    ensures forall p :: Below(p, {root}) <==> root < p
  {
  }

  lemma {:induction false} BelowOneMore(done: set<Path>, root: Path)
    ensures forall p :: Below(p, done + {root}) <==> Below(p, done) || root < p
  {
  }

  lemma {:induction false} PackableOneMore(t: Tree, done: set<Path>, root: Path, scope: Scope, rule: Rule)
    requires AllPackable(t, done, scope, rule)
    ensures AllPackable(t, {root}, scope, rule) <==> AllPackable(t, done + {root}, scope, rule)
  {
    BelowOne(root);
    BelowOneMore(done, root);
    hide Below;
    hide IsPackable;
  }

  lemma {:induction false} PackableIsFile(p: Path, node: Node, scope: Scope, rule: Rule)
    requires IsPackable(p, node, scope, rule)
    ensures node.File?
  {
  }

  ghost predicate IsSplit(all: set<Path>, todo: set<Path>, done: set<Path>) {
    all == todo + done && todo !! done
  }

  lemma {:induction false} NextSplit(all: set<Path>, todo: set<Path>, done: set<Path>, root: Path)
    requires IsSplit(all, todo, done) && root in todo
    ensures root in all && root !in done && done <= all && IsSplit(all, todo - {root}, done + {root})
  {
  }

  lemma {:induction false} LastSplit(all: set<Path>, done: set<Path>)
    requires IsSplit(all, {}, done)
    ensures done == all
  {
  }

  lemma {:induction false} RootMustBeRegular(t: Tree, scope: Scope, rule: Rule, root: Path)
    requires root in Roots(scope)
    ensures Packable(t, scope, rule) ==> IsRegularParent(t, root) && root in t
    ensures forall p :: root < p ==> Below(p, Roots(scope))
  {
    hide IsRegularParent;
    hide Roots;
  }

  lemma {:induction false} AllOfOneRoot(
    files: map<Path, Node>, more: map<Path, Node>, t: Tree, root: Path, scope: Scope, rule: Rule)
    requires forall p :: p in more <==> p in files || (p in t && root < p && t[p].File?)
    requires forall p :: p in t && root < p ==> t[p].Directory? || IsPackable(p, t[p], scope, rule)
    ensures AddsRoot(files, more, t, root) && AllPackable(t, {root}, scope, rule)
  {
    BelowOne(root);
    hide Below;
    hide IsPackable;
  }

  // ---------------------------------------------------------------- the steps of restore

  lemma {:induction false} ExpectedNames(a: Archive, source: Identity, scope: Scope)
    requires IsExpected(a, source, scope)
    ensures a.manifest.Some? && Distinct(a.entries)
    ensures forall i :: 0 <= i < |a.entries| ==> a.entries[i].name in a.manifest.value.files
  {
    forall i | 0 <= i < |a.entries| ensures a.entries[i].name in Names(a.entries) {}
  }

  lemma {:induction false} TotalOneMore(entries: seq<Entry>, i: nat)
    requires Distinct(entries) && i < |entries|
    ensures Sum(Sizes(Unpacked(entries[..i + 1]))) == Sum(Sizes(Unpacked(entries[..i]))) + |entries[i].data|
  {
    var before := Unpacked(entries[..i]);
    assert entries[..i + 1][..i] == entries[..i];
    UnpackedKeys(entries[..i]);
    assert entries[i].name !in before;
    assert Sizes(before[entries[i].name := entries[i].data]) == Sizes(before)[entries[i].name := |entries[i].data|];
    SumWith(Sizes(before), entries[i].name, |entries[i].data|);
  }

  lemma {:induction false} UnpackedGrows(entries: seq<Entry>, i: nat)
    requires Distinct(entries) && i <= |entries|
    ensures Sum(Sizes(Unpacked(entries[..i]))) <= Sum(Sizes(Unpacked(entries)))
    decreases |entries| - i
  {
    if i == |entries| {
      assert entries[..i] == entries;
    } else {
      TotalOneMore(entries, i);
      UnpackedGrows(entries, i + 1);
    }
  }

  /** The first entries are sound. */
  ghost predicate SoundUpTo(a: Archive, t: Tree, scope: Scope, rule: Rule, n: nat) {
    && a.manifest.Some? && n <= |a.entries|
    && forall i :: 0 <= i < n ==>
         && a.entries[i].name in a.manifest.value.files
         && IsSound(a.entries[i], a.manifest.value.files[a.entries[i].name], t, scope, rule)
  }

  lemma {:induction false} SoundOneMore(a: Archive, t: Tree, scope: Scope, rule: Rule, n: nat)
    requires SoundUpTo(a, t, scope, rule, n) && n < |a.entries| && a.entries[n].name in a.manifest.value.files
    ensures var sound := IsSound(a.entries[n], a.manifest.value.files[a.entries[n].name], t, scope, rule);
            && (sound ==> SoundUpTo(a, t, scope, rule, n + 1))
            && (!sound ==> !AllSound(a, t, scope, rule))
  {
    hide IsSound;
  }

  lemma {:induction false} SoundAll(a: Archive, t: Tree, scope: Scope, rule: Rule)
    requires SoundUpTo(a, t, scope, rule, |a.entries|)
    ensures AllSound(a, t, scope, rule)
  {
    hide IsSound;
  }

  lemma {:induction false} NothingUnpacked(a: Archive, t: Tree, scope: Scope, rule: Rule)
    requires a.manifest.Some?
    ensures SoundUpTo(a, t, scope, rule, 0) && Sum(Sizes(Unpacked(a.entries[..0]))) == 0
  {
    assert Unpacked(a.entries[..0]) == map[] && Sizes(map[]) == map[];
  }

  lemma {:induction false} TotalOfAll(a: Archive)
    ensures Unpacked(a.entries[..|a.entries|]) == Unpacked(a.entries)
  {
    assert a.entries[..|a.entries|] == a.entries;
  }

  lemma {:induction false} ValidByDefinition(t: Tree, a: Archive, c: Checkout, scope: Scope, rule: Rule)
    requires IdentityOf(c, scope).Some? && IsExpected(a, IdentityOf(c, scope).value, scope)
    ensures Validates(t, a, c, scope, rule) <==>
              AllSound(a, t, scope, rule) && Sum(Sizes(Unpacked(a.entries))) <= MAX_BYTES && RootsAreRegular(t, scope)
  {
  }

  /** What validation leaves for the writing: distinct output names below regular ways. */
  ghost predicate Writable(t: Tree, a: Archive, scope: Scope) {
    && a.manifest.Some? && Distinct(a.entries)
    && forall i :: 0 <= i < |a.entries| ==>
         && a.entries[i].name in a.manifest.value.files && a.entries[i].name != []
         && Below(a.entries[i].name, Roots(scope))
         && IsRegularParent(t, a.entries[i].name[..|a.entries[i].name| - 1])
  }

  lemma {:induction false} ValidEntry(t: Tree, a: Archive, c: Checkout, scope: Scope, rule: Rule, i: nat)
    requires Validates(t, a, c, scope, rule) && i < |a.entries|
    ensures a.entries[i].name != [] && Below(a.entries[i].name, Roots(scope))
    ensures IsRegularParent(t, a.entries[i].name[..|a.entries[i].name| - 1])
  {
    assert IsSound(a.entries[i], a.manifest.value.files[a.entries[i].name], t, scope, rule);
    hide IsRegularParent;
    hide Roots;
    hide IsExpected;
  }

  lemma {:induction false} ValidFacts(t: Tree, a: Archive, c: Checkout, scope: Scope, rule: Rule)
    requires Validates(t, a, c, scope, rule)
    ensures Writable(t, a, scope)
    ensures a.manifest.Some? && forall i :: 0 <= i < |a.entries| ==> a.entries[i].name in a.manifest.value.files
  {
    ExpectedNames(a, IdentityOf(c, scope).value, scope);
    hide *;
    forall i | 0 <= i < |a.entries|
      ensures a.entries[i].name != [] && Below(a.entries[i].name, Roots(scope))
           && IsRegularParent(t, a.entries[i].name[..|a.entries[i].name| - 1])
    {
      ValidEntry(t, a, c, scope, rule, i);
    }
    WritableByDefinition(t, a, scope);
  }

  lemma {:induction false} WritableByDefinition(t: Tree, a: Archive, scope: Scope)
    requires a.manifest.Some? && Distinct(a.entries)
    requires forall i :: 0 <= i < |a.entries| ==>
               && a.entries[i].name in a.manifest.value.files && a.entries[i].name != []
               && Below(a.entries[i].name, Roots(scope))
               && IsRegularParent(t, a.entries[i].name[..|a.entries[i].name| - 1])
    ensures Writable(t, a, scope)
  {
    hide Distinct;
    hide Below;
    hide Roots;
    hide IsRegularParent;
  }

  /** The tree after a restore. */
  ghost predicate IsRestored(t: Tree, a: Archive, scope: Scope, after: Tree) {
    && a.manifest.Some? && (forall i :: 0 <= i < |a.entries| ==> a.entries[i].name in a.manifest.value.files)
    && after == Restored(t, a, scope)
  }

  lemma {:induction false} RestoredByDefinition(t: Tree, a: Archive, scope: Scope, after: Tree)
    requires a.manifest.Some? && forall i :: 0 <= i < |a.entries| ==> a.entries[i].name in a.manifest.value.files
    requires after == Laid(Cleared(t, Roots(scope)), Files(a.entries, a.manifest.value.files))
    ensures IsRestored(t, a, scope, after)
  {
    hide Laid;
    hide Files;
  }

  lemma {:induction false} ClearedKeeps(t: Tree, scope: Scope)
    ensures forall p :: p in t && !AtOrBelow(p, Roots(scope)) ==>
              p in Cleared(t, Roots(scope)) && Cleared(t, Roots(scope))[p] == t[p]
  {
    hide AtOrBelow;
    hide Roots;
  }

  lemma {:induction false} LaidNothing(t: Tree, scope: Scope, entries: seq<Entry>, metas: map<Path, Meta>)
    ensures Cleared(t, Roots(scope)) == Laid(Cleared(t, Roots(scope)), Files(entries[..0], metas))
    ensures IsUnnested(Names(entries[..0]))
  {
    var base := Cleared(t, Roots(scope));
    hide Cleared;
    var none: map<Path, Node> := map[];
    assert Files(entries[..0], metas) == none && none.Keys == {};
    assert Laid(base, none) == base;
  }

  /** The next file can be written exactly when the inventory stays free of nesting; if it cannot, the
      whole inventory is nested. */
  lemma {:induction false} WritableNext(t: Tree, a: Archive, scope: Scope, i: nat)
    requires Writable(t, a, scope) && i < |a.entries| && IsUnnested(Names(a.entries[..i]))
    ensures var (metas, e, next) := (a.manifest.value.files, a.entries[i], a.entries[..i + 1]);
            && (forall j :: 0 <= j < |next| ==> next[j].name in metas)
            && (CanWrite(Laid(Cleared(t, Roots(scope)), Files(a.entries[..i], metas)), e.name) <==> IsUnnested(Names(next)))
            && (!IsUnnested(Names(next)) ==> !IsUnnested(Names(a.entries)))
            && Files(next, metas) == Files(a.entries[..i], metas)[e.name := File(e.data, Whole(metas[e.name].mode))]
            && AtOrBelow(e.name, Roots(scope))
  {
    var metas := a.manifest.value.files;
    var some := a.entries[..i];
    var name := a.entries[i].name;
    FilesMore(a.entries, metas, i);
    hide *;
    WrittenSoFar(t, a, scope, i);
    WritableIfFree(t, scope, Files(some, metas), name);
    BelowIsAtOrBelow(name, Roots(scope));
    NamesMore(a.entries, i);
    UnnestedMore(Names(some), name);
  }

  lemma {:induction false} WrittenSoFar(t: Tree, a: Archive, scope: Scope, i: nat)
    requires Writable(t, a, scope) && i < |a.entries|
    ensures IsRegularParent(t, a.entries[i].name[..|a.entries[i].name| - 1]) && Below(a.entries[i].name, Roots(scope))
    ensures var files := Files(a.entries[..i], a.manifest.value.files);
            && files.Keys == Names(a.entries[..i])
            && forall p :: p in files ==> files[p].File? && Below(p, Roots(scope)) && p != a.entries[i].name
  {
    var some := a.entries[..i];
    FilesHold(some, a.manifest.value.files);
    hide Files;
    hide IsRegularParent;
    hide Below;
    hide Roots;
    forall p | p in Names(some) ensures Below(p, Roots(scope)) && p != a.entries[i].name {
      var j :| 0 <= j < |some| && some[j].name == p;
      assert a.entries[j].name == p;
    }
  }

  lemma {:induction false} NamesMore(entries: seq<Entry>, i: nat)
    requires i < |entries|
    ensures Names(entries[..i + 1]) == Names(entries[..i]) + {entries[i].name}
    ensures !IsUnnested(Names(entries[..i + 1])) ==> !IsUnnested(Names(entries))
  {
    assert entries[..i + 1][..i] == entries[..i];
    NamesSplit(entries[..i + 1]);
    forall n | n in Names(entries[..i + 1]) ensures n in Names(entries) {
      var j :| 0 <= j < i + 1 && entries[..i + 1][j].name == n;
      assert entries[j].name == n;
    }
    hide Names;
    FewerAreUnnested(Names(entries[..i + 1]), Names(entries));
  }

  lemma {:induction false} FewerAreUnnested(some: set<Path>, names: set<Path>)
    requires some <= names
    ensures IsUnnested(names) ==> IsUnnested(some)
  {
    if IsUnnested(names) {
      forall a, b | a in some && b in some ensures !(a < b) { assert a in names && b in names; }
    }
  }

  lemma {:induction false} FilesMore(entries: seq<Entry>, metas: map<Path, Meta>, i: nat)
    requires i < |entries| && forall j :: 0 <= j < |entries| ==> entries[j].name in metas
    ensures var (e, next) := (entries[i], entries[..i + 1]);
            && (forall j :: 0 <= j < |next| ==> next[j].name in metas)
            && Files(next, metas) == Files(entries[..i], metas)[e.name := File(e.data, Whole(metas[e.name].mode))]
  {
    assert entries[..i + 1][..i] == entries[..i];
  }

  lemma {:induction false} UnnestedMore(names: set<Path>, name: Path)
    requires IsUnnested(names)
    ensures IsUnnested(names + {name}) <==> IsFree(name, names)
  {
    var more := names + {name};
    if !IsFree(name, names) {
      var n :| n in names && (n < name || name < n);
      assert n in more && name in more;
    } else {
      forall a, b | a in more && b in more ensures !(a < b) {
        assert a == name || a in names;
        assert b == name || b in names;
      }
    }
  }

  /** A failing write after part of the inventory leaves an abandoned restore. */
  lemma {:induction false} StaysDeclared(
      t: Tree, a: Archive, c: Checkout, scope: Scope, rule: Rule, entries: seq<Entry>, so: Tree, after: Tree, e: Entry)
    requires Validates(t, a, c, scope, rule) && entries <= a.entries
    requires a.manifest.Some? && e.name in a.manifest.value.files
    requires forall i :: 0 <= i < |entries| ==> entries[i].name in a.manifest.value.files
    requires so == Laid(Cleared(t, Roots(scope)), Files(entries, a.manifest.value.files))
    requires forall p :: p in after ==>
               || (p in so && after[p] == so[p]) || after[p].Directory?
               || (p == e.name && AsWritten(after[p], a.manifest.value.files[p]))
    ensures IsAbandoned(a, scope, after)
  {
    hide Validates;
    hide Laid;
    hide Cleared;
    hide Files;
    hide AsDeclared;
    hide AsWritten;
    hide AtOrBelow;
    hide Roots;
    forall p | p in so && AtOrBelow(p, Roots(scope))
      ensures so[p].Directory? || (p in a.manifest.value.files && AsDeclared(so[p], a.manifest.value.files[p]))
    {
      LaidIsDeclared(t, a, c, scope, rule, entries, p);
    }
    assert IsAbandonedAt(a, scope, after, e.name);
  }

  lemma {:induction false} ValidContent(t: Tree, a: Archive, c: Checkout, scope: Scope, rule: Rule, i: nat, mode: int)
    requires Validates(t, a, c, scope, rule) && i < |a.entries|
    ensures a.manifest.Some? && a.entries[i].name in a.manifest.value.files
    ensures var (e, meta) := (a.entries[i], a.manifest.value.files[a.entries[i].name]);
            !meta.mode.Integer? ==> AsWritten(File(e.data, mode), meta)
  {
    assert IsSound(a.entries[i], a.manifest.value.files[a.entries[i].name], t, scope, rule);
    hide IsRegularParent;
    hide IsOutputPath;
    hide IsExpected;
  }

  /** The modes of the first entries are integers. */
  ghost predicate IntegersUpTo(a: Archive, n: nat) {
    a.manifest.Some? && n <= |a.entries| &&
    forall i :: 0 <= i < n ==>
      a.entries[i].name in a.manifest.value.files && a.manifest.value.files[a.entries[i].name].mode.Integer?
  }

  lemma {:induction false} IntegersNext(a: Archive, n: nat)
    requires IntegersUpTo(a, n) && n < |a.entries| && a.entries[n].name in a.manifest.value.files
    ensures var integer := a.manifest.value.files[a.entries[n].name].mode.Integer?;
            (integer ==> IntegersUpTo(a, n + 1)) && (!integer ==> !ModesAreIntegers(a))
  {
  }

  lemma {:induction false} IntegersAll(t: Tree, a: Archive, c: Checkout, scope: Scope, rule: Rule)
    requires Validates(t, a, c, scope, rule)
    ensures IntegersUpTo(a, 0) && (IntegersUpTo(a, |a.entries|) ==> ModesAreIntegers(a))
  {
    hide AllSound;
    if IntegersUpTo(a, |a.entries|) {
      forall p | p in a.manifest.value.files ensures a.manifest.value.files[p].mode.Integer? {
        assert p in Names(a.entries);
        var i :| 0 <= i < |a.entries| && a.entries[i].name == p;
      }
    }
  }

  /** The first directories on the way to a name were made where they were missing. */
  ghost predicate Made(t: Tree, so: Tree, name: Path, k: nat) {
    && (forall p :: p in so <==> p in t || (0 < |p| < k && p < name))
    && (forall p :: p in t ==> p in so && so[p] == t[p])
    && (forall p :: p in so && p !in t ==> so[p].Directory?)
  }

  ghost predicate IsRegularUpTo(t: Tree, name: Path, k: nat) {
    forall j :: 0 < j < k && j < |name| && name[..j] in t ==> t[name[..j]].Directory?
  }

  lemma {:induction false} NothingMade(t: Tree, name: Path)
    ensures Made(t, t, name, 1) && IsRegularUpTo(t, name, 1)
  {
  }

  lemma {:induction false} MadeFacts(t: Tree, so: Tree, name: Path, k: nat)
    requires Made(t, so, name, k)
    ensures forall p :: p in t ==> p in so && so[p] == t[p]
    ensures forall p :: p in so ==> p in t || so[p].Directory?
    ensures |name| >= k || k == 1 ==> (name in so <==> name in t)
  {
  }

  lemma {:induction false} MadeMore(t: Tree, so: Tree, name: Path, k: nat)
    requires Made(t, so, name, k) && 0 < k < |name|
    ensures name[..k] in so ==> Made(t, so, name, k + 1)
    ensures name[..k] !in so ==> Made(t, so[name[..k] := Directory], name, k + 1)
    ensures forall p :: p in t ==> p in so && so[p] == t[p]
    ensures forall p :: p in so ==> p in t || so[p].Directory?
  {
    forall p: Path | |p| == k && p < name ensures p == name[..k] {}
  }

  lemma {:induction false} RegularMore(t: Tree, name: Path, k: nat)
    requires IsRegularUpTo(t, name, k) && 0 < k < |name|
    ensures IsRegularUpTo(t, name, k + 1) <==> (name[..k] in t ==> t[name[..k]].Directory?)
    ensures !IsRegularUpTo(t, name, k + 1) ==> !CanWrite(t, name)
  {
  }

  lemma {:induction false} RegularToTheEnd(t: Tree, name: Path, k: nat)
    requires IsRegularUpTo(t, name, k) && |name| <= k
    ensures CanWrite(t, name) <==> (name in t ==> t[name].File?)
  {
  }

  lemma {:induction false} MadeThenFile(t: Tree, so: Tree, name: Path, k: nat, node: Node)
    requires Made(t, so, name, k) && |name| <= k && (k <= |name| || k == 1)
    ensures so[name := node] == Laid(t, map[name := node])
  {
    forall p ensures p in Ancestors({name}) <==> p != [] && p < name {
      AncestorsLead({name}, p);
    }
    hide Ancestors;
    assert (map[name := node]).Keys == {name};
  }

  lemma {:induction false} LaidAt(t: Tree, name: Path, node: Node)
    ensures var so := Laid(t, map[name := node]);
            && name in so && so[name] == node
            && forall other: Node :: so[name := other] == Laid(t, map[name := other])
  {
    forall other: Node ensures Laid(t, map[name := node])[name := other] == Laid(t, map[name := other]) {
      assert (map[name := node]).Keys == (map[name := other]).Keys;
      hide Ancestors;
    }
  }

  class BuildTree {
    const checkout: Checkout
    const rule: Rule
    /** The mode of a file when it is created. */
    const initial: int
    var tree: Tree

    constructor (checkout: Checkout, rule: Rule, initial: int, tree: Tree)
      ensures this.checkout == checkout && this.rule == rule && this.initial == initial && this.tree == tree
    {
      this.checkout, this.rule, this.initial, this.tree := checkout, rule, initial, tree;
    }

    /** Creates the missing parents, then the file, which keeps its mode if it existed. */
    method WriteBytes(name: Path, data: Data) returns (ok: bool)
      modifies this`tree
      ensures ok <==> CanWrite(old(tree), name)
      ensures ok ==>
                var mode := if name in old(tree) then old(tree)[name].mode else initial;
                tree == Laid(old(tree), map[name := File(data, mode)])
      ensures forall p :: p in old(tree) && p != name ==> p in tree && tree[p] == old(tree)[p]
      ensures !ok ==> forall p :: p in tree ==> (p in old(tree) && tree[p] == old(tree)[p]) || tree[p].Directory?
    {
      hide *;
      ghost var t := tree;
      var k := 1;
      NothingMade(tree, name);
      while k < |name|
        invariant 1 <= k && (k <= |name| || k == 1)
        invariant Made(t, tree, name, k) && IsRegularUpTo(t, name, k)
        decreases |name| - k
      {
        MadeMore(t, tree, name, k);
        RegularMore(t, name, k);
        if name[..k] in tree {
          if !tree[name[..k]].Directory? { return false; }
        } else {
          tree := tree[name[..k] := Directory];
        }
        k := k + 1;
      }
      MadeFacts(t, tree, name, k);
      RegularToTheEnd(t, name, k);
      if name in tree && !tree[name].File? { return false; }
      var mode := if name in tree then tree[name].mode else initial;
      MadeThenFile(t, tree, name, k, File(data, mode));
      tree := tree[name := File(data, mode)];
      ok := true;
    }

    /** Writes the bytes and sets the mode, which fails afterwards unless it is an integer. */
    method WriteFile(name: Path, data: Data, mode: Number) returns (ok: bool)
      modifies this`tree
      ensures ok <==> CanWrite(old(tree), name) && mode.Integer?
      ensures ok ==> tree == Laid(old(tree), map[name := File(data, Whole(mode))])
      ensures CanWrite(old(tree), name) && !mode.Integer? ==>
                var left := if name in old(tree) then old(tree)[name].mode else initial;
                tree == Laid(old(tree), map[name := File(data, left)])
      ensures forall p :: p in old(tree) && p != name ==> p in tree && tree[p] == old(tree)[p]
      ensures !ok ==> forall p :: p in tree ==>
                || (p in old(tree) && tree[p] == old(tree)[p]) || tree[p].Directory?
                || (p == name && !mode.Integer? && exists left :: tree[p] == File(data, left))
    {
      ok := WriteBytes(name, data);
      if !ok { return; }
      LaidAt(old(tree), name, tree[name]);
      if !mode.Integer? { return false; }
      tree := tree[name := File(data, mode.n)];
      LaidAt(old(tree), name, tree[name]);
    }

    /** Deletes every root that exists. */
    method ClearRoots(scope: Scope)
      modifies this`tree
      ensures tree == Cleared(old(tree), Roots(scope))
    {
      var todo := Roots(scope);
      ghost var cleared: set<Path> := {};
      while todo != {}
        invariant todo + cleared == Roots(scope)
        invariant tree == Cleared(old(tree), cleared)
        decreases todo
      {
        var root :| root in todo;
        todo := todo - {root};
        ghost var before := cleared;
        cleared := cleared + {root};
        hide Roots;
        tree := map p | p in tree && !(root <= p) :: tree[p];
        assert forall p :: AtOrBelow(p, cleared) <==> AtOrBelow(p, before) || root <= p;
        hide AtOrBelow;
      }
      assert cleared == Roots(scope);
    }

    /** One regular file below a root. */
    method PackFile(scope: Scope, p: Path, files: map<Path, Node>, total: nat)
      returns (ok: bool, more: map<Path, Node>, sum: nat)
      requires p in tree && !tree[p].Directory? && Below(p, Roots(scope)) && p !in files
      requires Collected(files, total, tree) && forall q :: q in files ==> Below(q, Roots(scope))
      ensures ok ==> IsPackable(p, tree[p], scope, rule) && more == files[p := tree[p]] && Collected(more, sum, tree)
      ensures !ok ==> !Packable(tree, scope, rule)
    {
      ok, more, sum := false, files, total;
      if !IsPackable(p, tree[p], scope, rule) { return; }
      var data := tree[p].data;
      hide *;
      sum := sum + |data|;
      if sum > MAX_BYTES || |files| >= MAX_FILES {
        TooMuchToPack(files, total, tree, p, scope, rule);
        return;
      }
      CollectMore(files, total, tree, p);
      more := files[p := tree[p]];
      ok := true;
    }

    /** The files below one root; refuses what may not be transferred. */
    method PackRoot(scope: Scope, root: Path, files: map<Path, Node>, total: nat)
      returns (ok: bool, more: map<Path, Node>, sum: nat)
      requires root in Roots(scope) && Collected(files, total, tree)
      requires forall p :: p in files ==> Below(p, Roots(scope)) && !(root < p)
      ensures ok ==> IsRegularParent(tree, root) && root in tree
      ensures ok ==> Collected(more, sum, tree)
      ensures ok ==> AddsRoot(files, more, tree, root)
      ensures ok ==> AllPackable(tree, {root}, scope, rule)
      ensures !ok ==> !Packable(tree, scope, rule)
    {
      ok, more, sum := false, files, total;
      hide *;
      RootMustBeRegular(tree, scope, rule, root);
      if !IsRegularParent(tree, root) || root !in tree { return; }
      var todo := set p | p in tree && root < p;
      ghost var all := todo;
      while todo != {}
        invariant todo <= all
        invariant Collected(more, sum, tree)
        invariant forall p :: p in more <==> p in files || (p in all && p !in todo && tree[p].File?)
        invariant forall p :: p in all && p !in todo ==> tree[p].Directory? || IsPackable(p, tree[p], scope, rule)
        decreases todo
      {
        var p :| p in todo;
        todo := todo - {p};
        if tree[p].Directory? { continue; }
        ok, more, sum := PackFile(scope, p, more, sum);
        if !ok { return; }
        PackableIsFile(p, tree[p], scope, rule);
      }
      ok := true;
      AllOfOneRoot(files, more, tree, root, scope, rule);
    }

    /** The files below all roots. */
    method PackRoots(scope: Scope) returns (ok: bool, files: map<Path, Node>)
      ensures ok ==> files == Outputs(tree, scope) && (Packable(tree, scope, rule) <==> Required(scope) <= files.Keys)
      ensures !ok ==> !Packable(tree, scope, rule)
    {
      var total: nat;
      files, total := map[], 0;
      var todo := Roots(scope);
      ghost var done: set<Path> := {};
      hide *;
      NothingCollected(tree, scope, rule);
      while todo != {}
        invariant IsSplit(Roots(scope), todo, done)
        invariant Collected(files, total, tree) && AreFilesBelow(files, tree, done)
        invariant AllPackable(tree, done, scope, rule)
        decreases todo
      {
        var root :| root in todo;
        NextSplit(Roots(scope), todo, done, root);
        NextRoot(files, tree, scope, done, root);
        var more, sum;
        ok, more, sum := PackRoot(scope, root, files, total);
        if !ok { return; }
        FilesOneMore(files, more, tree, done, root);
        PackableOneMore(tree, done, root, scope, rule);
        files, total := more, sum;
        todo := todo - {root};
        done := done + {root};
      }
      LastSplit(Roots(scope), done);
      AllCollected(files, total, tree, scope, rule);
      ok := true;
    }

    method Pack(scope: Scope, manifestBytes: nat) returns (archive: Option<Archive>)
      ensures archive.Some? <==> IdentityOf(checkout, scope).Some? && Packable(tree, scope, rule)
      ensures archive.Some? ==> Packs(archive.value, tree, checkout, scope)
      ensures archive.Some? ==> archive.value.manifestBytes == manifestBytes
    {
      var identity := IdentityOf(checkout, scope);
      if identity.None? { return None; }
      var host := checkout.host.value;
      hide *;
      var ok, files := PackRoots(scope);
      if !ok || !(Required(scope) <= files.Keys) { return None; }
      OutputsAreFiles(tree, scope);
      var entries := MakeEntries(files);
      archive := Some(Archive(entries, Some(ManifestOf(files, scope, identity.value, host)), manifestBytes));
      PackedByDefinition(archive.value, tree, checkout, scope);
    }

    /** One entry for every file. */
    static method MakeEntries(files: map<Path, Node>) returns (entries: seq<Entry>)
      requires forall p :: p in files ==> files[p].File?
      ensures Holds(entries, files)
    {
      entries := [];
      var todo := files.Keys;
      while todo != {}
        invariant todo <= files.Keys
        invariant forall i :: 0 <= i < |entries| ==> entries[i].name !in todo
        invariant Holds(entries, map p | p in files && p !in todo :: files[p])
        decreases todo
      {
        var name :| name in todo;
        ghost var so := map p | p in files && p !in todo :: files[p];
        todo := todo - {name};
        HoldsOneMore(entries, so, name, files[name]);
        entries := entries + [Entry(name, files[name].data, true)];
        assert (map p | p in files && p !in todo :: files[p]) == so[name := files[name]];
        hide Holds;
      }
      assert files == map p | p in files && p !in todo :: files[p];
    }

    /** The loop over the inventory. */
    method ValidateEntries(scope: Scope, a: Archive) returns (ok: bool)
      requires a.manifest.Some? && Distinct(a.entries)
      requires forall i :: 0 <= i < |a.entries| ==> a.entries[i].name in a.manifest.value.files
      ensures ok <==> AllSound(a, tree, scope, rule) && Sum(Sizes(Unpacked(a.entries))) <= MAX_BYTES
    {
      hide *;
      var files := a.manifest.value.files;
      var total := 0;
      var i := 0;
      NothingUnpacked(a, tree, scope, rule);
      while i < |a.entries|
        invariant 0 <= i <= |a.entries|
        invariant total == Sum(Sizes(Unpacked(a.entries[..i]))) && total <= MAX_BYTES
        invariant SoundUpTo(a, tree, scope, rule, i)
      {
        var e := a.entries[i];
        TotalOneMore(a.entries, i);
        UnpackedGrows(a.entries, i + 1);
        SoundOneMore(a, tree, scope, rule, i);
        total := total + |e.data|;
        if !IsSound(e, files[e.name], tree, scope, rule) || total > MAX_BYTES { return false; }
        i := i + 1;
      }
      TotalOfAll(a);
      SoundAll(a, tree, scope, rule);
      ok := true;
    }

    /** Every byte and destination is checked before anything is replaced. */
    method Validate(scope: Scope, a: Archive) returns (ok: bool)
      ensures ok <==> Validates(tree, a, checkout, scope, rule)
    {
      var identity := IdentityOf(checkout, scope);
      if identity.None? || !IsExpected(a, identity.value, scope) { return false; }
      ExpectedNames(a, identity.value, scope);
      ValidByDefinition(tree, a, checkout, scope, rule);
      hide *;
      ok := ValidateEntries(scope, a);
      if ok { ok := RootsAreRegular(tree, scope); }
    }

    /** An invalid archive changes nothing; a valid one whose files do not lie below each other and whose
        modes are integers is restored whole, and any other valid one is abandoned with nothing of the
        earlier build left below the roots.  What lies outside the roots is never changed. */
    method Restore(scope: Scope, a: Archive) returns (ok: bool)
      modifies this`tree
      ensures ok <==> && Validates(old(tree), a, checkout, scope, rule)
                      && IsUnnested(Names(a.entries)) && ModesAreIntegers(a)
      ensures !Validates(old(tree), a, checkout, scope, rule) ==> tree == old(tree)
      ensures ok ==> IsRestored(old(tree), a, scope, tree)
      ensures !ok && Validates(old(tree), a, checkout, scope, rule) ==> IsAbandoned(a, scope, tree)
      ensures forall p :: p in old(tree) && !AtOrBelow(p, Roots(scope)) ==> p in tree && tree[p] == old(tree)[p]
    {
      hide *;
      ok := Validate(scope, a);
      if !ok { return; }
      ValidFacts(tree, a, checkout, scope, rule);
      IntegersAll(tree, a, checkout, scope, rule);
      ghost var t := tree;
      var metas := a.manifest.value.files;
      ClearRoots(scope);
      ClearedKeeps(t, scope);
      var i := 0;
      LaidNothing(t, scope, a.entries, metas);
      while i < |a.entries|
        invariant 0 <= i <= |a.entries|
        invariant tree == Laid(Cleared(t, Roots(scope)), Files(a.entries[..i], metas))
        invariant IsUnnested(Names(a.entries[..i])) && IntegersUpTo(a, i)
        invariant forall p :: p in t && !AtOrBelow(p, Roots(scope)) ==> p in tree && tree[p] == t[p]
      {
        var e := a.entries[i];
        var mode := metas[e.name].mode;
        WritableNext(t, a, scope, i);
        IntegersNext(a, i);
        ghost var so := tree;
        ok := WriteFile(e.name, e.data, mode);
        if !ok {
          forall left | !mode.Integer? ensures AsWritten(File(e.data, left), metas[e.name]) {
            ValidContent(t, a, checkout, scope, rule, i, left);
          }
          StaysDeclared(t, a, checkout, scope, rule, a.entries[..i], so, tree, e);
          return;
        }
        LaidOneMore(Cleared(t, Roots(scope)), Files(a.entries[..i], metas), e.name, File(e.data, Whole(mode)));
        i := i + 1;
      }
      assert a.entries[..i] == a.entries;
      ok := true;
      RestoredByDefinition(t, a, scope, tree);
    }
  }
}

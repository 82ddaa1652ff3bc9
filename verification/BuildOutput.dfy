/** Transfer of compiled outputs between hosts of one CI candidate (scripts/ci-build-output.py, `pack`
    and `restore`).  A path is the list of its parts below the checkout; the digest is injective. */
module BuildOutput {
  import opened Options

  type Path = seq<string>
  type Data = seq<int>

  datatype Scope = Server | Frontend | Workspace | IosWeb

  datatype Node = File(data: Data, mode: int) | Directory | SymbolicLink | Special

  /** What lies below the checkout root. */
  type Tree = map<Path, Node>

  const MAX_BYTES: nat := 256 * 1024 * 1024
  const MAX_FILE: nat := 64 * 1024 * 1024
  const MAX_FILES: nat := 25000
  const MAX_MANIFEST: nat := 8 * 1024 * 1024
  const PLAIN_MODE := 420
  const EXECUTABLE_MODE := 493
  const MANIFEST: Path := ["manifest.json"]

  function Roots(scope: Scope): set<Path> {
    match scope
    case Server =>
      {["dist"], ["packages", "protocol", "dist"], ["packages", "harness", "dist"], ["packages", "client", "dist"]}
    case Frontend => {["frontend", "dist"]}
    case Workspace => {["packages", "protocol", "dist"], ["packages", "harness", "dist"], ["packages", "client", "dist"]}
    case IosWeb => {["frontend", "dist-ios"]}
  }

  function Required(scope: Scope): set<Path> {
    match scope
    case Server =>
      {["dist", "index.js"], ["packages", "protocol", "dist", "index.js"],
       ["packages", "harness", "dist", "index.js"], ["packages", "client", "dist", "index.js"]}
    case Frontend => {["frontend", "dist", "index.html"]}
    case Workspace =>
      {["packages", "protocol", "dist", "index.js"], ["packages", "harness", "dist", "index.js"],
       ["packages", "client", "dist", "index.js"]}
    case IosWeb => {["frontend", "dist-ios", "index.html"]}
  }

  predicate Portable(scope: Scope) {
    scope.Workspace? || scope.IosWeb?
  }

  // ---------------------------------------------------------------- the identity of a checkout

  datatype Host = Host(
    commit: string, tree: string, run: string, platform: string, machine: string, node: string, installedLock: string)

  /** What a portable output binds instead of the host; absent when the dependencies are refused. */
  datatype Lock = Lock(sourceLock: string, compiler: string)

  datatype Identity =
    | HostBound(host: Host)
    | HostFree(commit: string, tree: string, run: string, node: string, lock: Lock, scope: Scope)

  /** Absent when the checkout is not the candidate. */
  datatype Checkout = Checkout(host: Option<Host>, lock: Option<Lock>)

  function IdentityOf(c: Checkout, scope: Scope): Option<Identity> {
    if c.host.None? then None
    else if !Portable(scope) then Some(HostBound(c.host.value))
    else if c.lock.None? then None
    else
      var h := c.host.value;
      Some(HostFree(h.commit, h.tree, h.run, h.node, c.lock.value, scope))
  }

  predicate Among(s: string, allowed: char -> bool) {
    forall i :: 0 <= i < |s| ==> allowed(s[i])
  }

  predicate IsMachine(s: string) {
    1 <= |s| <= 64 && Among(s, c => 'A' <= c <= 'Z' || 'a' <= c <= 'z' || '0' <= c <= '9' || c == '_' || c == '.' || c == '-')
  }

  predicate IsDigest(s: string) {
    |s| == 64 && Among(s, c => 'a' <= c <= 'f' || '0' <= c <= '9')
  }

  /** The provenance a portable archive must carry. */
  predicate Vouches(producer: Host, source: Identity) {
    && source.HostFree?
    && producer.commit == source.commit && producer.tree == source.tree && producer.run == source.run
    && producer.node == source.node
    && (producer.platform == "linux" || producer.platform == "darwin")
    && IsMachine(producer.machine) && IsDigest(producer.installedLock)
  }

  // ---------------------------------------------------------------- paths

  predicate IsPart(part: string) {
    part != "" && part != "." && part != ".." && '\\' !in part && '/' !in part
  }

  predicate Below(p: Path, roots: set<Path>) {
    exists root :: root in roots && root < p
  }

  predicate AtOrBelow(p: Path, roots: set<Path>) {
    exists root :: root in roots && root <= p
  }

  predicate IsOutputPath(p: Path, scope: Scope) {
    (forall i :: 0 <= i < |p| ==> IsPart(p[i])) && Below(p, Roots(scope))
  }

  /** No part of the way to `p`, `p` included, is a link or anything but a directory. */
  predicate IsRegularParent(t: Tree, p: Path) {
    forall k :: 0 < k <= |p| && p[..k] in t ==> t[p[..k]].Directory?
  }

  // ---------------------------------------------------------------- the archive

  /** The rule for generated files of portable outputs, a function of the name and the content. */
  type Rule = (Path, Data, Scope) -> bool

  /** A number as a manifest writes it: 420, or 420.0, which is equal but no integer. */
  datatype Number = Integer(n: int) | Float(x: real)

  predicate Equals(number: Number, n: int) {
    match number
    case Integer(k) => k == n
    case Float(x) => x == n as real
  }

  /** The integer a number is equal to, when there is one. */
  function Whole(number: Number): int {
    match number
    case Integer(n) => n
    case Float(x) => x.Floor
  }

  /** A portable output also has the plain mode. */
  predicate IsPortableOutput(rule: Rule, p: Path, data: Data, mode: Number, scope: Scope) {
    Portable(scope) ==> Equals(mode, PLAIN_MODE) && rule(p, data, scope)
  }

  /** `content` is what the digest in the manifest is the digest of, if of anything. */
  datatype Meta = Meta(size: int, content: Option<Data>, mode: Number)

  datatype Manifest = Manifest(
    schema: int, scope: Option<Scope>, identity: Identity, producer: Option<Host>, files: map<Path, Meta>)

  datatype Entry = Entry(name: Path, data: Data, regular: bool)

  /** The entries beside the manifest may repeat; the manifest may be missing. */
  datatype Archive = Archive(entries: seq<Entry>, manifest: Option<Manifest>, manifestBytes: nat)

  // ---------------------------------------------------------------- sums

  function Sizes(files: map<Path, Data>): map<Path, nat> {
    map p | p in files :: |files[p]|
  }

  ghost function Sum(sizes: map<Path, nat>): nat
    decreases |sizes|
  {
    if sizes == map[] then 0
    else
      var p :| p in sizes;
      sizes[p] + Sum(sizes - {p})
  }

  lemma {:induction false} SumWithout(sizes: map<Path, nat>, p: Path)
    requires p in sizes
    ensures Sum(sizes) == sizes[p] + Sum(sizes - {p})
    decreases |sizes|
  {
    var q :| q in sizes && Sum(sizes) == sizes[q] + Sum(sizes - {q});
    if q != p {
      SumWithout(sizes - {q}, p);
      SumWithout(sizes - {p}, q);
      assert sizes - {q} - {p} == sizes - {p} - {q};
    }
  }

  lemma {:induction false} SumWith(sizes: map<Path, nat>, p: Path, n: nat)
    requires p !in sizes
    ensures Sum(sizes[p := n]) == Sum(sizes) + n
  {
    SumWithout(sizes[p := n], p);
    assert sizes[p := n] - {p} == sizes;
  }

  lemma {:induction false} SumOfSome(some: map<Path, nat>, sizes: map<Path, nat>)
    requires some.Keys <= sizes.Keys && forall p :: p in some ==> some[p] == sizes[p]
    ensures Sum(some) <= Sum(sizes)
    decreases |some|
  {
    if some != map[] {
      var p :| p in some;
      SumWithout(some, p);
      SumWithout(sizes, p);
      SumOfSome(some - {p}, sizes - {p});
    } else {
      assert Sum(some) == 0;
    }
  }

  // ---------------------------------------------------------------- what pack accepts and makes

  /** The regular files below the roots. */
  function Outputs(t: Tree, scope: Scope): map<Path, Node> {
    map p | p in t && t[p].File? && Below(p, Roots(scope)) :: t[p]
  }

  function Lengths(files: map<Path, Node>): map<Path, nat> {
    map p | p in files && files[p].File? :: |files[p].data|
  }

  /** Modes are compared by value. */
  predicate IsMode(mode: Number) {
    Equals(mode, PLAIN_MODE) || Equals(mode, EXECUTABLE_MODE)
  }

  predicate IsPackable(p: Path, node: Node, scope: Scope, rule: Rule) {
    && node.File? && IsOutputPath(p, scope) && |node.data| <= MAX_FILE && IsMode(Integer(node.mode))
    && IsPortableOutput(rule, p, node.data, Integer(node.mode), scope)
  }

  ghost predicate Packable(t: Tree, scope: Scope, rule: Rule) {
    && (forall root :: root in Roots(scope) ==> IsRegularParent(t, root) && root in t)
    && (forall p :: p in t && Below(p, Roots(scope)) ==> t[p].Directory? || IsPackable(p, t[p], scope, rule))
    && |Outputs(t, scope)| <= MAX_FILES && Sum(Lengths(Outputs(t, scope))) <= MAX_BYTES
    && Required(scope) <= Outputs(t, scope).Keys
  }

  function MetaOf(node: Node): Meta
    requires node.File?
  {
    Meta(|node.data|, Some(node.data), Integer(node.mode))
  }

  function ManifestOf(files: map<Path, Node>, scope: Scope, identity: Identity, host: Host): Manifest
    requires forall p :: p in files ==> files[p].File?
  {
    Manifest(2, Some(scope), identity, if Portable(scope) then Some(host) else None,
             map p | p in files :: MetaOf(files[p]))
  }

  /** Every file has one entry with its bytes, in whatever order. */
  ghost predicate Holds(entries: seq<Entry>, files: map<Path, Node>) {
    && (forall i, j :: 0 <= i < j < |entries| ==> entries[i].name != entries[j].name)
    && (forall i :: 0 <= i < |entries| ==>
          && entries[i].name in files && files[entries[i].name].File? && entries[i].regular
          && entries[i].data == files[entries[i].name].data)
    && (forall p :: p in files ==> exists i :: 0 <= i < |entries| && entries[i].name == p)
  }

  /** The archive that pack makes of a tree. */
  ghost predicate Packs(a: Archive, t: Tree, c: Checkout, scope: Scope) {
    && IdentityOf(c, scope).Some?
    && Holds(a.entries, Outputs(t, scope))
    && a.manifest == Some(ManifestOf(Outputs(t, scope), scope, IdentityOf(c, scope).value, c.host.value))
  }

  // ---------------------------------------------------------------- what restore accepts

  function Names(entries: seq<Entry>): set<Path> {
    set i | 0 <= i < |entries| :: entries[i].name
  }

  /** The bytes by name; names are distinct when this is used. */
  function Unpacked(entries: seq<Entry>): map<Path, Data> {
    if entries == [] then map[]
    else Unpacked(entries[..|entries| - 1])[entries[|entries| - 1].name := entries[|entries| - 1].data]
  }

  predicate Distinct(entries: seq<Entry>) {
    forall i, j :: 0 <= i < j < |entries| ==> entries[i].name != entries[j].name
  }

  /** The checks on the manifest, before any entry is looked at. */
  predicate IsExpected(a: Archive, source: Identity, scope: Scope) {
    && Distinct(a.entries) && MANIFEST !in Names(a.entries) && |a.entries| <= MAX_FILES
    && a.manifest.Some? && a.manifestBytes <= MAX_MANIFEST
    && a.manifest.value.schema == 2 && a.manifest.value.scope == Some(scope) && a.manifest.value.identity == source
    && (Portable(scope) ==> a.manifest.value.producer.Some? && Vouches(a.manifest.value.producer.value, source))
    && Names(a.entries) == a.manifest.value.files.Keys
    && Required(scope) <= a.manifest.value.files.Keys
  }

  /** The checks on one entry. */
  predicate IsSound(e: Entry, meta: Meta, t: Tree, scope: Scope, rule: Rule) {
    && IsOutputPath(e.name, scope) && e.regular && |e.data| <= MAX_FILE
    && meta.size == |e.data| && IsMode(meta.mode) && meta.content == Some(e.data)
    && IsPortableOutput(rule, e.name, e.data, meta.mode, scope)
    && IsRegularParent(t, e.name[..|e.name| - 1])
  }

  predicate RootsAreRegular(t: Tree, scope: Scope) {
    forall root :: root in Roots(scope) ==> IsRegularParent(t, root)
  }

  ghost predicate AllSound(a: Archive, t: Tree, scope: Scope, rule: Rule) {
    a.manifest.Some? &&
    forall i :: 0 <= i < |a.entries| ==>
      a.entries[i].name in a.manifest.value.files
      && IsSound(a.entries[i], a.manifest.value.files[a.entries[i].name], t, scope, rule)
  }

  ghost predicate Validates(t: Tree, a: Archive, c: Checkout, scope: Scope, rule: Rule) {
    && IdentityOf(c, scope).Some? && IsExpected(a, IdentityOf(c, scope).value, scope)
    && AllSound(a, t, scope, rule)
    && Sum(Sizes(Unpacked(a.entries))) <= MAX_BYTES
    && RootsAreRegular(t, scope)
  }

  // ---------------------------------------------------------------- writing the files

  function Ancestors(names: set<Path>): set<Path> {
    set n, k | n in names && 0 < k < |n| :: n[..k]
  }

  /** A tree with these files written over it and the directories they need. */
  function Laid(t: Tree, files: map<Path, Node>): Tree {
    map p | p in t.Keys + files.Keys + Ancestors(files.Keys) ::
      if p in files then files[p] else if p in t then t[p] else Directory
  }

  function Cleared(t: Tree, roots: set<Path>): Tree {
    map p | p in t && !AtOrBelow(p, roots) :: t[p]
  }

  /** The files an archive describes. */
  function Files(entries: seq<Entry>, metas: map<Path, Meta>): map<Path, Node>
    requires forall i :: 0 <= i < |entries| ==> entries[i].name in metas
  {
    if entries == [] then map[]
    else
      var last := entries[|entries| - 1];
      Files(entries[..|entries| - 1], metas)[last.name := File(last.data, Whole(metas[last.name].mode))]
  }

  function Restored(t: Tree, a: Archive, scope: Scope): Tree
    requires a.manifest.Some? && forall i :: 0 <= i < |a.entries| ==> a.entries[i].name in a.manifest.value.files
  {
    Laid(Cleared(t, Roots(scope)), Files(a.entries, a.manifest.value.files))
  }

  /** Every mode is written as an integer: the only kind the system call takes. */
  predicate ModesAreIntegers(a: Archive) {
    a.manifest.Some? && forall p :: p in a.manifest.value.files ==> a.manifest.value.files[p].mode.Integer?
  }

  /** No file stands where another needs a directory. */
  predicate IsUnnested(names: set<Path>) {
    forall a, b :: a in names && b in names ==> !(a < b)
  }

  /** A name neither lies below one of these nor stands where one of these needs a directory. */
  predicate IsFree(name: Path, names: set<Path>) {
    forall n :: n in names ==> !(n < name) && !(name < n)
  }

  /** Creating the parents and the file succeeds. */
  predicate CanWrite(t: Tree, name: Path) {
    && (forall k :: 0 < k < |name| && name[..k] in t ==> t[name[..k]].Directory?)
    && (name in t ==> t[name].File?)
  }

  /** A directory on the way to some name. */
  ghost predicate Leads(p: Path, names: set<Path>) {
    p != [] && exists n :: n in names && p < n
  }

  lemma {:induction false} AncestorsLead(names: set<Path>, p: Path)
    ensures p in Ancestors(names) <==> Leads(p, names)
  {
    if Leads(p, names) {
      var n :| n in names && p < n;
      assert p == n[..|p|];
    }
    if p in Ancestors(names) {
      var n, k :| n in names && 0 < k < |n| && n[..k] == p;
      assert p < n;
    }
  }

  lemma {:induction false} LeadsMore(names: set<Path>, name: Path, p: Path)
    ensures Leads(p, names + {name}) <==> Leads(p, names) || Leads(p, {name})
  {
  }

  lemma {:induction false} AncestorsMore(names: set<Path>, name: Path)
    ensures forall p :: p in Ancestors(names + {name}) <==> p in Ancestors(names) || p in Ancestors({name})
  {
    hide Ancestors;
    forall p ensures p in Ancestors(names + {name}) <==> p in Ancestors(names) || p in Ancestors({name}) {
      AncestorsLead(names + {name}, p);
      AncestorsLead(names, p);
      AncestorsLead({name}, p);
      LeadsMore(names, name, p);
    }
    hide Leads;
  }

  lemma {:induction false} LaidOneMore(t: Tree, files: map<Path, Node>, name: Path, node: Node)
    ensures Laid(Laid(t, files), map[name := node]) == Laid(t, files[name := node])
  {
    hide Ancestors;
    var more := files[name := node];
    assert more.Keys == files.Keys + {name};
    assert (map[name := node]).Keys == {name};
    AncestorsMore(files.Keys, name);
    var once, twice := Laid(t, more), Laid(Laid(t, files), map[name := node]);
    assert forall p :: p in once <==> p in twice;
    assert forall p :: p in once ==> once[p] == twice[p];
  }

  lemma {:induction false} FilesHold(entries: seq<Entry>, metas: map<Path, Meta>)
    requires forall i :: 0 <= i < |entries| ==> entries[i].name in metas
    ensures Files(entries, metas).Keys == Names(entries)
    ensures forall p :: p in Files(entries, metas) ==> Files(entries, metas)[p].File?
  {
    if entries == [] {
    } else {
      var init := entries[..|entries| - 1];
      FilesHold(init, metas);
      assert Names(entries) == Names(init) + {entries[|entries| - 1].name};
    }
  }

  /** Where the ancestors of the outputs are regular, a file can be written exactly when its name is
      free among those already written. */
  lemma {:induction false} WritableIfFree(t: Tree, scope: Scope, files: map<Path, Node>, name: Path)
    requires forall p :: p in files ==> files[p].File? && Below(p, Roots(scope))
    requires Below(name, Roots(scope)) && IsRegularParent(t, name[..|name| - 1]) && name !in files
    ensures CanWrite(Laid(Cleared(t, Roots(scope)), files), name) <==> IsFree(name, files.Keys)
  {
    var so := Laid(Cleared(t, Roots(scope)), files);
    WhereLaid(t, scope, files, name);
    forall p | p in files ensures p != [] { assert Below(p, Roots(scope)); }
    FreeNames(files.Keys, name);
    hide Laid;
    hide Below;
    hide Leads;
    hide IsFree;
  }

  ghost predicate HasPrefixIn(name: Path, names: set<Path>) {
    exists k :: 0 < k < |name| && name[..k] in names
  }

  lemma {:induction false} FreeNames(names: set<Path>, name: Path)
    requires name != [] && [] !in names
    ensures IsFree(name, names) <==> !HasPrefixIn(name, names) && !Leads(name, names)
  {
    if !IsFree(name, names) {
      var n :| n in names && (n < name || name < n);
      if n < name { assert name[..|n|] == n; }
    }
    if HasPrefixIn(name, names) {
      var k :| 0 < k < |name| && name[..k] in names;
      assert name[..k] < name;
    }
  }

  /** What stands at a new output and on the way to it. */
  lemma {:induction false} WhereLaid(t: Tree, scope: Scope, files: map<Path, Node>, name: Path)
    requires Below(name, Roots(scope)) && IsRegularParent(t, name[..|name| - 1]) && name !in files
    requires forall p :: p in files ==> files[p].File?
    ensures var so := Laid(Cleared(t, Roots(scope)), files);
            && (name in so <==> Leads(name, files.Keys))
            && (name in so ==> so[name].Directory?)
            && (HasPrefixIn(name, files.Keys) <==>
                  exists k :: 0 < k < |name| && name[..k] in so && !so[name[..k]].Directory?)
  {
    var base := Cleared(t, Roots(scope));
    NothingLeft(t, scope, name);
    AncestorsLead(files.Keys, name);
    hide Ancestors;
    hide Leads;
    forall k | 0 < k < |name| && name[..k] in base ensures base[name[..k]].Directory? {
      assert name[..|name| - 1][..k] == name[..k];
    }
  }

  /** Nothing at or below a root is left. */
  lemma {:induction false} NothingLeft(t: Tree, scope: Scope, name: Path)
    requires Below(name, Roots(scope))
    ensures name !in Cleared(t, Roots(scope))
  {
    var root :| root in Roots(scope) && root < name;
    assert AtOrBelow(name, Roots(scope));
  }

  // ---------------------------------------------------------------- the round trip

  ghost predicate WaysAreRegular(t: Tree, names: set<Path>) {
    forall p :: p in names && p != [] ==> IsRegularParent(t, p[..|p| - 1])
  }

  lemma {:induction false} NamesSplit(entries: seq<Entry>)
    requires entries != []
    ensures Names(entries) == Names(entries[..|entries| - 1]) + {entries[|entries| - 1].name}
    ensures Distinct(entries) ==> entries[|entries| - 1].name !in Names(entries[..|entries| - 1])
  {
    var init := entries[..|entries| - 1];
    assert forall i :: 0 <= i < |init| ==> init[i] == entries[i];
  }

  lemma {:induction false} UnpackedKeys(entries: seq<Entry>)
    requires Distinct(entries)
    ensures Unpacked(entries).Keys == Names(entries) && |Unpacked(entries)| == |entries|
  {
    if entries == [] {
    } else {
      NamesSplit(entries);
      hide Names;
      UnpackedKeys(entries[..|entries| - 1]);
      hide Distinct;
    }
  }

  lemma {:induction false} UnpackedAt(entries: seq<Entry>, i: nat)
    requires Distinct(entries) && i < |entries|
    ensures entries[i].name in Unpacked(entries) && Unpacked(entries)[entries[i].name] == entries[i].data
  {
    var init := entries[..|entries| - 1];
    if i < |init| {
      UnpackedAt(init, i);
      assert entries[i].name != entries[|entries| - 1].name;
    }
    hide Distinct;
  }

  lemma {:induction false} HoldsNames(entries: seq<Entry>, files: map<Path, Node>)
    requires Holds(entries, files)
    ensures Distinct(entries) && Names(entries) == files.Keys && |entries| == |files|
  {
    assert Names(entries) == files.Keys by {
      assert forall p :: p in files ==> p in Names(entries);
    }
    UnpackedKeys(entries);
    hide Holds;
    hide Names;
    hide Distinct;
  }

  lemma {:induction false} HoldsUnpacked(entries: seq<Entry>, files: map<Path, Node>)
    requires Holds(entries, files) && forall p :: p in files ==> files[p].File?
    ensures Sizes(Unpacked(entries)) == Lengths(files)
  {
    HoldsNames(entries, files);
    UnpackedKeys(entries);
    forall p | p in files ensures p in Unpacked(entries) && Unpacked(entries)[p] == files[p].data {
      var i :| 0 <= i < |entries| && entries[i].name == p;
      UnpackedAt(entries, i);
    }
    hide Unpacked;
    hide Holds;
    hide Names;
    hide Distinct;
  }

  lemma {:induction false} OutputsAreFiles(t: Tree, scope: Scope)
    ensures forall p :: p in Outputs(t, scope) ==> Outputs(t, scope)[p].File? && Below(p, Roots(scope))
    ensures MANIFEST !in Outputs(t, scope)
  {
    assert forall root :: root in Roots(scope) ==> |root| >= |MANIFEST|;
    hide Roots;
  }

  lemma {:induction false} PackedManifest(a: Archive, t: Tree, c: Checkout, scope: Scope)
    requires Packs(a, t, c, scope)
    ensures a.manifest.Some? && IdentityOf(c, scope).Some?
    ensures var m := a.manifest.value;
            && m.schema == 2 && m.scope == Some(scope) && m.identity == IdentityOf(c, scope).value
            && m.files.Keys == Outputs(t, scope).Keys
            && (Portable(scope) ==> m.producer == Some(c.host.value))
  {
    hide Outputs;
    hide Holds;
    hide IdentityOf;
  }

  lemma {:induction false} PackableFits(t: Tree, scope: Scope, rule: Rule)
    requires Packable(t, scope, rule)
    ensures |Outputs(t, scope)| <= MAX_FILES && Required(scope) <= Outputs(t, scope).Keys
  {}

  lemma {:induction false} PacksByDefinition(a: Archive, t: Tree, c: Checkout, scope: Scope)
    requires Packs(a, t, c, scope)
    ensures Holds(a.entries, Outputs(t, scope))
  {}

  lemma {:induction false} PackedIsExpected(
    a: Archive, t: Tree, c: Checkout, scope: Scope, rule: Rule, source: Identity)
    requires Packable(t, scope, rule) && Packs(a, t, c, scope)
    ensures IsExpected(a, source, scope) <==>
              && IdentityOf(c, scope) == Some(source) && a.manifestBytes <= MAX_MANIFEST
              && (Portable(scope) ==> Vouches(c.host.value, source))
  {
    hide Packable;
    hide Packs;
    hide Outputs;
    hide Names;
    hide Distinct;
    hide Required;
    hide Below;
    hide Vouches;
    hide IdentityOf;
    PackableFits(t, scope, rule);
    PacksByDefinition(a, t, c, scope);
    HoldsNames(a.entries, Outputs(t, scope));
    OutputsAreFiles(t, scope);
    PackedManifest(a, t, c, scope);
  }

  lemma {:induction false} PackedEntryIsSound(
    a: Archive, t: Tree, c: Checkout, scope: Scope, rule: Rule, target: Tree, i: nat)
    requires Packable(t, scope, rule) && Packs(a, t, c, scope) && i < |a.entries|
    ensures var e := a.entries[i];
            && e.name in Outputs(t, scope) && e.name != [] && e.name in a.manifest.value.files
            && (IsSound(e, a.manifest.value.files[e.name], target, scope, rule)
                <==> IsRegularParent(target, e.name[..|e.name| - 1]))
  {
    var e := a.entries[i];
    OutputsAreFiles(t, scope);
    assert Below(e.name, Roots(scope));
    assert IsPackable(e.name, t[e.name], scope, rule);
    hide Packable;
    hide IsRegularParent;
    hide IsOutputPath;
    hide IsPortableOutput;
    hide Below;
    hide IdentityOf;
    hide Portable;
    hide IsMode;
  }

  lemma {:induction false} EntryOf(a: Archive, t: Tree, c: Checkout, scope: Scope, p: Path) returns (i: nat)
    requires Packs(a, t, c, scope) && p in Outputs(t, scope)
    ensures i < |a.entries| && a.entries[i].name == p
  {
    i :| 0 <= i < |a.entries| && a.entries[i].name == p;
  }

  lemma {:induction false} SoundMeansRegular(a: Archive, t: Tree, c: Checkout, scope: Scope, rule: Rule, target: Tree)
    requires Packable(t, scope, rule) && Packs(a, t, c, scope) && AllSound(a, target, scope, rule)
    ensures WaysAreRegular(target, Outputs(t, scope).Keys)
  {
    hide Packable;
    hide Packs;
    hide IsRegularParent;
    hide IsSound;
    hide Outputs;
    forall p | p in Outputs(t, scope).Keys && p != [] ensures IsRegularParent(target, p[..|p| - 1]) {
      var i := EntryOf(a, t, c, scope, p);
      PackedEntryIsSound(a, t, c, scope, rule, target, i);
    }
  }

  lemma {:induction false} RegularMeansSound(a: Archive, t: Tree, c: Checkout, scope: Scope, rule: Rule, target: Tree)
    requires Packable(t, scope, rule) && Packs(a, t, c, scope)
    requires WaysAreRegular(target, Outputs(t, scope).Keys)
    ensures AllSound(a, target, scope, rule)
  {
    PackedManifest(a, t, c, scope);
    hide *;
    forall i | 0 <= i < |a.entries|
      ensures a.entries[i].name in a.manifest.value.files
           && IsSound(a.entries[i], a.manifest.value.files[a.entries[i].name], target, scope, rule)
    {
      PackedEntryIsSound(a, t, c, scope, rule, target, i);
      WayOf(target, Outputs(t, scope).Keys, a.entries[i].name);
    }
    SoundByDefinition(a, target, scope, rule);
  }

  lemma {:induction false} WayOf(t: Tree, names: set<Path>, p: Path)
    requires WaysAreRegular(t, names) && p in names && p != []
    ensures IsRegularParent(t, p[..|p| - 1])
  {
  }

  lemma {:induction false} SoundByDefinition(a: Archive, t: Tree, scope: Scope, rule: Rule)
    requires a.manifest.Some?
    requires forall i :: 0 <= i < |a.entries| ==>
               && a.entries[i].name in a.manifest.value.files
               && IsSound(a.entries[i], a.manifest.value.files[a.entries[i].name], t, scope, rule)
    ensures AllSound(a, t, scope, rule)
  {
    hide IsSound;
  }

  lemma {:induction false} PackedIsSound(a: Archive, t: Tree, c: Checkout, scope: Scope, rule: Rule, target: Tree)
    requires Packable(t, scope, rule) && Packs(a, t, c, scope)
    ensures AllSound(a, target, scope, rule) <==> WaysAreRegular(target, Outputs(t, scope).Keys)
  {
    hide *;
    if AllSound(a, target, scope, rule) { SoundMeansRegular(a, t, c, scope, rule, target); }
    if WaysAreRegular(target, Outputs(t, scope).Keys) { RegularMeansSound(a, t, c, scope, rule, target); }
  }

  /** Whether a tree can take the files of another: the roots and the places the files go to are
      reached through directories only. */
  ghost predicate CanTake(target: Tree, t: Tree, scope: Scope) {
    RootsAreRegular(target, scope) && WaysAreRegular(target, Outputs(t, scope).Keys)
  }

  /** What pack made is accepted exactly under the same identity, with a manifest within its limit, a
      producer that vouches for a portable output, and a target that can take the files. */
  lemma {:induction false} PackedValidates(
    a: Archive, t: Tree, c: Checkout, scope: Scope, rule: Rule, target: Tree, here: Checkout)
    requires Packable(t, scope, rule) && Packs(a, t, c, scope)
    ensures Validates(target, a, here, scope, rule) <==>
              && IdentityOf(here, scope) == IdentityOf(c, scope) && a.manifestBytes <= MAX_MANIFEST
              && (Portable(scope) ==> Vouches(c.host.value, IdentityOf(c, scope).value))
              && CanTake(target, t, scope)
  {
    if IdentityOf(here, scope).Some? { PackedIsExpected(a, t, c, scope, rule, IdentityOf(here, scope).value); }
    PackedIsSound(a, t, c, scope, rule, target);
    HoldsUnpacked(a.entries, Outputs(t, scope));
    assert Sum(Sizes(Unpacked(a.entries))) <= MAX_BYTES;
    hide Packable;
    hide Packs;
    hide IsExpected;
    hide AllSound;
    hide RootsAreRegular;
    hide WaysAreRegular;
    hide Outputs;
    hide Vouches;
    hide Unpacked;
    hide IdentityOf;
    hide Sum;
  }

  /** A file system: what lies below something lies below directories. */
  ghost predicate Closed(t: Tree) {
    forall p, k :: p in t && 0 < k < |p| ==> p[..k] in t && t[p[..k]].Directory?
  }

  lemma {:induction false} PrefixIsDirectory(t: Tree, a: Path, b: Path)
    requires Closed(t) && b in t && a != [] && a < b
    ensures a in t && t[a].Directory?
  {
    assert b[..|a|] == a;
  }

  lemma {:induction false} OutputsAreUnnested(t: Tree, scope: Scope)
    requires Closed(t)
    ensures IsUnnested(Outputs(t, scope).Keys)
  {
    forall a, b | a in Outputs(t, scope) && b in Outputs(t, scope) ensures !(a < b) {
      OutputsAreFiles(t, scope);
      assert a != [] by { assert Below(a, Roots(scope)); }
      if a < b { PrefixIsDirectory(t, a, b); }
    }
  }

  lemma {:induction false} FilesOfPacked(entries: seq<Entry>, files: map<Path, Node>, metas: map<Path, Meta>)
    requires Distinct(entries) && forall i :: 0 <= i < |entries| ==>
               && entries[i].name in files && files[entries[i].name].File? && entries[i].name in metas
               && entries[i].data == files[entries[i].name].data
               && metas[entries[i].name].mode == Integer(files[entries[i].name].mode)
    ensures forall p :: p in Files(entries, metas) <==> p in Names(entries)
    ensures forall p :: p in Files(entries, metas) ==> p in files && Files(entries, metas)[p] == files[p]
  {
    FilesHold(entries, metas);
    if entries == [] {
    } else {
      FilesOfPacked(entries[..|entries| - 1], files, metas);
    }
  }

  lemma {:induction false} PackedFiles(a: Archive, t: Tree, c: Checkout, scope: Scope)
    requires Packs(a, t, c, scope)
    ensures forall i :: 0 <= i < |a.entries| ==> a.entries[i].name in a.manifest.value.files
    ensures Files(a.entries, a.manifest.value.files) == Outputs(t, scope)
  {
    HoldsNames(a.entries, Outputs(t, scope));
    FilesOfPacked(a.entries, Outputs(t, scope), a.manifest.value.files);
    hide Files;
    hide Outputs;
    hide Names;
    hide IdentityOf;
    hide Distinct;
  }

  /** The whole trip: the scope's roots hold exactly the packed files, with their bytes and modes and
      the directories that lead to them; nothing else changes, except that missing directories on the
      way to a root are made. */
  lemma {:induction false} RoundTrip(a: Archive, t: Tree, c: Checkout, scope: Scope, target: Tree)
    requires Packs(a, t, c, scope) && Closed(t)
    ensures forall i :: 0 <= i < |a.entries| ==> a.entries[i].name in a.manifest.value.files
    ensures IsUnnested(Names(a.entries)) && ModesAreIntegers(a)
    ensures var after := Restored(target, a, scope);
            var roots := Roots(scope);
            && Outputs(after, scope) == Outputs(t, scope)
            && (forall p :: p in after && AtOrBelow(p, roots) ==>
                  p in Outputs(t, scope) || (after[p].Directory? && Leads(p, Outputs(t, scope).Keys)))
            && (forall p :: p in target && !AtOrBelow(p, roots) ==> p in after && after[p] == target[p])
            && (forall p :: p in after && !AtOrBelow(p, roots) && p !in target ==>
                  after[p].Directory? && Leads(p, roots))
  {
    HoldsNames(a.entries, Outputs(t, scope));
    PackedFiles(a, t, c, scope);
    OutputsAreUnnested(t, scope);
    OutputsAreFiles(t, scope);
    var files := Outputs(t, scope);
    LaidOverCleared(target, scope, files);
    hide Laid;
    hide Cleared;
    hide Files;
  }

  lemma {:induction false} BelowIsAtOrBelow(p: Path, roots: set<Path>)
    requires Below(p, roots)
    ensures AtOrBelow(p, roots)
  {
    var root :| root in roots && root < p;
  }

  lemma {:induction false} LaidOutputs(base: Tree, scope: Scope, files: map<Path, Node>)
    requires forall p :: p in files ==> files[p].File? && Below(p, Roots(scope))
    requires forall p :: p in base ==> !AtOrBelow(p, Roots(scope))
    ensures Outputs(Laid(base, files), scope) == files
  {
    forall p | Below(p, Roots(scope)) ensures p !in base {
      BelowIsAtOrBelow(p, Roots(scope));
    }
    hide Below;
    hide AtOrBelow;
    hide Roots;
    hide Ancestors;
    assert forall p :: p in Outputs(Laid(base, files), scope) <==> p in files;
  }

  lemma {:induction false} LaidElsewhere(base: Tree, scope: Scope, files: map<Path, Node>, p: Path)
    requires forall q :: q in files ==> Below(q, Roots(scope))
    requires p in Laid(base, files)
    ensures p in files || (p in base && Laid(base, files)[p] == base[p])
         || (Laid(base, files)[p].Directory? && Leads(p, files.Keys)
             && (AtOrBelow(p, Roots(scope)) || Leads(p, Roots(scope))))
  {
    AncestorsLead(files.Keys, p);
    if Leads(p, files.Keys) && !AtOrBelow(p, Roots(scope)) { OnTheWay(p, files, scope); }
    hide Ancestors;
    hide Leads;
    hide Below;
    hide AtOrBelow;
    hide Roots;
  }

  lemma {:induction false} LaidOverCleared(target: Tree, scope: Scope, files: map<Path, Node>)
    requires forall p :: p in files ==> files[p].File? && Below(p, Roots(scope))
    ensures var after := Laid(Cleared(target, Roots(scope)), files);
            var roots := Roots(scope);
            && Outputs(after, scope) == files
            && (forall p :: p in after && AtOrBelow(p, roots) ==>
                  p in files || (after[p].Directory? && Leads(p, files.Keys)))
            && (forall p :: p in target && !AtOrBelow(p, roots) ==> p in after && after[p] == target[p])
            && (forall p :: p in after && !AtOrBelow(p, roots) && p !in target ==>
                  after[p].Directory? && Leads(p, roots))
  {
    var roots := Roots(scope);
    var base := Cleared(target, roots);
    LaidOutputs(base, scope, files);
    forall p | p in files ensures AtOrBelow(p, roots) { BelowIsAtOrBelow(p, roots); }
    forall p | p in target && !AtOrBelow(p, roots)
      ensures p in Laid(base, files) && Laid(base, files)[p] == target[p]
    {
    }
    forall p | p in Laid(base, files)
      ensures p in files || (p in base && Laid(base, files)[p] == base[p])
           || (Laid(base, files)[p].Directory? && Leads(p, files.Keys) && (AtOrBelow(p, roots) || Leads(p, roots)))
    {
      LaidElsewhere(base, scope, files, p);
    }
    hide Laid;
    hide Outputs;
    hide Leads;
    hide Below;
    hide AtOrBelow;
    hide Roots;
  }

  lemma {:induction false} PrefixesCompare(a: Path, b: Path, n: Path)
    requires a <= n && b <= n
    ensures a <= b || b < a
  {
    assert a == n[..|a|] && b == n[..|b|];
  }

  /** What leads to an output without being at or below its root leads to the root. */
  lemma {:induction false} OnTheWay(p: Path, files: map<Path, Node>, scope: Scope)
    requires Leads(p, files.Keys) && !AtOrBelow(p, Roots(scope))
    requires forall q :: q in files ==> Below(q, Roots(scope))
    ensures Leads(p, Roots(scope))
  {
    var n :| n in files && p < n;
    var root :| root in Roots(scope) && root < n;
    hide Roots;
    PrefixesCompare(root, p, n);
  }

  /** What one output of the restored tree owes to the inventory. */
  ghost predicate AsDeclared(node: Node, meta: Meta) {
    && node.File? && meta.size == |node.data| <= MAX_FILE
    && meta.content == Some(node.data) && Equals(meta.mode, node.mode) && IsMode(Integer(node.mode))
  }

  lemma {:induction false} FilesAsDeclared(
    entries: seq<Entry>, metas: map<Path, Meta>, t: Tree, scope: Scope, rule: Rule)
    requires forall i :: 0 <= i < |entries| ==>
               entries[i].name in metas && IsSound(entries[i], metas[entries[i].name], t, scope, rule)
    ensures forall p :: p in Files(entries, metas) ==>
              p in metas && AsDeclared(Files(entries, metas)[p], metas[p]) && Below(p, Roots(scope))
  {
    if entries == [] {
    } else {
      var last := entries[|entries| - 1];
      assert IsSound(last, metas[last.name], t, scope, rule);
      FilesAsDeclared(entries[..|entries| - 1], metas, t, scope, rule);
      hide Roots;
      hide IsPortableOutput;
      hide IsRegularParent;
    }
  }

  /** Whoever made an archive: once it is restored the roots hold exactly its inventory, every file with
      the declared size, content and mode, and no required entry is missing. */
  lemma {:induction false} RestoredMatchesInventory(t: Tree, a: Archive, c: Checkout, scope: Scope, rule: Rule)
    requires Validates(t, a, c, scope, rule)
    ensures a.manifest.Some? && forall i :: 0 <= i < |a.entries| ==> a.entries[i].name in a.manifest.value.files
    ensures var outputs := Outputs(Restored(t, a, scope), scope);
            var m := a.manifest.value;
            && outputs.Keys == m.files.Keys && Required(scope) <= outputs.Keys
            && (forall p :: p in outputs ==> AsDeclared(outputs[p], m.files[p]))
            && m.identity == IdentityOf(c, scope).value && m.scope == Some(scope)
  {
    var metas := a.manifest.value.files;
    FilesAsDeclared(a.entries, metas, t, scope, rule);
    FilesHold(a.entries, metas);
    LaidOverCleared(t, scope, Files(a.entries, metas));
    assert Names(a.entries) == metas.Keys && Required(scope) <= metas.Keys;
    hide Outputs;
    hide Laid;
    hide Cleared;
    hide Files;
    hide IsSound;
    hide AsDeclared;
    hide Below;
    hide Roots;
    hide Required;
    hide Names;
  }

  // ---------------------------------------------------------------- what validation does not see

  const PAGE: Path := ["frontend", "dist", "index.html"]
  const INSIDE_PAGE: Path := ["frontend", "dist", "index.html", "x"]
  const HOST := Host("c", "t", "1", "linux", "x64", "v1", "")
  const NESTED := Archive(
    [Entry(PAGE, [], true), Entry(INSIDE_PAGE, [], true)],
    Some(Manifest(2, Some(Frontend), HostBound(HOST), None,
                  map[PAGE := Meta(0, Some([]), Integer(PLAIN_MODE)), INSIDE_PAGE := Meta(0, Some([]), Integer(PLAIN_MODE))])),
    0)

  lemma {:induction false} NestedSize()
    ensures Sum(Sizes(Unpacked(NESTED.entries))) == 0
    ensures Names(NESTED.entries) == {PAGE, INSIDE_PAGE}
  {
    var e := NESTED.entries;
    assert e[..1][..0] == [] && e[..1] == [e[0]];
    assert Unpacked(e[..1]) == map[PAGE := []];
    assert Unpacked(e) == map[PAGE := [], INSIDE_PAGE := []];
    var sizes := Sizes(Unpacked(e));
    SumWithout(sizes, PAGE);
    SumWithout(sizes - {PAGE}, INSIDE_PAGE);
    assert sizes - {PAGE} - {INSIDE_PAGE} == map[];
    assert e[0].name in Names(e) && e[1].name in Names(e);
  }

  lemma {:induction false} NestedParts()
    ensures IsPart("frontend") && IsPart("dist") && IsPart("index.html") && IsPart("x")
  {
  }

  lemma {:induction false} NestedPaths()
    ensures IsOutputPath(PAGE, Frontend) && IsOutputPath(INSIDE_PAGE, Frontend)
    ensures PAGE < INSIDE_PAGE
  {
    NestedParts();
    hide IsPart;
    var root := ["frontend", "dist"];
    assert root in Roots(Frontend) && root < PAGE && root < INSIDE_PAGE;
  }

  lemma {:induction false} NestedIsExpected()
    ensures IsExpected(NESTED, HostBound(HOST), Frontend)
  {
    NestedSize();
    assert |PAGE| == 3 && |INSIDE_PAGE| == 4 && |MANIFEST| == 1;
    hide Names;
    hide Vouches;
    hide Unpacked;
    hide Sum;
  }

  /** A checkout whose root still holds a file of an earlier build. */
  const OLD: Path := ["frontend", "dist", "old.js"]
  const STALE: Tree := map[["frontend"] := Directory, ["frontend", "dist"] := Directory, OLD := File([1], PLAIN_MODE)]

  lemma {:induction false} StaleIsRegular(p: Path)
    requires p == ["frontend", "dist"] || p == PAGE
    ensures IsRegularParent(STALE, p)
  {
    assert p[..1] == ["frontend"] && p[..2] == ["frontend", "dist"];
    if |p| == 3 { assert p[..3] == PAGE && PAGE[2] != OLD[2]; }
    assert p[..|p|] == p;
  }

  lemma {:induction false} NestedIsSound(rule: Rule, i: nat)
    requires i < 2
    ensures IsSound(NESTED.entries[i], NESTED.manifest.value.files[NESTED.entries[i].name], STALE, Frontend, rule)
  {
    NestedPaths();
    StaleIsRegular(["frontend", "dist"]);
    StaleIsRegular(PAGE);
    assert PAGE[..2] == ["frontend", "dist"] && INSIDE_PAGE[..3] == PAGE;
    hide IsOutputPath;
    hide IsRegularParent;
  }

  lemma {:induction false} SoundNested(rule: Rule)
    ensures AllSound(NESTED, STALE, Frontend, rule)
  {
    forall i | 0 <= i < |NESTED.entries|
      ensures NESTED.entries[i].name in NESTED.manifest.value.files
           && IsSound(NESTED.entries[i], NESTED.manifest.value.files[NESTED.entries[i].name], STALE, Frontend, rule)
    {
      NestedIsSound(rule, i);
    }
    hide IsSound;
  }

  lemma {:induction false} StaleRootsAreRegular()
    ensures RootsAreRegular(STALE, Frontend)
    ensures AtOrBelow(OLD, Roots(Frontend)) && OLD != PAGE && OLD != INSIDE_PAGE
  {
    StaleIsRegular(["frontend", "dist"]);
    assert Roots(Frontend) == {["frontend", "dist"]};
    assert ["frontend", "dist"] in Roots(Frontend) && ["frontend", "dist"] <= OLD;
    assert PAGE[2] != OLD[2] && |INSIDE_PAGE| != |OLD|;
  }

  /** An inventory in which one file lies below another passes every check, whatever an earlier build
      left in the target, and abandoning it changes the tree; pack never makes such an archive. */
  lemma {:induction false} NestingIsNotChecked(rule: Rule)
    ensures Validates(STALE, NESTED, Checkout(Some(HOST), None), Frontend, rule)
    ensures !IsUnnested(Names(NESTED.entries)) && ModesAreIntegers(NESTED)
    ensures forall after :: IsAbandoned(NESTED, Frontend, after) ==> after != STALE
  {
    NestedSize();
    NestedPaths();
    NestedIsExpected();
    SoundNested(rule);
    StaleRootsAreRegular();
    hide Names;
    hide Unpacked;
    hide Sum;
    hide IsExpected;
    hide AllSound;
    hide IsOutputPath;
    hide RootsAreRegular;
    hide IsAbandoned;
    forall after | IsAbandoned(NESTED, Frontend, after) ensures after != STALE {
      AbandonedLosesTheOld(NESTED, Frontend, STALE, after, OLD);
    }
  }

  /** The plain mode written as 420.0. */
  const FLOATED := Archive(
    [Entry(PAGE, [], true)],
    Some(Manifest(2, Some(Frontend), HostBound(HOST), None, map[PAGE := Meta(0, Some([]), Float(420.0))])),
    0)

  lemma {:induction false} FloatedSize()
    ensures Sum(Sizes(Unpacked(FLOATED.entries))) == 0 && Names(FLOATED.entries) == {PAGE}
  {
    var e := FLOATED.entries;
    assert e[..0] == [];
    assert Unpacked(e) == map[PAGE := []];
    var sizes := Sizes(Unpacked(e));
    SumWithout(sizes, PAGE);
    assert sizes - {PAGE} == map[];
    assert e[0].name in Names(e);
  }

  lemma {:induction false} FloatedIsExpected()
    ensures IsExpected(FLOATED, HostBound(HOST), Frontend)
  {
    FloatedSize();
    assert |PAGE| == 3 && |MANIFEST| == 1;
    hide Names;
    hide Vouches;
    hide Unpacked;
    hide Sum;
  }

  lemma {:induction false} SoundFloated(rule: Rule)
    ensures AllSound(FLOATED, STALE, Frontend, rule)
  {
    NestedPaths();
    StaleIsRegular(["frontend", "dist"]);
    assert PAGE[..2] == ["frontend", "dist"];
    hide IsOutputPath;
    hide IsRegularParent;
  }

  /** A mode written as 420.0 passes every check, without any nesting, whatever an earlier build left in
      the target, and abandoning it changes the tree; pack writes integers only. */
  lemma {:induction false} FloatsAreNotChecked(rule: Rule)
    ensures Validates(STALE, FLOATED, Checkout(Some(HOST), None), Frontend, rule)
    ensures IsUnnested(Names(FLOATED.entries)) && !ModesAreIntegers(FLOATED)
    ensures forall after :: IsAbandoned(FLOATED, Frontend, after) ==> after != STALE
  {
    FloatedSize();
    FloatedIsExpected();
    SoundFloated(rule);
    assert PAGE in FLOATED.manifest.value.files && !FLOATED.manifest.value.files[PAGE].mode.Integer?;
    StaleRootsAreRegular();
    hide Names;
    hide Unpacked;
    hide Sum;
    hide IsExpected;
    hide AllSound;
    hide RootsAreRegular;
    hide IsAbandoned;
    forall after | IsAbandoned(FLOATED, Frontend, after) ensures after != STALE {
      AbandonedLosesTheOld(FLOATED, Frontend, STALE, after, OLD);
    }
  }

  /** The bytes of an output are in place, its mode could not be set. */
  ghost predicate AsWritten(node: Node, meta: Meta) {
    node.File? && meta.size == |node.data| <= MAX_FILE && meta.content == Some(node.data) && !meta.mode.Integer?
  }

  /** A restore that failed while writing: below the roots only directories and files as declared are
      left, so nothing of what was there before; the file at `last` may still lack its mode. */
  ghost predicate IsAbandonedAt(a: Archive, scope: Scope, after: Tree, last: Path) {
    && a.manifest.Some?
    && forall p :: p in after && AtOrBelow(p, Roots(scope)) ==>
         || after[p].Directory?
         || (p in a.manifest.value.files && AsDeclared(after[p], a.manifest.value.files[p]))
         || (p == last && p in a.manifest.value.files && AsWritten(after[p], a.manifest.value.files[p]))
  }

  ghost predicate IsAbandoned(a: Archive, scope: Scope, after: Tree) {
    exists last :: IsAbandonedAt(a, scope, after, last)
  }

  /** What an abandoned restore leaves of an earlier build: any file of it that the inventory does not
      name is gone, so that the tree is another one.  This refusal does change the tree. */
  lemma {:induction false} AbandonedLosesTheOld(a: Archive, scope: Scope, t: Tree, after: Tree, stale: Path)
    requires IsAbandoned(a, scope, after) && a.manifest.Some? && stale !in a.manifest.value.files
    requires stale in t && !t[stale].Directory? && AtOrBelow(stale, Roots(scope))
    ensures stale !in after || after[stale].Directory?
    ensures after != t
  {
    hide AtOrBelow;
    hide Roots;
  }

  /** Part of the inventory laid over cleared roots holds nothing else there. */
  lemma {:induction false} LaidIsDeclared(
      t: Tree, a: Archive, c: Checkout, scope: Scope, rule: Rule, entries: seq<Entry>, p: Path)
    requires Validates(t, a, c, scope, rule) && entries <= a.entries
    ensures a.manifest.Some? && forall i :: 0 <= i < |entries| ==> entries[i].name in a.manifest.value.files
    ensures var metas := a.manifest.value.files;
            var so := Laid(Cleared(t, Roots(scope)), Files(entries, metas));
            p in so && AtOrBelow(p, Roots(scope)) ==>
              so[p].Directory? || (p in metas && AsDeclared(so[p], metas[p]))
  {
    var metas := a.manifest.value.files;
    FilesAsDeclared(entries, metas, t, scope, rule);
    FilesHold(entries, metas);
    LaidOverCleared(t, scope, Files(entries, metas));
    hide Laid;
    hide Cleared;
    hide Files;
    hide Outputs;
    hide AsDeclared;
    hide Leads;
    hide Below;
    hide Roots;
  }
}

/** Which installed packages a portable build may have beside the source lock
    (scripts/ci-build-output.py, `require_portable_dependencies`).  Packages are named by their place,
    `node_modules/a/node_modules/b`, as in a package lock. */
module DependencySlots {
  import opened Options

  type Name = string

  /** A constraint list holds `None` where an item is not a string. */
  datatype Package = Package(
    version: Option<string>, resolved: Option<string>, integrity: Option<string>, link: Option<bool>,
    optional: bool, optionalDependencies: map<Name, string>,
    os: Option<seq<Option<string>>>, cpu: Option<seq<Option<string>>>)

  type Lock = map<Name, Package>

  const MODULES := "node_modules"
  const SEPARATOR := "/node_modules/"
  const MAX_CONSTRAINTS: nat := 32

  datatype Error = DiffersFromLock | UnprovenDependency

  // ---------------------------------------------------------------- names and versions

  predicate Among(s: string, allowed: char -> bool) {
    s != "" && forall i :: 0 <= i < |s| ==> allowed(s[i])
  }

  predicate Lower(c: char) { 'a' <= c <= 'z' || '0' <= c <= '9' || c == '_' || c == '-' }
  predicate LowerDot(c: char) { Lower(c) || c == '.' }
  predicate Digit(c: char) { '0' <= c <= '9' }
  predicate Label(c: char) { Digit(c) || 'a' <= c <= 'z' || 'A' <= c <= 'Z' || c == '.' || c == '-' }

  /** A package name, with or without a scope. */
  predicate IsName(s: Name) {
    || Among(s, LowerDot)
    || (s != "" && s[0] == '@' && exists i :: 1 <= i < |s| && s[i] == '/' && Among(s[1..i], LowerDot) && Among(s[i + 1..], LowerDot))
  }

  /** A prerelease label up to `i` and a build label from there, either of which may be missing. */
  predicate LabelsAt(s: string, i: nat) {
    && i <= |s|
    && (i == 0 || (s[0] == '-' && Among(s[1..i], Label)))
    && (i == |s| || (s[i] == '+' && Among(s[i + 1..], Label)))
  }

  predicate IsLabels(s: string) {
    exists i :: 0 <= i <= |s| && LabelsAt(s, i)
  }

  /** Three numbers, then perhaps a prerelease and a build label. */
  predicate IsExactVersion(s: string) {
    exists i, j, k :: 0 <= i < j < k <= |s|
      && Among(s[..i], Digit) && s[i] == '.' && Among(s[i + 1..j], Digit) && s[j] == '.' && Among(s[j + 1..k], Digit)
      && IsLabels(s[k..])
  }

  // ---------------------------------------------------------------- the walk upwards

  predicate SeparatorAt(s: Name, i: nat) {
    i + |SEPARATOR| <= |s| && s[i..i + |SEPARATOR|] == SEPARATOR
  }

  /** The last separator that starts before `end`, or none. */
  function LastSeparator(s: Name, end: nat): (r: Option<nat>)
    requires end <= |s|
    ensures r.Some? ==> r.value < end && SeparatorAt(s, r.value)
    ensures r.Some? ==> forall i :: r.value < i < end ==> !SeparatorAt(s, i)
    ensures r.None? ==> forall i :: 0 <= i < end ==> !SeparatorAt(s, i)
  {
    if end == 0 then None
    else if SeparatorAt(s, end - 1) then Some(end - 1)
    else LastSeparator(s, end - 1)
  }

  /** The package that holds this one: what stands before the last separator, or the root. */
  function Up(owner: Name): Name {
    var at := LastSeparator(owner, |owner|);
    if at.Some? then owner[..at.value] else ""
  }

  /** The place of a dependency directly below its owner. */
  function Slot(owner: Name, dependency: Name): Name {
    (if owner == "" then "" else owner + "/") + MODULES + "/" + dependency
  }

  /** The slots a package looks into, the nearest first. */
  function Slots(owner: Name, dependency: Name): (r: seq<Name>)
    ensures r != []
    decreases |owner|
  {
    if owner == "" then [Slot("", dependency)]
    else [Slot(owner, dependency)] + Slots(Up(owner), dependency)
  }

  function FirstIn(slots: seq<Name>, installed: set<Name>): Option<Name> {
    if slots == [] then None
    else if slots[0] in installed then Some(slots[0])
    else FirstIn(slots[1..], installed)
  }

  /** The nearest installed slot; the search has no bound. */
  function Nearest(owner: Name, dependency: Name, installed: set<Name>): Option<Name> {
    FirstIn(Slots(owner, dependency), installed)
  }

  // ---------------------------------------------------------------- the bound is enough

  /** How often the word occurs, counted from the left without overlap. */
  function Count(s: Name): nat {
    if |s| < |MODULES| then 0
    else if s[..|MODULES|] == MODULES then 1 + Count(s[|MODULES|..])
    else Count(s[1..])
  }

  /** A separator costs one occurrence of the word. */
  lemma {:induction false} SeparatorCounts(before: Name, after: Name)
    ensures Count(before + SEPARATOR + after) >= Count(before) + 1
    decreases |before|
  {
    var whole := before + SEPARATOR + after;
    if before == "" {
      assert whole[1..][..|MODULES|] == SEPARATOR[1..|MODULES| + 1] == MODULES;
      assert whole[..|MODULES|][0] == '/' && MODULES[0] == 'n';
    } else if |before| >= |MODULES| && before[..|MODULES|] == MODULES {
      assert whole[..|MODULES|] == MODULES;
      assert whole[|MODULES|..] == before[|MODULES|..] + SEPARATOR + after;
      SeparatorCounts(before[|MODULES|..], after);
    } else {
      assert whole[..|MODULES|] != MODULES by {
        if |before| < |MODULES| {
          assert whole[..|MODULES|][|before|] == '/';
          assert forall i :: 0 <= i < |MODULES| ==> MODULES[i] != '/';
        } else {
          assert whole[..|MODULES|] == before[..|MODULES|];
        }
      }
      assert whole[1..] == before[1..] + SEPARATOR + after;
      SeparatorCounts(before[1..], after);
    }
  }

  /** The walk from a place never looks into more slots than the loop allows. */
  lemma {:induction false} WalkIsShort(owner: Name, dependency: Name)
    ensures |Slots(owner, dependency)| <= Count(owner) + 2
    decreases |owner|
  {
    if owner == "" {
    } else {
      hide Count;
      hide Slot;
      WalkIsShort(Up(owner), dependency);
      var at := LastSeparator(owner, |owner|);
      hide LastSeparator;
      if at.Some? {
        var after := owner[at.value + |SEPARATOR|..];
        assert owner == Up(owner) + SEPARATOR + after;
        SeparatorCounts(Up(owner), after);
      }
    }
  }

  // ---------------------------------------------------------------- the walk is the nesting

  /** A name that hides no separator, even after the slash before it. */
  ghost predicate Plain(name: Name) {
    forall i :: 0 <= i <= |name| ==> !SeparatorAt("/" + name, i)
  }

  lemma {:induction false} SlashFirst(s: Name, i: nat)
    ensures SeparatorAt(s, i) ==> s[i] == '/'
  {
    if SeparatorAt(s, i) { assert s[i..i + |SEPARATOR|][0] == s[i]; }
  }

  /** Only the first slash of a separator can begin one, and the last when the name goes on with one. */
  lemma {:induction false} NoLaterSeparator(head: Name, name: Name, i: nat)
    requires Plain(name) && |head| < i
    ensures !SeparatorAt(head + SEPARATOR + name, i)
  {
    var s := head + SEPARATOR + name;
    var base := |head| + |SEPARATOR| - 1;
    SlashFirst(s, i);
    if i < base {
      assert s[i] == SEPARATOR[i - |head|];
      assert forall k :: 1 <= k < |SEPARATOR| - 1 ==> SEPARATOR[k] != '/';
    } else if i + |SEPARATOR| <= |s| {
      var tail := "/" + name;
      assert forall k :: 0 <= k < |tail| ==> s[base + k] == tail[k];
      assert |s| == base + |tail|;
      assert s[base..] == tail;
      assert s[i..i + |SEPARATOR|] == s[base..][i - base..i - base + |SEPARATOR|];
      assert !SeparatorAt(tail, i - base);
    }
  }

  /** From a package the walk goes to the package that holds it. */
  lemma {:induction false} UpLeavesTheSlot(owner: Name, name: Name)
    requires Plain(name)
    ensures Up(Slot(owner, name)) == owner
  {
    var s := Slot(owner, name);
    if owner == "" {
      var whole := "" + SEPARATOR + name;
      assert s == whole[1..];
      forall i: nat | i < |s| ensures !SeparatorAt(s, i) {
        NoLaterSeparator("", name, i + 1);
        if i + |SEPARATOR| <= |s| { assert s[i..i + |SEPARATOR|] == whole[i + 1..i + 1 + |SEPARATOR|]; }
      }
    } else {
      assert s == owner + SEPARATOR + name;
      forall i: nat | |owner| < i < |s| ensures !SeparatorAt(s, i) { NoLaterSeparator(owner, name, i); }
      assert SeparatorAt(s, |owner|) by { assert s[|owner|..|owner| + |SEPARATOR|] == SEPARATOR; }
      assert s[..|owner|] == owner;
    }
  }

  /** So a nested package looks beside itself first, then wherever its holder looks. */
  lemma {:induction false} SlotsOfANestedPackage(owner: Name, name: Name, dependency: Name)
    requires Plain(name)
    ensures Slots(Slot(owner, name), dependency) == [Slot(Slot(owner, name), dependency)] + Slots(owner, dependency)
  {
    UpLeavesTheSlot(owner, name);
  }

  /** `slot` is installed, and no slot before it is. */
  ghost predicate IsNearest(slots: seq<Name>, installed: set<Name>, slot: Name) {
    exists i :: 0 <= i < |slots| && slots[i] == slot && slot in installed && NoneBefore(slots, installed, i)
  }

  ghost predicate NoneBefore(slots: seq<Name>, installed: set<Name>, i: nat) {
    forall j :: 0 <= j < i && j < |slots| ==> slots[j] !in installed
  }

  lemma {:induction false} FirstInIsNearest(slots: seq<Name>, installed: set<Name>)
    ensures var r := FirstIn(slots, installed);
            && (r.Some? ==> IsNearest(slots, installed, r.value))
            && (r.None? ==> NoneBefore(slots, installed, |slots|))
  {
    if slots == [] {
    } else if slots[0] in installed {
      assert NoneBefore(slots, installed, 0);
    } else {
      var rest := slots[1..];
      FirstInIsNearest(rest, installed);
      var r := FirstIn(rest, installed);
      assert forall j :: 1 <= j < |slots| ==> slots[j] == rest[j - 1];
      if r.Some? {
        var i :| 0 <= i < |rest| && rest[i] == r.value && NoneBefore(rest, installed, i);
        assert slots[i + 1] == r.value && NoneBefore(slots, installed, i + 1);
      }
    }
  }

  // ---------------------------------------------------------------- what is accepted

  predicate SameResolution(a: Package, b: Package) {
    a.version == b.version && a.resolved == b.resolved && a.integrity == b.integrity && a.link == b.link
  }

  /** A parent in both tables declares this exact version, and finds it in this slot. */
  ghost predicate Edge(locked: Lock, installed: Lock, parent: Name, dependency: Name, slot: Name, version: string) {
    && parent in locked && parent in installed
    && dependency in locked[parent].optionalDependencies
    && locked[parent].optionalDependencies[dependency] == version
    && IsName(dependency) && IsExactVersion(version)
    && Nearest(parent, dependency, installed.Keys) == Some(slot)
  }

  ghost predicate Declared(locked: Lock, installed: Lock, slot: Name, version: string) {
    exists parent, dependency :: Edge(locked, installed, parent, dependency, slot, version)
  }

  /** An accepted edge ends in an installed slot, and no nearer slot of its parent is installed: a
      duplicate that is hidden behind a nearer one is never that edge. */
  lemma {:induction false} EdgeIsNearest(
    locked: Lock, installed: Lock, parent: Name, dependency: Name, slot: Name, version: string)
    requires Edge(locked, installed, parent, dependency, slot, version)
    ensures slot in installed
    ensures IsNearest(Slots(parent, dependency), installed.Keys, slot)
  {
    FirstInIsNearest(Slots(parent, dependency), installed.Keys);
    hide IsExactVersion;
    hide IsName;
    hide Slots;
    hide FirstIn;
  }

  predicate IsConstraint(values: Option<seq<Option<string>>>) {
    && values.Some? && 1 <= |values.value| <= MAX_CONSTRAINTS
    && forall i :: 0 <= i < |values.value| ==>
         values.value[i].Some? && values.value[i].value != "any" && Among(values.value[i].value, Lower)
  }

  /** A locked package is installed as locked, or is optional and absent. */
  predicate KeepsLock(locked: Lock, installed: Lock, name: Name)
    requires name in locked
  {
    if name in installed then SameResolution(installed[name], locked[name]) else locked[name].optional
  }

  /** A package that only the installation has is a declared platform variant. */
  ghost predicate Proven(locked: Lock, installed: Lock, name: Name)
    requires name in installed
  {
    var p := installed[name];
    && p.optional && p.version.Some? && Declared(locked, installed, name, p.version.value)
    && IsConstraint(p.os) && IsConstraint(p.cpu)
  }

  ghost predicate Accepted(locked: Lock, installed: Lock) {
    && (forall name :: name in locked ==> KeepsLock(locked, installed, name))
    && (forall name :: name in installed && name !in locked ==> Proven(locked, installed, name))
  }

  // ---------------------------------------------------------------- the loops

  function VersionsOf(allowed: map<Name, set<string>>, slot: Name): set<string> {
    if slot in allowed then allowed[slot] else {}
  }

  /** The upward walk with the bound of the source. */
  method FindSlot(parent: Name, dependency: Name, installed: Lock) returns (slot: Option<Name>)
    ensures slot == Nearest(parent, dependency, installed.Keys)
  {
    WalkIsShort(parent, dependency);
    var owner := parent;
    var bound := Count(parent) + 2;
    var i := 0;
    while i < bound
      invariant 0 <= i <= bound
      invariant i + |Slots(owner, dependency)| <= bound
      invariant Nearest(parent, dependency, installed.Keys) == Nearest(owner, dependency, installed.Keys)
    {
      var target := (if owner == "" then "" else owner + "/") + MODULES + "/" + dependency;
      assert target == Slots(owner, dependency)[0];
      if target in installed { return Some(target); }
      if owner == "" {
        var slots := Slots(owner, dependency);
        assert slots == [target] && FirstIn(slots[1..], installed.Keys) == None;
        return None;
      }
      assert Slots(owner, dependency)[1..] == Slots(Up(owner), dependency);
      owner := Up(owner);
      i := i + 1;
    }
    assert false;
    slot := None;
  }

  /** The edges of one parent. */
  method AddEdges(locked: Lock, installed: Lock, parent: Name, allowed: map<Name, set<string>>)
    returns (more: map<Name, set<string>>)
    requires parent in locked
    ensures forall slot, version :: version in VersionsOf(more, slot) <==>
              || version in VersionsOf(allowed, slot)
              || exists dependency :: Edge(locked, installed, parent, dependency, slot, version)
  {
    more := allowed;
    if parent !in installed { return; }
    var declared := locked[parent].optionalDependencies;
    var todo := declared.Keys;
    while todo != {}
      invariant todo <= declared.Keys
      invariant forall slot, version :: version in VersionsOf(more, slot) <==>
                  || version in VersionsOf(allowed, slot)
                  || exists dependency :: dependency !in todo && Edge(locked, installed, parent, dependency, slot, version)
      decreases todo
    {
      var dependency :| dependency in todo;
      var version := declared[dependency];
      var before, left := more, todo;
      todo := todo - {dependency};
      if IsName(dependency) && IsExactVersion(version) {
        var slot := FindSlot(parent, dependency, installed);
        if slot.Some? { more := more[slot.value := VersionsOf(more, slot.value) + {version}]; }
      }
      OneEdge(locked, installed, parent, dependency, before, more);
      hide Edge;
    }
  }

  /** Exactly the edge of `dependency`, if there is one, was added. */
  lemma {:induction false} OneEdge(locked: Lock, installed: Lock, parent: Name, dependency: Name,
                before: map<Name, set<string>>, more: map<Name, set<string>>)
    requires parent in locked && parent in installed && dependency in locked[parent].optionalDependencies
    requires var version := locked[parent].optionalDependencies[dependency];
             var slot := Nearest(parent, dependency, installed.Keys);
             more == if IsName(dependency) && IsExactVersion(version) && slot.Some?
                     then before[slot.value := VersionsOf(before, slot.value) + {version}] else before
    ensures forall slot, version :: version in VersionsOf(more, slot) <==>
              version in VersionsOf(before, slot) || Edge(locked, installed, parent, dependency, slot, version)
  {
    hide IsName;
    hide IsExactVersion;
    hide Nearest;
  }

  method RequirePortableDependencies(locked: Lock, installed: Lock) returns (error: Option<Error>)
    ensures error.None? <==> Accepted(locked, installed)
    ensures error == Some(DiffersFromLock) <==> exists name :: name in locked && !KeepsLock(locked, installed, name)
  {
    var todo := locked.Keys;
    while todo != {}
      invariant forall name :: name in locked && name !in todo ==> KeepsLock(locked, installed, name)
      decreases todo
    {
      var name :| name in todo;
      todo := todo - {name};
      if name !in installed && locked[name].optional { continue; }
      if name !in installed || !SameResolution(installed[name], locked[name]) { return Some(DiffersFromLock); }
    }
    var allowed: map<Name, set<string>> := map[];
    todo := locked.Keys;
    while todo != {}
      invariant todo <= locked.Keys
      invariant forall slot, version :: version in VersionsOf(allowed, slot) <==>
                  exists parent, dependency :: parent !in todo && Edge(locked, installed, parent, dependency, slot, version)
      decreases todo
    {
      var parent :| parent in todo;
      todo := todo - {parent};
      allowed := AddEdges(locked, installed, parent, allowed);
    }
    assert forall slot, version :: version in VersionsOf(allowed, slot) <==> Declared(locked, installed, slot, version);
    todo := installed.Keys;
    while todo != {}
      invariant todo <= installed.Keys
      invariant forall name :: name in installed && name !in todo && name !in locked ==> Proven(locked, installed, name)
      decreases todo
    {
      var name :| name in todo;
      todo := todo - {name};
      if name in locked { continue; }
      var value := installed[name];
      if !value.optional || value.version.None? || value.version.value !in VersionsOf(allowed, name)
         || !IsConstraint(value.os) || !IsConstraint(value.cpu) {
        assert !Proven(locked, installed, name);
        return Some(UnprovenDependency);
      }
    }
    error := None;
  }
}

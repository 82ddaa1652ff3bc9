/** Which installed packages are accepted beside the lock (scripts/ci-build-output.py,
    `require_portable_dependencies`), said of the names, the versions and the places themselves. */
module SlotRules {
  import opened Options
  import opened DependencySlots

  // ---------------------------------------------------------------- names and versions

  ghost predicate AllOf(s: string, set_: string) {
    s != "" && forall i :: 0 <= i < |s| ==> s[i] in set_
  }

  const DIGITS := "0123456789"
  const LETTERS := "abcdefghijklmnopqrstuvwxyz"
  const CAPITALS := "ABCDEFGHIJKLMNOPQRSTUVWXYZ"

  lemma {:induction false} CharactersExactly(c: char)
    ensures Digit(c) <==> c in DIGITS
    ensures Lower(c) <==> c in LETTERS + DIGITS + "_-"
    ensures LowerDot(c) <==> c in WORD
    ensures Label(c) <==> c in LABEL
  {
    LettersExactly(c);
    hide LETTERS;
    hide DIGITS;
    hide CAPITALS;
  }

  lemma {:induction false} LettersExactly(c: char)
    ensures c in DIGITS <==> '0' <= c <= '9'
    ensures c in LETTERS <==> 'a' <= c <= 'z'
    ensures c in CAPITALS <==> 'A' <= c <= 'Z'
  {}

  const WORD := LETTERS + DIGITS + "_-" + "."
  const LABEL := DIGITS + LETTERS + CAPITALS + ".-"

  lemma {:induction false} AmongExactly(s: string)
    ensures Among(s, Digit) <==> AllOf(s, DIGITS)
    ensures Among(s, Lower) <==> AllOf(s, LETTERS + DIGITS + "_-")
    ensures Among(s, LowerDot) <==> AllOf(s, WORD)
    ensures Among(s, Label) <==> AllOf(s, LABEL)
  {
    forall c: char ensures
        && (Digit(c) <==> c in DIGITS) && (Lower(c) <==> c in LETTERS + DIGITS + "_-")
        && (LowerDot(c) <==> c in WORD) && (Label(c) <==> c in LABEL)
    {
      CharactersExactly(c);
    }
    hide Digit;
    hide Lower;
    hide LowerDot;
    hide Label;
    hide DIGITS;
    hide LETTERS;
    hide CAPITALS;
  }

  /** `@scope/name`. */
  ghost predicate IsScoped(s: Name, scope: string, name: string) {
    s == "@" + scope + "/" + name && AllOf(scope, WORD) && AllOf(name, WORD)
  }

  ghost predicate IsPackageName(s: Name) {
    AllOf(s, WORD) || exists scope, name :: IsScoped(s, scope, name)
  }

  lemma {:induction false} ScopedAt(s: Name, i: nat)
    requires 1 <= i < |s| && s[0] == '@' && s[i] == '/' && Among(s[1..i], LowerDot) && Among(s[i + 1..], LowerDot)
    ensures IsScoped(s, s[1..i], s[i + 1..])
  {
    hide AllOf;
    hide Among;
    AmongExactly(s[1..i]);
    AmongExactly(s[i + 1..]);
    assert s == s[..1] + s[1..i] + s[i..i + 1] + s[i + 1..];
    assert s[..1] == "@" && s[i..i + 1] == "/";
  }

  lemma {:induction false} ScopedIs(s: Name, scope: string, name: string)
    requires IsScoped(s, scope, name)
    ensures var i := 1 + |scope|;
            i < |s| && s[0] == '@' && s[i] == '/' && Among(s[1..i], LowerDot) && Among(s[i + 1..], LowerDot)
  {
    AmongExactly(scope);
    AmongExactly(name);
    hide AllOf;
    hide Among;
    var i := 1 + |scope|;
    assert s[1..i] == scope && s[i + 1..] == name;
  }

  lemma {:induction false} NamesExactly(s: Name)
    ensures IsName(s) <==> IsPackageName(s)
  {
    AmongExactly(s);
    hide AllOf;
    hide Among;
    hide IsScoped;
    if i :| 1 <= i < |s| && s[0] == '@' && s[i] == '/' && Among(s[1..i], LowerDot) && Among(s[i + 1..], LowerDot) {
      ScopedAt(s, i);
    }
    if scope, name :| IsScoped(s, scope, name) {
      ScopedIs(s, scope, name);
    }
  }

  ghost predicate IsLabelled(s: string, mark: char) {
    s != "" && s[0] == mark && AllOf(s[1..], LABEL)
  }

  /** Three numbers and perhaps a prerelease and a build, `1.2.3-a+b`. */
  ghost predicate IsMadeOf(s: string, major: string, minor: string, patch: string, pre: string, build: string) {
    && s == major + "." + minor + "." + patch + (pre + build)
    && AllOf(major, DIGITS) && AllOf(minor, DIGITS) && AllOf(patch, DIGITS)
    && (pre == "" || IsLabelled(pre, '-')) && (build == "" || IsLabelled(build, '+'))
  }

  ghost predicate IsVersion(s: string) {
    exists major, minor, patch, pre, build :: IsMadeOf(s, major, minor, patch, pre, build)
  }

  lemma {:induction false} VersionSplits(s: string, i: nat, j: nat, k: nat)
    requires i < j < k <= |s| && Among(s[..i], Digit) && s[i] == '.' && Among(s[i + 1..j], Digit)
    requires s[j] == '.' && Among(s[j + 1..k], Digit) && IsLabels(s[k..])
    ensures IsVersion(s)
  {
    hide AllOf;
    hide Among;
    hide IsLabels;
    hide IsLabelled;
    AmongExactly(s[..i]);
    AmongExactly(s[i + 1..j]);
    AmongExactly(s[j + 1..k]);
    var pre, build := LabelsSplit(s[k..]);
    SplitsAgain(s, i, j, k);
    assert IsMadeOf(s, s[..i], s[i + 1..j], s[j + 1..k], pre, build);
  }

  lemma {:induction false} SplitsAgain(s: string, i: nat, j: nat, k: nat)
    requires i < j < k <= |s| && s[i] == '.' && s[j] == '.'
    ensures s == s[..i] + "." + s[i + 1..j] + "." + s[j + 1..k] + s[k..]
  {
    assert s == s[..i] + s[i..j] + s[j..k] + s[k..];
    assert s[i..j] == "." + s[i + 1..j] && s[j..k] == "." + s[j + 1..k];
  }

  lemma {:induction false} VersionJoins(s: string, major: string, minor: string, patch: string, pre: string, build: string)
    requires IsMadeOf(s, major, minor, patch, pre, build)
    ensures IsExactVersion(s)
  {
    AmongExactly(major);
    AmongExactly(minor);
    AmongExactly(patch);
    LabelsJoin(pre, build);
    hide AllOf;
    hide Among;
    hide IsLabels;
    hide IsLabelled;
    var i := |major|;
    var j := i + 1 + |minor|;
    var k := j + 1 + |patch|;
    assert s[..i] == major && s[i + 1..j] == minor && s[j + 1..k] == patch && s[k..] == pre + build;
    assert s[i] == '.' && s[j] == '.';
  }

  lemma {:induction false} VersionsExactly(s: string)
    ensures IsExactVersion(s) <==> IsVersion(s)
  {
    hide Among;
    hide IsLabels;
    hide IsMadeOf;
    if IsExactVersion(s) {
      var i, j, k :| && 0 <= i < j < k <= |s| && Among(s[..i], Digit) && s[i] == '.' && Among(s[i + 1..j], Digit)
                     && s[j] == '.' && Among(s[j + 1..k], Digit) && IsLabels(s[k..]);
      VersionSplits(s, i, j, k);
    }
    if major, minor, patch, pre, build :| IsMadeOf(s, major, minor, patch, pre, build) {
      VersionJoins(s, major, minor, patch, pre, build);
    }
  }

  lemma {:induction false} LabelsSplit(s: string) returns (pre: string, build: string)
    requires IsLabels(s)
    ensures s == pre + build && (pre == "" || IsLabelled(pre, '-')) && (build == "" || IsLabelled(build, '+'))
  {
    hide AllOf;
    hide Among;
    var i :| 0 <= i <= |s| && LabelsAt(s, i);
    pre, build := s[..i], s[i..];
    if i > 0 {
      assert pre[1..] == s[1..i];
      AmongExactly(pre[1..]);
    }
    if i < |s| {
      assert build[1..] == s[i + 1..];
      AmongExactly(build[1..]);
    }
    assert s == pre + build;
  }

  lemma {:induction false} LabelsJoin(pre: string, build: string)
    requires (pre == "" || IsLabelled(pre, '-')) && (build == "" || IsLabelled(build, '+'))
    ensures IsLabels(pre + build)
  {
    hide AllOf;
    hide Among;
    var (s, i) := (pre + build, |pre|);
    if i > 0 {
      assert s[1..i] == pre[1..];
      AmongExactly(pre[1..]);
    }
    if i < |s| {
      assert s[i + 1..] == build[1..];
      AmongExactly(build[1..]);
    }
    assert LabelsAt(s, i);
  }

  // ---------------------------------------------------------------- places

  /** The root keeps a package in its own folder, another package looks into its own folder first and then
      wherever its holder looks. */
  lemma {:induction false} PlacesExactly(owner: Name, name: Name, dependency: Name)
    ensures Slots("", dependency) == ["node_modules/" + dependency]
    ensures Plain(name) ==>
              && Slots("node_modules/" + name, dependency)
                 == ["node_modules/" + name + "/node_modules/" + dependency, "node_modules/" + dependency]
              && (owner != "" ==>
                    Slots(owner + "/node_modules/" + name, dependency)
                    == [owner + "/node_modules/" + name + "/node_modules/" + dependency] + Slots(owner, dependency))
  {
    assert Slot("", name) == "node_modules/" + name && Slot("", dependency) == "node_modules/" + dependency;
    if Plain(name) {
      var place := "node_modules/" + name;
      assert place != "";
      assert Slot(place, dependency) == place + "/" + "node_modules" + "/" + dependency;
      assert place + "/" + "node_modules" + "/" + dependency == "node_modules/" + name + "/node_modules/" + dependency;
      SlotsOfANestedPackage("", name, dependency);
      if owner != "" {
        var nested := owner + "/node_modules/" + name;
        assert Slot(owner, name) == nested;
        assert Slot(nested, dependency) == nested + "/node_modules/" + dependency;
        SlotsOfANestedPackage(owner, name, dependency);
      }
    }
    hide Plain;
  }

  // ---------------------------------------------------------------- what is accepted

  /** A list of platforms: up to 32 plain words, none of them `any`. */
  ghost predicate IsPlatformList(values: Option<seq<Option<string>>>) {
    && values.Some? && 0 < |values.value| <= 32
    && forall v :: v in values.value ==> v.Some? && v.value != "any" && AllOf(v.value, LETTERS + DIGITS + "_-")
  }

  lemma {:induction false} PlatformsExactly(values: Option<seq<Option<string>>>)
    ensures IsConstraint(values) <==> IsPlatformList(values)
  {
    hide AllOf;
    hide Among;
    if values.Some? {
      forall i | 0 <= i < |values.value| && values.value[i].Some?
        ensures Among(values.value[i].value, Lower) <==> AllOf(values.value[i].value, LETTERS + DIGITS + "_-")
      {
        AmongExactly(values.value[i].value);
      }
      forall i | 0 <= i < |values.value| ensures values.value[i] in values.value {}
    }
  }

  /** A locked and installed parent declares `dependency` with this exact version as optional, and the nearest
      installed place it looks into is `slot`. */
  ghost predicate Leads(locked: Lock, installed: Lock, parent: Name, dependency: Name, slot: Name, version: string) {
    && parent in locked && parent in installed && dependency in locked[parent].optionalDependencies
    && locked[parent].optionalDependencies[dependency] == version
    && IsPackageName(dependency) && IsVersion(version)
    && exists i :: 0 <= i < |Slots(parent, dependency)| && Slots(parent, dependency)[i] == slot && slot in installed
                   && forall j :: 0 <= j < i ==> Slots(parent, dependency)[j] !in installed
  }

  lemma {:induction false} FirstInExactly(slots: seq<Name>, installed: set<Name>, slot: Name)
    ensures FirstIn(slots, installed) == Some(slot) <==>
              exists i :: 0 <= i < |slots| && slots[i] == slot && slot in installed
                          && forall j :: 0 <= j < i ==> slots[j] !in installed
  {
    if slots == [] {
    } else {
      var rest := slots[1..];
      FirstInExactly(rest, installed, slot);
      assert forall j :: 0 < j < |slots| ==> slots[j] == rest[j - 1];
      if slots[0] !in installed {
        if i :| 0 <= i < |rest| && rest[i] == slot && slot in installed && forall j :: 0 <= j < i ==> rest[j] !in installed {
          assert slots[i + 1] == slot;
        }
        if i :| 0 <= i < |slots| && slots[i] == slot && slot in installed && forall j :: 0 <= j < i ==> slots[j] !in installed {
          assert i > 0 && rest[i - 1] == slot;
          assert forall j :: 0 <= j < i - 1 ==> rest[j] == slots[j + 1];
        }
      }
    }
  }

  lemma {:induction false} LeadsExactly(locked: Lock, installed: Lock, parent: Name, dependency: Name, slot: Name, version: string)
    ensures Edge(locked, installed, parent, dependency, slot, version)
       <==> Leads(locked, installed, parent, dependency, slot, version)
  {
    NamesExactly(dependency);
    VersionsExactly(version);
    FirstInExactly(Slots(parent, dependency), installed.Keys, slot);
    hide IsName;
    hide IsExactVersion;
    hide IsPackageName;
    hide IsVersion;
    hide Slots;
    hide FirstIn;
  }

  ghost predicate LeadsTo(locked: Lock, installed: Lock, slot: Name, version: string) {
    exists parent, dependency :: Leads(locked, installed, parent, dependency, slot, version)
  }

  lemma {:induction false} DeclaredExactly(locked: Lock, installed: Lock, slot: Name, version: string)
    ensures Declared(locked, installed, slot, version) <==> LeadsTo(locked, installed, slot, version)
  {
    forall parent, dependency
      ensures Edge(locked, installed, parent, dependency, slot, version)
         <==> Leads(locked, installed, parent, dependency, slot, version)
    {
      LeadsExactly(locked, installed, parent, dependency, slot, version);
    }
    hide Edge;
    hide Leads;
  }

  /** A package that is only installed must be an optional platform variant that a locked parent leads to. */
  ghost predicate IsVariant(locked: Lock, installed: Lock, name: Name)
    requires name in installed
  {
    var p := installed[name];
    && p.optional && p.version.Some? && IsPlatformList(p.os) && IsPlatformList(p.cpu)
    && LeadsTo(locked, installed, name, p.version.value)
  }

  lemma {:induction false} VariantsExactly(locked: Lock, installed: Lock, name: Name)
    requires name in installed
    ensures Proven(locked, installed, name) <==> IsVariant(locked, installed, name)
  {
    var p := installed[name];
    PlatformsExactly(p.os);
    PlatformsExactly(p.cpu);
    if p.version.Some? { DeclaredExactly(locked, installed, name, p.version.value); }
    hide Declared;
    hide LeadsTo;
    hide IsConstraint;
    hide IsPlatformList;
  }

  /** An installation is accepted exactly if every locked package is installed with the locked version, source,
      integrity and link, or is optional and absent, and every other package is such a variant. */
  lemma {:induction false} InstallationsExactly(locked: Lock, installed: Lock)
    ensures Accepted(locked, installed) <==>
              && (forall name :: name in locked ==>
                    if name in installed
                    then && installed[name].version == locked[name].version
                         && installed[name].resolved == locked[name].resolved
                         && installed[name].integrity == locked[name].integrity
                         && installed[name].link == locked[name].link
                    else locked[name].optional)
              && (forall name :: name in installed && name !in locked ==> IsVariant(locked, installed, name))
  {
    forall name | name in installed ensures Proven(locked, installed, name) <==> IsVariant(locked, installed, name) {
      VariantsExactly(locked, installed, name);
    }
    hide Proven;
    hide IsVariant;
  }
}

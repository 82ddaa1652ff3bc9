/** What may be packed and what is restored (scripts/ci-build-output.py, `pack` and `restore`), said of the
    files, the entries and the manifest themselves. */
module TransferRules {
  import opened Options
  import opened BuildOutput
  import SlotRules

  const WORD := SlotRules.LETTERS + SlotRules.CAPITALS + SlotRules.DIGITS + "_.-"
  const HEX := "abcdef" + SlotRules.DIGITS

  lemma {:induction false} CharactersExactly(c: char)
    ensures c in WORD <==> 'A' <= c <= 'Z' || 'a' <= c <= 'z' || '0' <= c <= '9' || c == '_' || c == '.' || c == '-'
    ensures c in HEX <==> 'a' <= c <= 'f' || '0' <= c <= '9'
  {
    SlotRules.LettersExactly(c);
    hide SlotRules.LETTERS;
    hide SlotRules.CAPITALS;
    hide SlotRules.DIGITS;
  }

  /** A machine is a plain word of at most 64 characters, a digest 64 hexadecimal ones. */
  lemma {:induction false} WordsExactly(s: string)
    ensures IsMachine(s) <==> 1 <= |s| <= 64 && forall i :: 0 <= i < |s| ==> s[i] in WORD
    ensures IsDigest(s) <==> |s| == 64 && forall i :: 0 <= i < |s| ==> s[i] in HEX
  {
    forall i | 0 <= i < |s| ensures
        && (s[i] in WORD <==> 'A' <= s[i] <= 'Z' || 'a' <= s[i] <= 'z' || '0' <= s[i] <= '9' || s[i] in "_.-")
        && (s[i] in HEX <==> 'a' <= s[i] <= 'f' || '0' <= s[i] <= '9')
    {
      CharactersExactly(s[i]);
    }
    hide WORD;
    hide HEX;
  }

  // ---------------------------------------------------------------- identities

  /** An output is bound to its candidate, and either to the whole host or, in a portable scope, to the source
      lock and the compiler instead; without the candidate's checkout there is no identity. */
  lemma {:induction false} IdentitiesExactly(c: Checkout, scope: Scope)
    ensures var portable := scope.Workspace? || scope.IosWeb?;
            IdentityOf(c, scope)
            == if c.host.None? || (portable && c.lock.None?) then None
               else if portable
               then Some(HostFree(c.host.value.commit, c.host.value.tree, c.host.value.run, c.host.value.node,
                                  c.lock.value, scope))
               else Some(HostBound(c.host.value))
  {}

  // ---------------------------------------------------------------- scopes

  /** Each scope transfers some folders and requires the entry file of each. */
  lemma {:induction false} ScopesExactly(scope: Scope)
    ensures Required(scope) == (set root | root in Roots(scope) ::
              root + [if scope.Frontend? || scope.IosWeb? then "index.html" else "index.js"])
    ensures Roots(Workspace) == (set name | name in {"protocol", "harness", "client"} :: ["packages", name, "dist"])
    ensures Roots(Server) == Roots(Workspace) + {["dist"]}
    ensures Roots(Frontend) == {["frontend", "dist"]} && Roots(IosWeb) == {["frontend", "dist-ios"]}
  {
    assert ["dist", "index.js"] == ["dist"] + ["index.js"];
    assert forall name: string :: ["packages", name, "dist", "index.js"] == ["packages", name, "dist"] + ["index.js"];
    assert forall name: string :: ["frontend", name, "index.html"] == ["frontend", name] + ["index.html"];
  }

  // ---------------------------------------------------------------- one file

  /** A path of plain parts below a root of the scope. */
  ghost predicate IsOutputName(p: Path, scope: Scope) {
    && (forall part :: part in p ==>
          part !in {"", ".", ".."} && forall i :: 0 <= i < |part| ==> part[i] != '/' && part[i] != '\\')
    && exists root :: root in Roots(scope) && |root| < |p| && p[..|root|] == root
  }

  lemma {:induction false} OutputNamesExactly(p: Path, scope: Scope)
    ensures IsOutputPath(p, scope) <==> IsOutputName(p, scope)
  {
    hide Roots;
    forall root: Path ensures root < p <==> |root| < |p| && p[..|root|] == root {}
    if IsOutputPath(p, scope) {
      forall part | part in p
        ensures part !in {"", ".", ".."} && forall i :: 0 <= i < |part| ==> part[i] != '/' && part[i] != '\\'
      {
        var k :| 0 <= k < |p| && p[k] == part;
      }
    }
    if IsOutputName(p, scope) {
      forall k | 0 <= k < |p| ensures IsPart(p[k]) {
        assert p[k] in p;
      }
    }
  }

  /** Whether everything on the way to a path, itself included, is a directory where it exists. */
  ghost predicate IsPlainWay(t: Tree, p: Path) {
    forall q :: q in t && q != [] && q <= p ==> t[q].Directory?
  }

  lemma {:induction false} WaysExactly(t: Tree, p: Path)
    ensures IsRegularParent(t, p) <==> IsPlainWay(t, p)
  {
    if IsRegularParent(t, p) {
      forall q | q in t && q != [] && q <= p ensures t[q].Directory? {
        assert q == p[..|q|];
      }
    }
    if IsPlainWay(t, p) {
      forall k | 0 < k <= |p| && p[..k] in t ensures t[p[..k]].Directory? {
        assert p[..k] <= p && p[..k] != [];
      }
    }
  }

  /** A mode is one of the two that are allowed, and the plain one in a portable scope, where the content must
      also pass the rule for generated files. */
  ghost predicate MayPass(rule: Rule, p: Path, data: Data, mode: real, scope: Scope) {
    && (mode == 420.0 || mode == 493.0)
    && (scope.Workspace? || scope.IosWeb? ==> mode == 420.0 && rule(p, data, scope))
  }

  ghost function Value(number: Number): real {
    match number
    case Integer(n) => n as real
    case Float(x) => x
  }

  lemma {:induction false} ModesExactly(rule: Rule, p: Path, data: Data, mode: Number, scope: Scope)
    ensures IsMode(mode) && IsPortableOutput(rule, p, data, mode, scope) <==> MayPass(rule, p, data, Value(mode), scope)
  {}

  // ---------------------------------------------------------------- packing

  /** A tree can be packed exactly if its roots are directories on plain ways, what lies below them is
      directories and files of plain names, allowed modes and at most 64 MiB each, no more than 25000 files and
      256 MiB in all, and the required files are among them. */
  lemma {:induction false} PackingExactly(t: Tree, scope: Scope, rule: Rule)
    ensures Packable(t, scope, rule) <==>
              && (forall root :: root in Roots(scope) ==> root in t && IsPlainWay(t, root))
              && (forall p :: p in t && Below(p, Roots(scope)) && !t[p].Directory? ==>
                    && t[p].File? && IsOutputName(p, scope) && |t[p].data| <= 67108864
                    && MayPass(rule, p, t[p].data, t[p].mode as real, scope))
              && |Outputs(t, scope)| <= 25000 && Sum(Lengths(Outputs(t, scope))) <= 268435456
              && (forall p :: p in Required(scope) ==> p in Outputs(t, scope))
  {
    hide Roots;
    hide Required;
    hide IsMode;
    hide IsPortableOutput;
    hide MayPass;
    hide IsOutputPath;
    hide IsOutputName;
    hide IsRegularParent;
    hide IsPlainWay;
    hide Below;
    hide Outputs;
    forall root ensures IsRegularParent(t, root) <==> IsPlainWay(t, root) { WaysExactly(t, root); }
    forall p | p in t && t[p].File? ensures
        IsOutputPath(p, scope) && IsMode(Integer(t[p].mode)) && IsPortableOutput(rule, p, t[p].data, Integer(t[p].mode), scope)
        <==> IsOutputName(p, scope) && MayPass(rule, p, t[p].data, t[p].mode as real, scope)
    {
      OutputNamesExactly(p, scope);
      ModesExactly(rule, p, t[p].data, Integer(t[p].mode), scope);
    }
  }

  /** The manifest of a packed archive: the identity of its checkout, each file with its size, content and mode,
      and in a portable scope the host that made it. */
  lemma {:induction false} ManifestsExactly(a: Archive, t: Tree, c: Checkout, scope: Scope)
    requires Packs(a, t, c, scope)
    ensures a.manifest.Some? && c.host.Some?
    ensures var m := a.manifest.value;
            && m.schema == 2 && m.scope == Some(scope) && Some(m.identity) == IdentityOf(c, scope)
            && m.producer == (if scope.Workspace? || scope.IosWeb? then c.host else None)
            && (forall p :: p in m.files <==> p in Outputs(t, scope))
            && (forall p :: p in m.files ==>
                  && t[p].File? && m.files[p] == Meta(|t[p].data|, Some(t[p].data), Integer(t[p].mode)))
  {
    hide Holds;
    hide Below;
  }

  // ---------------------------------------------------------------- restoring

  /** A host that may have made a portable output of this candidate. */
  ghost predicate MayProduce(h: Host, source: Identity) {
    && source.HostFree?
    && h.commit == source.commit && h.tree == source.tree && h.run == source.run && h.node == source.node
    && h.platform in {"linux", "darwin"}
    && 1 <= |h.machine| <= 64 && (forall i :: 0 <= i < |h.machine| ==> h.machine[i] in WORD)
    && |h.installedLock| == 64 && (forall i :: 0 <= i < |h.installedLock| ==> h.installedLock[i] in HEX)
  }

  /** A manifest for this checkout, with one entry for each of its files and no other. */
  ghost predicate IsInventory(a: Archive, source: Identity, scope: Scope) {
    && |a.entries| <= 25000 && a.manifestBytes <= 8388608 && a.manifest.Some?
    && (forall i, j :: 0 <= i < j < |a.entries| ==> a.entries[i].name != a.entries[j].name)
    && (forall i :: 0 <= i < |a.entries| ==> a.entries[i].name != ["manifest.json"])
    && var m := a.manifest.value;
       && m.schema == 2 && m.scope == Some(scope) && m.identity == source
       && (scope.Workspace? || scope.IosWeb? ==> m.producer.Some? && MayProduce(m.producer.value, source))
       && (forall p :: p in m.files <==> exists i :: 0 <= i < |a.entries| && a.entries[i].name == p)
       && (forall p :: p in Required(scope) ==> p in m.files)
  }

  lemma {:induction false} InventoriesExactly(a: Archive, source: Identity, scope: Scope)
    ensures IsExpected(a, source, scope) <==> IsInventory(a, source, scope)
  {
    if a.manifest.Some? && a.manifest.value.producer.Some? {
      WordsExactly(a.manifest.value.producer.value.machine);
      WordsExactly(a.manifest.value.producer.value.installedLock);
    }
    hide IsMachine;
    hide IsDigest;
    hide Required;
    hide WORD;
    hide HEX;
  }

  /** One entry as the manifest declares it, of a plain name on a plain way. */
  ghost predicate IsDeclared(e: Entry, meta: Meta, t: Tree, scope: Scope, rule: Rule) {
    && IsOutputName(e.name, scope) && e.regular && |e.data| <= 67108864
    && meta.size == |e.data| && meta.content == Some(e.data)
    && MayPass(rule, e.name, e.data, Value(meta.mode), scope)
    && IsPlainWay(t, e.name[..|e.name| - 1])
  }

  lemma {:induction false} NamesAreNotEmpty(p: Path, scope: Scope)
    requires IsOutputName(p, scope)
    ensures p != []
  {
    hide Roots;
  }

  lemma {:induction false} EntriesExactly(e: Entry, meta: Meta, t: Tree, scope: Scope, rule: Rule)
    ensures IsSound(e, meta, t, scope, rule) <==> IsDeclared(e, meta, t, scope, rule)
  {
    hide IsOutputPath;
    hide IsOutputName;
    hide IsMode;
    hide IsPortableOutput;
    hide MayPass;
    hide Value;
    hide IsRegularParent;
    hide IsPlainWay;
    OutputNamesExactly(e.name, scope);
    ModesExactly(rule, e.name, e.data, meta.mode, scope);
    if e.name != [] { WaysExactly(t, e.name[..|e.name| - 1]); }
    if IsOutputName(e.name, scope) { NamesAreNotEmpty(e.name, scope); }
  }

  /** An archive is valid for a tree exactly if its manifest is an inventory for the checkout's own identity,
      every entry is as declared, they have at most 256 MiB in all, and the roots are on plain ways. */
  lemma {:induction false} ArchivesExactly(t: Tree, a: Archive, c: Checkout, scope: Scope, rule: Rule)
    ensures Validates(t, a, c, scope, rule) <==>
              && IdentityOf(c, scope).Some? && IsInventory(a, IdentityOf(c, scope).value, scope)
              && (forall i :: 0 <= i < |a.entries| ==>
                    && a.entries[i].name in a.manifest.value.files
                    && IsDeclared(a.entries[i], a.manifest.value.files[a.entries[i].name], t, scope, rule))
              && Sum(Sizes(Unpacked(a.entries))) <= 268435456
              && (forall root :: root in Roots(scope) ==> IsPlainWay(t, root))
  {
    hide Roots;
    hide IsExpected;
    hide IsSound;
    hide IsDeclared;
    hide IsRegularParent;
    hide IsPlainWay;
    hide Unpacked;
    if IdentityOf(c, scope).Some? { InventoriesExactly(a, IdentityOf(c, scope).value, scope); }
    forall e, meta ensures IsSound(e, meta, t, scope, rule) <==> IsDeclared(e, meta, t, scope, rule) {
      EntriesExactly(e, meta, t, scope, rule);
    }
    forall root ensures IsRegularParent(t, root) <==> IsPlainWay(t, root) { WaysExactly(t, root); }
  }
}

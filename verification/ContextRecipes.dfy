/** The order of the packs in a recipe (server/agent-context-pack-compiler.ts, `compileContextPacks`).
    A pack puts its selections before its guidance, so an order of packs is less free than an order of
    selections: what counts is the guidance that stands before the last pack that selects anything. */
module ContextRecipes {
  import opened Options
  import opened ContextMerge
  import opened ContextOrder
  import opened ContextPacks
  import opened Permutations

  // ---------------------------------------------------------------- what packs say

  /** What one pack says: its selections, then its guidance. */
  function SaidBy(p: Pack): seq<Contribution> {
    AllContributions(ItemsOf(p))
  }

  function Recipe(ps: seq<Pack>): seq<Contribution> {
    AllContributions(Items(ps))
  }

  /** A pack that selects at least one section. */
  predicate Selects(p: Pack) {
    Selected(SaidBy(p)) != []
  }

  function Selecting(ps: seq<Pack>): seq<Pack> {
    if ps == [] then []
    else Selecting(ps[..|ps| - 1]) + if Selects(ps[|ps| - 1]) then [ps[|ps| - 1]] else []
  }

  function Silent(ps: seq<Pack>): seq<Pack> {
    if ps == [] then []
    else Silent(ps[..|ps| - 1]) + if Selects(ps[|ps| - 1]) then [] else [ps[|ps| - 1]]
  }

  lemma {:induction false} ContributionsAppend(a: seq<Item>, b: seq<Item>)
    ensures AllContributions(a + b) == AllContributions(a) + AllContributions(b)
    decreases |b|
  {
    hide Contributions;
    if b == [] {
      assert a + b == a;
    } else {
      assert (a + b)[..|a + b| - 1] == a + b[..|b| - 1];
      ContributionsAppend(a, b[..|b| - 1]);
    }
  }

  lemma {:induction false} ItemsAppend(a: seq<Pack>, b: seq<Pack>)
    ensures Items(a + b) == Items(a) + Items(b)
    decreases |b|
  {
    hide ItemsOf;
    if b == [] {
      assert a + b == a;
    } else {
      assert (a + b)[..|a + b| - 1] == a + b[..|b| - 1];
      ItemsAppend(a, b[..|b| - 1]);
    }
  }

  lemma {:induction false} RecipeAppend(a: seq<Pack>, b: seq<Pack>)
    ensures Recipe(a + b) == Recipe(a) + Recipe(b)
  {
    ItemsAppend(a, b);
    ContributionsAppend(Items(a), Items(b));
  }

  lemma {:induction false} RecipeOfOne(p: Pack)
    ensures Recipe([p]) == SaidBy(p)
  {
    assert [p][..0] == [] && Items([]) == [];
    assert Items([p]) == Items([p][..0]) + ItemsOf(p);
    assert Items([p]) == ItemsOf(p);
  }

  lemma {:induction false} TakesSelect(fetches: seq<Fetch>)
    ensures forall c :: c in AllContributions(Takes(fetches)) ==> !c.guidance
  {
    if fetches == [] {
    } else {
      var init := fetches[..|fetches| - 1];
      var f := fetches[|fetches| - 1];
      TakesSelect(init);
      assert Takes(fetches)[..|Takes(fetches)| - 1] == Takes(init);
      SaidHolds(f.selection, S.Outline(f.source.file, f.source.markdown));
    }
  }

  /** A pack's selections stand before its guidance. */
  lemma {:induction false} PackParts(p: Pack)
    ensures SaidBy(p) == Selected(SaidBy(p)) + Guides(SaidBy(p))
  {
    var takes := [Check(p)] + Takes(p.fetches);
    var guide := if p.guidanceBlank then [] else [Guide(p.pin.id, p.guidance)];
    assert ItemsOf(p) == takes + guide;
    CheckedTakesSelect(p);
    GuideGuides(p);
    hide *;
    ContributionsAppend(takes, guide);
    var a, b := AllContributions(takes), AllContributions(guide);
    PartsAppend(a, b);
    OnlySelections(a);
    OnlyGuides(b);
    assert a + [] == a && [] + b == b;
    assert SaidBy(p) == a + b by { SaidByItems(p); }
  }

  lemma {:induction false} SaidByItems(p: Pack)
    ensures SaidBy(p) == AllContributions(ItemsOf(p))
  {
  }

  lemma {:induction false} CheckedTakesSelect(p: Pack)
    ensures forall c :: c in AllContributions([Check(p)] + Takes(p.fetches)) ==> !c.guidance
  {
    assert [Check(p)][..0] == [];
    assert AllContributions([Check(p)]) == [];
    TakesSelect(p.fetches);
    ContributionsAppend([Check(p)], Takes(p.fetches));
    hide AllContributions;
    hide Takes;
  }

  lemma {:induction false} GuideGuides(p: Pack)
    ensures forall c :: c in AllContributions([Guide(p.pin.id, p.guidance)]) ==> c.guidance
    ensures AllContributions([]) == []
  {
    var item := Guide(p.pin.id, p.guidance);
    assert [item][..0] == [];
    assert AllContributions([item]) == [] + Contributions(item);
    GuidingHolds(S.Outline(GuidanceFile(p.pin.id), p.guidance));
    forall c | c in Contributions(item) ensures c.guidance {
      var i :| 0 <= i < |Contributions(item)| && Contributions(item)[i] == c;
    }
  }

  lemma {:induction false} OnlySelections(cs: seq<Contribution>)
    requires forall c :: c in cs ==> !c.guidance
    ensures Selected(cs) == cs && Guides(cs) == []
  {
    if cs == [] {
    } else {
      var (init, c) := (cs[..|cs| - 1], cs[|cs| - 1]);
      OnlySelections(init);
      assert c in cs && cs == init + [c];
      assert Selected(cs) == Selected(init) + [c];
    }
  }

  // ---------------------------------------------------------------- permuting packs

  lemma {:induction false} SameItems(ps: seq<Pack>, qs: seq<Pack>)
    requires multiset(ps) == multiset(qs)
    ensures multiset(Items(ps)) == multiset(Items(qs))
    decreases |ps|
  {
    if ps == [] {
      assert |multiset(qs)| == 0;
      assert qs == [];
    } else {
      var p := ps[|ps| - 1];
      assert p in multiset(qs);
      var i :| 0 <= i < |qs| && qs[i] == p;
      WithoutSame(ps, qs, i);
      SameItems(ps[..|ps| - 1], qs[..i] + qs[i + 1..]);
      Without(qs, i);
      ItemsAround(qs[..i], p, qs[i + 1..]);
    }
  }

  lemma {:induction false} ItemsAround(a: seq<Pack>, p: Pack, b: seq<Pack>)
    ensures multiset(Items(a + [p] + b)) == multiset(Items(a + b)) + multiset(ItemsOf(p))
  {
    ItemsAppend(a + [p], b);
    ItemsAppend(a, b);
    assert (a + [p])[..|a|] == a;
  }

  lemma {:induction false} SameContributions(xs: seq<Item>, ys: seq<Item>)
    requires multiset(xs) == multiset(ys)
    ensures multiset(AllContributions(xs)) == multiset(AllContributions(ys))
    decreases |xs|
  {
    if xs == [] {
      assert |multiset(ys)| == 0;
      assert ys == [];
    } else {
      var x := xs[|xs| - 1];
      assert x in multiset(ys);
      var i :| 0 <= i < |ys| && ys[i] == x;
      WithoutSame(xs, ys, i);
      SameContributions(xs[..|xs| - 1], ys[..i] + ys[i + 1..]);
      Without(ys, i);
      ContributionsAround(ys[..i], x, ys[i + 1..]);
    }
  }

  lemma {:induction false} ContributionsAround(a: seq<Item>, x: Item, b: seq<Item>)
    ensures multiset(AllContributions(a + [x] + b)) == multiset(AllContributions(a + b)) + multiset(Contributions(x))
  {
    ContributionsAppend(a + [x], b);
    ContributionsAppend(a, b);
    assert (a + [x])[..|a|] == a;
  }

  lemma {:induction false} DocumentsDistinct(items: seq<Item>)
    ensures forall i, j :: 0 <= i < j < |Documents(items)| ==> Documents(items)[i] != Documents(items)[j]
  {
    if items != [] { DocumentsDistinct(items[..|items| - 1]); }
  }

  lemma {:induction false} SameBytes(a: seq<Document>, b: seq<Document>)
    requires multiset(a) == multiset(b)
    ensures TotalBytes(a) == TotalBytes(b)
    decreases |a|
  {
    if a == [] {
      assert |multiset(b)| == 0;
      assert b == [];
    } else {
      var d := a[|a| - 1];
      assert d in multiset(b);
      var i :| 0 <= i < |b| && b[i] == d;
      WithoutSame(a, b, i);
      SameBytes(a[..|a| - 1], b[..i] + b[i + 1..]);
      Without(b, i);
      BytesAround(b[..i], d, b[i + 1..]);
    }
  }

  lemma {:induction false} BytesAround(a: seq<Document>, d: Document, b: seq<Document>)
    ensures TotalBytes(a + [d] + b) == TotalBytes(a + b) + d.bytes
    decreases |b|
  {
    if b == [] {
      assert a + [d] + b == a + [d] && a + b == a;
      TotalGrows(a, d);
    } else {
      var (init, last) := (b[..|b| - 1], b[|b| - 1]);
      BytesAround(a, d, init);
      assert a + [d] + b == a + [d] + init + [last] && a + b == a + init + [last];
      TotalGrows(a + [d] + init, last);
      TotalGrows(a + init, last);
    }
  }

  /** Soundness, the documents and well-formedness do not depend on the order. */
  lemma {:induction false} SameDocuments(store: string, xs: seq<Item>, ys: seq<Item>)
    requires multiset(xs) == multiset(ys)
    ensures AllSound(store, xs) <==> AllSound(store, ys)
    ensures Counted(xs) <==> Counted(ys)
  {
    SameMembers(xs, ys);
    DocumentsHold(xs);
    DocumentsHold(ys);
    DocumentsDistinct(xs);
    DocumentsDistinct(ys);
    DistinctMembers(Documents(xs), Documents(ys));
    SameBytes(Documents(xs), Documents(ys));
    hide Documents;
    hide TotalBytes;
    hide Sound;
  }

  lemma {:induction false} SameWellFormed(xs: seq<Item>, ys: seq<Item>)
    requires WellFormed(xs) && multiset(xs) == multiset(ys)
    ensures WellFormed(ys)
  {
    SameMembers(xs, ys);
    forall i | 0 <= i < |ys| && ys[i].Take? ensures IsMarkdown(ys[i].fetch.selection.file) {
      assert ys[i] in xs;
      var a :| 0 <= a < |xs| && xs[a] == ys[i];
    }
    forall i, j | 0 <= i < j < |ys| && ys[i].Guide? && ys[j].Guide? ensures ys[i].id != ys[j].id {
      if ys[i] == ys[j] {
        TwoOf(ys, i, j);
        var a, b := Twice(xs, ys[i]);
      } else {
        assert ys[i] in xs && ys[j] in xs;
        var a :| 0 <= a < |xs| && xs[a] == ys[i];
        var b :| 0 <= b < |xs| && xs[b] == ys[j];
      }
    }
  }

  // ---------------------------------------------------------------- where the limit is looked at last

  /** How many guidance sections some packs have. */
  function Guidance(ps: seq<Pack>): nat {
    |Guides(Recipe(ps))|
  }

  lemma {:induction false} GuidanceAppend(a: seq<Pack>, b: seq<Pack>)
    ensures Guidance(a + b) == Guidance(a) + Guidance(b)
  {
    RecipeAppend(a, b);
    PartsAppend(Recipe(a), Recipe(b));
  }

  lemma {:induction false} SamePacks(ps: seq<Pack>, qs: seq<Pack>)
    requires multiset(ps) == multiset(qs)
    ensures multiset(Items(ps)) == multiset(Items(qs)) && multiset(Recipe(ps)) == multiset(Recipe(qs))
  {
    SameItems(ps, qs);
    SameContributions(Items(ps), Items(qs));
  }

  lemma {:induction false} SameGuidance(ps: seq<Pack>, qs: seq<Pack>)
    requires multiset(ps) == multiset(qs)
    ensures Guidance(ps) == Guidance(qs)
  {
    SamePacks(ps, qs);
    SameGuides(Recipe(ps), Recipe(qs));
  }

  lemma {:induction false} SameGuides(cs: seq<Contribution>, ds: seq<Contribution>)
    requires multiset(cs) == multiset(ds)
    ensures |Guides(cs)| == |Guides(ds)|
  {
    forall c ensures multiset(Selected(cs))[c] == multiset(Selected(ds))[c] {
      PartCount(cs, c);
      PartCount(ds, c);
    }
    PartsMakeTheWhole(cs);
    PartsMakeTheWhole(ds);
    assert multiset(Selected(cs)) == multiset(Selected(ds));
    assert |Guides(cs)| == |multiset(Guides(cs))| == |multiset(cs)| - |multiset(Selected(cs))|;
    assert |Guides(ds)| == |multiset(Guides(ds))| == |multiset(ds)| - |multiset(Selected(ds))|;
  }

  lemma {:induction false} SilentPacks(ps: seq<Pack>)
    requires forall p :: p in ps ==> !Selects(p)
    ensures Selected(Recipe(ps)) == [] && Guides(Recipe(ps)) == Recipe(ps)
  {
    if ps == [] {
      assert Items(ps) == [];
      assert Recipe(ps) == [];
    } else {
      var (init, p) := (ps[..|ps| - 1], ps[|ps| - 1]);
      assert p in ps && ps == init + [p];
      SilentPacks(init);
      RecipeAppend(init, [p]);
      RecipeOfOne(p);
      PackParts(p);
      hide Recipe;
      hide SaidBy;
      PartsAppend(Recipe(init), SaidBy(p));
      assert [] + Guides(SaidBy(p)) == Guides(SaidBy(p));
    }
  }

  /** The last pack that selects anything, when there is one. */
  lemma {:induction false} LastSelecting(ps: seq<Pack>) returns (l: nat)
    requires exists p :: p in ps && Selects(p)
    ensures l < |ps| && Selects(ps[l]) && forall p :: p in ps[l + 1..] ==> !Selects(p)
    decreases |ps|
  {
    hide Selects;
    var (init, last) := (ps[..|ps| - 1], ps[|ps| - 1]);
    assert ps == init + [last];
    if Selects(last) {
      l := |ps| - 1;
    } else {
      l := LastSelecting(init);
      assert ps[l + 1..] == init[l + 1..] + [last];
    }
  }

  /** In a recipe whose last selecting pack is number l, the limit is passed exactly when the selected
      sections and the guidance of the packs before number l exceed it together. */
  lemma {:induction false} CrowdedByTheLastPack(ps: seq<Pack>, l: nat)
    requires Coherent(Recipe(ps)) && l < |ps| && Selects(ps[l])
    requires forall p :: p in ps[l + 1..] ==> !Selects(p)
    ensures Crowded(Recipe(ps)) <==> |Seen(Selected(Recipe(ps)))| + Guidance(ps[..l]) > MAX_SECTIONS
  {
    var said := SaidBy(ps[l]);
    var a := Recipe(ps[..l]) + Selected(said);
    var b := Guides(said) + Recipe(ps[l + 1..]);
    SplitAt(ps, l);
    SilentPacks(ps[l + 1..]);
    PartsHold(said);
    PartsHold(Recipe(ps[l + 1..]));
    assert forall c :: c in b ==> c.guidance;
    assert a[|a| - 1] == Selected(said)[|Selected(said)| - 1];
    assert a[|a| - 1] in Selected(said);
    hide *;
    CrowdedAtTheLast(a, b);
    assert Recipe(ps) == a + b;
    assert Recipe(ps)[..|a|] == a;
    CoherentPrefix(Recipe(ps), |a|);
    SeenInParts(a);
    PartsAppend(a, b);
    OnlyGuides(b);
    assert Selected(Recipe(ps)) == Selected(a) + [] == Selected(a);
    PartsAppend(Recipe(ps[..l]), Selected(said));
    OnlySelections(Selected(said));
    assert Guides(a) == Guides(Recipe(ps[..l])) + [] == Guides(Recipe(ps[..l]));
    GuidanceIs(ps[..l]);
  }

  lemma {:induction false} GuidanceIs(ps: seq<Pack>)
    ensures Guidance(ps) == |Guides(Recipe(ps))|
  {
  }

  lemma {:induction false} SplitAt(ps: seq<Pack>, l: nat)
    requires l < |ps|
    ensures ps == ps[..l] + [ps[l]] + ps[l + 1..]
    ensures Recipe(ps) == Recipe(ps[..l]) + Selected(SaidBy(ps[l])) + (Guides(SaidBy(ps[l])) + Recipe(ps[l + 1..]))
  {
    hide *;
    assert ps == ps[..l] + [ps[l]] + ps[l + 1..];
    RecipeAppend(ps[..l] + [ps[l]], ps[l + 1..]);
    RecipeAppend(ps[..l], [ps[l]]);
    RecipeOfOne(ps[l]);
    PackParts(ps[l]);
    var (x, y, z, w) := (Recipe(ps[..l]), Selected(SaidBy(ps[l])), Guides(SaidBy(ps[l])), Recipe(ps[l + 1..]));
    assert x + (y + z) + w == x + y + (z + w);
  }

  // ---------------------------------------------------------------- selecting packs apart

  lemma {:induction false} SelectingMakesTheWhole(ps: seq<Pack>)
    ensures multiset(Selecting(ps)) + multiset(Silent(ps)) == multiset(ps)
  {
    hide Selects;
    if ps == [] {
    } else {
      SelectingMakesTheWhole(ps[..|ps| - 1]);
      assert ps == ps[..|ps| - 1] + [ps[|ps| - 1]];
    }
  }

  lemma {:induction false} SelectingHolds(ps: seq<Pack>)
    ensures forall p :: p in Selecting(ps) <==> p in ps && Selects(p)
    ensures forall p :: p in Silent(ps) <==> p in ps && !Selects(p)
  {
    hide Selects;
    if ps == [] {
    } else {
      SelectingHolds(ps[..|ps| - 1]);
      assert ps == ps[..|ps| - 1] + [ps[|ps| - 1]];
    }
  }

  lemma {:induction false} SelectingOne(p: Pack)
    requires Selects(p)
    ensures Selecting([p]) == [p]
  {
    assert [p][..0] == [];
  }

  lemma {:induction false} NoneSelecting(ps: seq<Pack>)
    requires forall p :: p in ps ==> !Selects(p)
    ensures Selecting(ps) == []
  {
    hide Selects;
    if ps == [] {
    } else {
      assert ps[|ps| - 1] in ps;
      NoneSelecting(ps[..|ps| - 1]);
    }
  }

  lemma {:induction false} SelectingAppend(a: seq<Pack>, b: seq<Pack>)
    ensures Selecting(a + b) == Selecting(a) + Selecting(b)
    decreases |b|
  {
    hide Selects;
    if b == [] {
      assert a + b == a;
    } else {
      assert (a + b)[..|a + b| - 1] == a + b[..|b| - 1];
      SelectingAppend(a, b[..|b| - 1]);
    }
  }

  lemma {:induction false} SelectingSame(ps: seq<Pack>, qs: seq<Pack>)
    requires multiset(ps) == multiset(qs)
    ensures multiset(Selecting(ps)) == multiset(Selecting(qs))
  {
    forall p ensures multiset(Selecting(ps))[p] == multiset(Selecting(qs))[p] {
      SelectingCount(ps, p);
      SelectingCount(qs, p);
    }
  }

  lemma {:induction false} SelectingCount(ps: seq<Pack>, p: Pack)
    ensures multiset(Selecting(ps))[p] == if Selects(p) then multiset(ps)[p] else 0
  {
    SelectingHolds(ps);
    SelectingMakesTheWhole(ps);
    hide Selects;
    assert multiset(ps)[p] == multiset(Selecting(ps))[p] + multiset(Silent(ps))[p];
    assert p in Selecting(ps) <==> p in multiset(Selecting(ps));
    assert p in Silent(ps) <==> p in multiset(Silent(ps));
  }

  lemma {:induction false} SelectingIsFewer(ps: seq<Pack>)
    ensures Guidance(Selecting(ps)) <= Guidance(ps)
  {
    SelectingMakesTheWhole(ps);
    hide *;
    assert multiset(Selecting(ps) + Silent(ps)) == multiset(ps);
    SameGuidance(Selecting(ps) + Silent(ps), ps);
    GuidanceAppend(Selecting(ps), Silent(ps));
  }

  /** Before the last selecting pack stands at least the guidance of the other selecting packs and at
      most that of all other packs. */
  lemma {:induction false} GuidanceBetween(ps: seq<Pack>, l: nat)
    requires l < |ps| && Selects(ps[l]) && forall p :: p in ps[l + 1..] ==> !Selects(p)
    ensures Guidance(Selecting(ps)) - Guidance([ps[l]]) <= Guidance(ps[..l]) <= Guidance(ps) - Guidance([ps[l]])
  {
    hide *;
    assert ps == ps[..l] + [ps[l]] + ps[l + 1..];
    NoneSelecting(ps[l + 1..]);
    SelectingOne(ps[l]);
    SelectingAppend(ps[..l] + [ps[l]], ps[l + 1..]);
    SelectingAppend(ps[..l], [ps[l]]);
    assert Selecting(ps) == Selecting(ps[..l]) + [ps[l]];
    GuidanceAppend(Selecting(ps[..l]), [ps[l]]);
    SelectingIsFewer(ps[..l]);
    GuidanceAppend(ps[..l] + [ps[l]], ps[l + 1..]);
    GuidanceAppend(ps[..l], [ps[l]]);
  }

  /** The pack p last: everything else stands before it. */
  function PutLast(ps: seq<Pack>, i: nat): seq<Pack>
    requires i < |ps|
  {
    ps[..i] + ps[i + 1..] + [ps[i]]
  }

  /** The pack p last among the selecting ones, and the silent ones after it. */
  function PutEarly(ps: seq<Pack>, i: nat): seq<Pack>
    requires i < |ps|
  {
    var others := ps[..i] + ps[i + 1..];
    Selecting(others) + [ps[i]] + Silent(others)
  }

  lemma {:induction false} PutLastHolds(ps: seq<Pack>, i: nat)
    requires i < |ps|
    ensures multiset(PutLast(ps, i)) == multiset(ps)
    ensures Guidance(PutLast(ps, i)[..|ps| - 1]) == Guidance(ps) - Guidance([ps[i]])
  {
    Without(ps, i);
    var others := ps[..i] + ps[i + 1..];
    assert PutLast(ps, i)[..|ps| - 1] == others;
    SameGuidance(ps, others + [ps[i]]);
    GuidanceAppend(others, [ps[i]]);
  }

  lemma {:induction false} PutEarlyHolds(ps: seq<Pack>, i: nat)
    requires i < |ps| && Selects(ps[i])
    ensures multiset(PutEarly(ps, i)) == multiset(ps)
  {
    Without(ps, i);
    SelectingMakesTheWhole(ps[..i] + ps[i + 1..]);
    hide Selecting;
    hide Silent;
  }

  lemma {:induction false} GuidanceBeforeEarly(ps: seq<Pack>, i: nat, others: seq<Pack>)
    requires i < |ps| && Selects(ps[i]) && others == ps[..i] + ps[i + 1..]
    ensures Guidance(Selecting(others)) == Guidance(Selecting(ps)) - Guidance([ps[i]])
  {
    Without(ps, i);
    hide *;
    assert multiset(others + [ps[i]]) == multiset(ps);
    SelectingSame(ps, others + [ps[i]]);
    SelectingAppend(others, [ps[i]]);
    SelectingOne(ps[i]);
    SameGuidance(Selecting(ps), Selecting(others) + [ps[i]]);
    GuidanceAppend(Selecting(others), [ps[i]]);
  }

  // ---------------------------------------------------------------- exactly when the order of packs is free

  /** The sections that are sent: seen and not excluded. */
  ghost function Included(cs: seq<Contribution>): set<Id> {
    set id | id in Seen(cs) && !SomeExcludes(cs, id)
  }

  lemma {:induction false} SortedKeepsAsMany(k: Candidates)
    ensures |Kept(Sorted(k))| == |Kept(k)|
  {
    SortedHolds(k);
    SameKept(Sorted(k), k);
  }

  lemma {:induction false} SameKept(k: Candidates, l: Candidates)
    requires multiset(k) == multiset(l)
    ensures multiset(Kept(k)) == multiset(Kept(l)) && |Kept(k)| == |Kept(l)|
  {
    forall c ensures multiset(Kept(k))[c] == multiset(Kept(l))[c] {
      KeptCount(k, c);
      KeptCount(l, c);
    }
    assert |Kept(k)| == |multiset(Kept(k))| && |Kept(l)| == |multiset(Kept(l))|;
  }

  lemma {:induction false} KeptCount(k: Candidates, c: Candidate)
    ensures multiset(Kept(k))[c] == if c.excluded then 0 else multiset(k)[c]
  {
    if k == [] {
    } else {
      KeptCount(k[..|k| - 1], c);
      assert k == k[..|k| - 1] + [k[|k| - 1]];
    }
  }

  ghost function KeptIds(ids: seq<Id>, k: Candidates): set<Id>
    requires |ids| == |k|
  {
    set p | 0 <= p < |k| && !k[p].excluded :: ids[p]
  }

  lemma {:induction false} KeptIdsSplit(ids: seq<Id>, k: Candidates)
    requires |ids| == |k| > 0
    ensures var n := |k| - 1;
            KeptIds(ids, k) == KeptIds(ids[..n], k[..n]) + if k[n].excluded then {} else {ids[n]}
  {
    var n := |k| - 1;
    forall id | id in KeptIds(ids[..n], k[..n]) ensures id in KeptIds(ids, k) {
      var p :| 0 <= p < n && !k[..n][p].excluded && ids[..n][p] == id;
      assert ids[p] == id && !k[p].excluded;
    }
    forall id | id in KeptIds(ids, k) ensures id in KeptIds(ids[..n], k[..n]) || (!k[n].excluded && id == ids[n]) {
      var p :| 0 <= p < |k| && !k[p].excluded && ids[p] == id;
      if p < n { assert ids[..n][p] == id && !k[..n][p].excluded; }
    }
  }

  lemma {:induction false} KeptSize(ids: seq<Id>, k: Candidates)
    requires |ids| == |k| && forall p, q :: 0 <= p < q < |ids| ==> ids[p] != ids[q]
    ensures |Kept(k)| == |KeptIds(ids, k)|
  {
    if k == [] {
      assert KeptIds(ids, k) == {};
    } else {
      var n := |k| - 1;
      KeptIdsSplit(ids, k);
      assert ids[n] !in KeptIds(ids[..n], k[..n]);
      hide KeptIds;
      KeptSize(ids[..n], k[..n]);
    }
  }

  /** As many sections are sent as were seen and not excluded. */
  lemma {:induction false} KeptAreIncluded(cs: seq<Contribution>, k: Candidates)
    requires Tallies(cs, k)
    ensures |Kept(Sorted(k))| == |Included(cs)|
  {
    SortedKeepsAsMany(k);
    SeenHolds(cs);
    var ids := Seen(cs);
    KeptSize(ids, k);
    hide Seen;
    hide Kept;
    hide SomeExcludes;
    hide SomeRequires;
    assert Included(cs) == KeptIds(ids, k) by {
      forall p | 0 <= p < |k| ensures k[p].excluded <==> SomeExcludes(cs, ids[p]) {
        assert Totals(cs, ids[p], k[p]);
      }
    }
  }

  /** Whether a recipe compiles, the hand-over included. */
  predicate Compiles(store: string, ps: seq<Pack>) {
    && store != "" && Compose(store, Items(ps)).Ok?
    && 0 < |Kept(Sorted(Compose(store, Items(ps)).value.candidates))| <= MAX_SECTIONS
  }

  /** What holds of a recipe in every order of its packs. */
  ghost predicate IsAdmissible(store: string, ps: seq<Pack>) {
    && store != "" && AllSound(store, Items(ps)) && Counted(Items(ps))
    && !Clash(Recipe(ps)) && 0 < |Included(Recipe(ps))| <= MAX_SECTIONS
  }

  /** Pack number i comes last of all the packs that select: whether the limit holds when everything
      else stands before it, and when only the other selecting packs do. */
  predicate FitsLast(ps: seq<Pack>, i: nat)
    requires i < |ps|
  {
    |Seen(Selected(Recipe(ps)))| + Guidance(ps) - Guidance([ps[i]]) <= MAX_SECTIONS
  }

  predicate FitsEarly(ps: seq<Pack>, i: nat)
    requires i < |ps|
  {
    |Seen(Selected(Recipe(ps)))| + Guidance(Selecting(ps)) - Guidance([ps[i]]) <= MAX_SECTIONS
  }

  /** Every order of the packs compiles, or none does. */
  ghost predicate IsRecipeOrderFree(store: string, ps: seq<Pack>) {
    forall qs :: multiset(qs) == multiset(ps) ==> (Compiles(store, qs) <==> Compiles(store, ps))
  }

  ghost predicate PackOrderCannotMatter(store: string, ps: seq<Pack>) {
    || !IsAdmissible(store, ps)
    || (forall i :: 0 <= i < |ps| && Selects(ps[i]) ==> FitsLast(ps, i))
    || (forall i :: 0 <= i < |ps| && Selects(ps[i]) ==> !FitsEarly(ps, i))
  }

  /** In one order: the recipe compiles exactly when it is admissible and never passes the limit. */
  lemma {:induction false} CompilesExactly(store: string, ps: seq<Pack>)
    requires WellFormed(Items(ps))
    ensures Compiles(store, ps) <==> IsAdmissible(store, ps) && !Crowded(Recipe(ps))
  {
    PacksMerge(store, ps);
    if Compose(store, Items(ps)).Ok? {
      ContributionsAreCoherent(store, Items(ps));
      KeptAreIncluded(Recipe(ps), Compose(store, Items(ps)).value.candidates);
    }
    hide AllSound;
    hide LedgerOf;
    hide Clash;
    hide Crowded;
    hide Tallies;
    hide Compose;
    hide Kept;
    hide Sorted;
    hide Included;
    hide Items;
    hide AllContributions;
  }

  lemma {:induction false} SameAdmissible(store: string, ps: seq<Pack>, qs: seq<Pack>)
    requires multiset(ps) == multiset(qs)
    ensures IsAdmissible(store, ps) <==> IsAdmissible(store, qs)
  {
    SamePacks(ps, qs);
    SameDocuments(store, Items(ps), Items(qs));
    SameIncluded(Recipe(ps), Recipe(qs));
    hide AllSound;
    hide Counted;
    hide Clash;
    hide Included;
    hide Recipe;
    hide Items;
  }

  lemma {:induction false} SameIncluded(cs: seq<Contribution>, ds: seq<Contribution>)
    requires multiset(cs) == multiset(ds)
    ensures (Clash(cs) <==> Clash(ds)) && Included(cs) == Included(ds)
  {
    SameMembers(cs, ds);
    SameTotals(cs, ds);
    SameSeen(cs, ds);
    forall id ensures SomeExcludes(cs, id) == SomeExcludes(ds, id) { SameSums(cs, ds, id); }
    hide SomeExcludes;
    hide Seen;
    hide Clash;
  }

  /** Among well-formed packs, one order passes the limit exactly when its last selecting pack does not
      leave room for what stands before it. */
  lemma {:induction false} CrowdedInOrder(store: string, ps: seq<Pack>, qs: seq<Pack>, l: nat)
    requires WellFormed(Items(ps)) && IsAdmissible(store, ps) && multiset(qs) == multiset(ps)
    requires l < |qs| && Selects(qs[l]) && forall p :: p in qs[l + 1..] ==> !Selects(p)
    ensures WellFormed(Items(qs))
    ensures Compiles(store, qs) <==> |Seen(Selected(Recipe(ps)))| + Guidance(qs[..l]) <= MAX_SECTIONS
  {
    SamePacks(ps, qs);
    SameWellFormed(Items(ps), Items(qs));
    SameAdmissible(store, ps, qs);
    AdmissibleIsCoherent(store, qs);
    hide *;
    CompilesExactly(store, qs);
    CrowdedByTheLastPack(qs, l);
    SelectedAlike(Recipe(ps), Recipe(qs));
  }

  lemma {:induction false} AdmissibleIsCoherent(store: string, ps: seq<Pack>)
    requires WellFormed(Items(ps)) && IsAdmissible(store, ps)
    ensures Coherent(Recipe(ps))
  {
    ContributionsAreCoherent(store, Items(ps));
    hide AllSound;
    hide OneContent;
    hide AllContributions;
  }

  /** An order whose last selecting pack is the same one as ours number i compiles at most when that one
      fits early, and at least when it fits last. */
  lemma {:induction false} OneOrder(store: string, ps: seq<Pack>, qs: seq<Pack>) returns (i: nat)
    requires WellFormed(Items(ps)) && IsAdmissible(store, ps) && multiset(qs) == multiset(ps)
    requires exists p :: p in ps && Selects(p)
    ensures i < |ps| && Selects(ps[i])
    ensures FitsLast(ps, i) ==> Compiles(store, qs)
    ensures Compiles(store, qs) ==> FitsEarly(ps, i)
  {
    hide *;
    SameMembers(ps, qs);
    var l := LastSelecting(qs);
    assert qs[l] in ps;
    i :| 0 <= i < |ps| && ps[i] == qs[l];
    CrowdedInOrder(store, ps, qs, l);
    GuidanceBetween(qs, l);
    SameGuidance(ps, qs);
    SelectingSame(ps, qs);
    SameGuidance(Selecting(ps), Selecting(qs));
    FitsByDefinition(ps, i);
  }

  lemma {:induction false} FitsByDefinition(ps: seq<Pack>, i: nat)
    requires i < |ps|
    ensures FitsLast(ps, i) <==>
              |Seen(Selected(Recipe(ps)))| + Guidance(ps) - Guidance([ps[i]]) <= MAX_SECTIONS
    ensures FitsEarly(ps, i) <==>
              |Seen(Selected(Recipe(ps)))| + Guidance(Selecting(ps)) - Guidance([ps[i]]) <= MAX_SECTIONS
  {
  }

  lemma {:induction false} LastOrder(store: string, ps: seq<Pack>, i: nat)
    requires WellFormed(Items(ps)) && IsAdmissible(store, ps) && i < |ps| && Selects(ps[i])
    ensures multiset(PutLast(ps, i)) == multiset(ps)
    ensures Compiles(store, PutLast(ps, i)) <==> FitsLast(ps, i)
  {
    PutLastHolds(ps, i);
    var qs := PutLast(ps, i);
    var l := |ps| - 1;
    assert qs[l] == ps[i] && qs[l + 1..] == [] && |qs| == |ps|;
    hide *;
    CrowdedInOrder(store, ps, qs, l);
    FitsByDefinition(ps, i);
  }

  lemma {:induction false} ThreeParts<T>(a: seq<T>, x: T, b: seq<T>)
    ensures var s := a + [x] + b;
            s[|a|] == x && s[..|a|] == a && s[|a| + 1..] == b
  {}

  lemma {:induction false} EarlySplits(ps: seq<Pack>, i: nat, others: seq<Pack>)
    requires i < |ps| && Selects(ps[i]) && others == ps[..i] + ps[i + 1..]
    ensures var (qs, l) := (PutEarly(ps, i), |Selecting(others)|);
            && multiset(qs) == multiset(ps)
            && l < |qs| && qs[l] == ps[i] && qs[..l] == Selecting(others)
            && forall p :: p in qs[l + 1..] ==> !Selects(p)
  {
    PutEarlyHolds(ps, i);
    SelectingHolds(others);
    ThreeParts(Selecting(others), ps[i], Silent(others));
    assert PutEarly(ps, i) == Selecting(others) + [ps[i]] + Silent(others);
    hide *;
  }

  lemma {:induction false} EarlyOrder(store: string, ps: seq<Pack>, i: nat)
    requires WellFormed(Items(ps)) && IsAdmissible(store, ps) && i < |ps| && Selects(ps[i])
    ensures multiset(PutEarly(ps, i)) == multiset(ps)
    ensures Compiles(store, PutEarly(ps, i)) <==> FitsEarly(ps, i)
  {
    hide *;
    var others := ps[..i] + ps[i + 1..];
    var qs := PutEarly(ps, i);
    var l := |Selecting(others)|;
    EarlySplits(ps, i, others);
    GuidanceBeforeEarly(ps, i, others);
    CrowdedInOrder(store, ps, qs, l);
    FitsByDefinition(ps, i);
  }

  /** Nothing is selected: then no order passes the limit. */
  lemma {:induction false} SilentRecipe(store: string, ps: seq<Pack>)
    requires WellFormed(Items(ps)) && forall p :: p in ps ==> !Selects(p)
    ensures Compiles(store, ps) <==> IsAdmissible(store, ps)
  {
    hide *;
    SilentPacks(ps);
    NothingSelectedIsNotCrowded(Recipe(ps));
    CompilesExactly(store, ps);
  }

  /** The order of the packs never decides whether a recipe compiles if and only if no order is
      admissible, or the limit holds whichever selecting pack comes last with all else before it, or it
      is passed whichever comes last with only the other selecting packs before it. */
  lemma {:induction false} RecipeIsOrderFree(store: string, ps: seq<Pack>)
    requires WellFormed(Items(ps))
    ensures IsRecipeOrderFree(store, ps) <==> PackOrderCannotMatter(store, ps)
  {
    if PackOrderCannotMatter(store, ps) {
      forall qs | multiset(qs) == multiset(ps) ensures Compiles(store, qs) <==> Compiles(store, ps) {
        SettledOrder(store, ps, qs);
      }
    } else {
      var i :| 0 <= i < |ps| && Selects(ps[i]) && !FitsLast(ps, i);
      var j :| 0 <= j < |ps| && Selects(ps[j]) && FitsEarly(ps, j);
      LastOrder(store, ps, i);
      EarlyOrder(store, ps, j);
    }
    hide Compiles;
    hide PackOrderCannotMatter;
    hide PutLast;
    hide PutEarly;
  }

  lemma {:induction false} SettledOrder(store: string, ps: seq<Pack>, qs: seq<Pack>)
    requires WellFormed(Items(ps)) && PackOrderCannotMatter(store, ps) && multiset(qs) == multiset(ps)
    ensures Compiles(store, qs) <==> Compiles(store, ps)
  {
    SamePacks(ps, qs);
    SameWellFormed(Items(ps), Items(qs));
    SameAdmissible(store, ps, qs);
    SameMembers(ps, qs);
    hide Compiles;
    hide FitsLast;
    hide FitsEarly;
    hide IsAdmissible;
    hide Selects;
    hide WellFormed;
    hide Items;
    if !IsAdmissible(store, ps) {
      CompilesExactly(store, ps);
      CompilesExactly(store, qs);
    } else if exists p :: p in ps && Selects(p) {
      var i := OneOrder(store, ps, qs);
      var j := OneOrder(store, ps, ps);
    } else {
      SilentRecipe(store, ps);
      SilentRecipe(store, qs);
    }
  }

  /** Two orders that both compile send the same candidates with the same requirements and priorities. */
  lemma {:induction false} RecipeCarriesTheSame(store: string, ps: seq<Pack>, qs: seq<Pack>)
    requires WellFormed(Items(ps)) && multiset(ps) == multiset(qs)
    requires Compiles(store, ps) && Compiles(store, qs)
    ensures multiset(Compose(store, Items(ps)).value.candidates) == multiset(Compose(store, Items(qs)).value.candidates)
  {
    SamePacks(ps, qs);
    CompilesExactly(store, ps);
    AdmissibleIsCoherent(store, ps);
    CompositionIsExact(store, Items(ps));
    CompositionIsExact(store, Items(qs));
    MergeCarriesTheSame(Recipe(ps), Recipe(qs));
    hide Merge;
    hide Compose;
    hide AllSound;
    hide Counted;
    hide Items;
    hide AllContributions;
  }

  // ---------------------------------------------------------------- two packs whose order matters

  const BOOK := S.Part("a.md", "a.md")
  const NOTE := S.Part("b.md", "b.md")
  const BODY := S.Text("x", false)
  const NO_TEXT := S.Text("", true)

  function Chapters(n: nat): (r: seq<S.Heading>)
    ensures |r| == n && forall i :: 0 <= i < n ==> r[i] == S.Heading(S.Part("h", "h"), BODY, [])
  {
    if n == 0 then [] else [S.Heading(S.Part("h", "h"), BODY, [])] + Chapters(n - 1)
  }

  /** A document of n sections. */
  function Book(n: nat): Document {
    Document("store", BOOK, "r", 0, false, S.Markdown(NO_TEXT, Chapters(n)))
  }

  function PackOf(id: string, document: Document, mode: Mode, guidanceBlank: bool): Pack {
    var pin := Pin(id, 1, "h");
    Pack(pin, pin, "h", false,
         [Fetch(Selection(document.file, document.revision, mode, [], 0), true, document)],
         guidanceBlank, S.Markdown(BODY, []))
  }

  /** 499 sections without guidance. */
  const LARGE := PackOf("large", Book(499), Prioritized, true)

  /** One excluded section and one section of guidance. */
  const SMALL := PackOf("small", Document("store", NOTE, "r", 0, false, S.Markdown(BODY, [])), Excluded, false)

  lemma {:induction false} ChapterSections(n: nat, next: nat)
    ensures var r := S.Numbered(BOOK, S.Entries(Chapters(n), [BOOK]), next);
            |r| == n
    decreases n
  {
    if n == 0 {
    } else {
      var tree := Chapters(n);
      assert tree[1..] == Chapters(n - 1);
      var path := [BOOK] + [tree[0].title];
      var rest := S.Entries(tree[1..], [BOOK]);
      assert S.Entries(tree, [BOOK]) == [S.Entry(path, BODY)] + [] + rest;
      assert S.Entries(tree, [BOOK])[1..] == rest;
      ChapterSections(n - 1, next + 1);
    }
  }

  lemma {:induction false} SaidOfAll(s: Selection, sections: seq<S.Section>)
    requires s.headings == []
    ensures |Said(s, sections)| == |sections|
    ensures forall i :: 0 <= i < |sections| ==>
              Said(s, sections)[i] == Contribution(sections[i], s.mode.Required?, s.priority, s.mode.Excluded?, false)
  {
    if sections == [] {
    } else {
      SaidOfAll(s, sections[..|sections| - 1]);
    }
  }

  lemma {:induction false} TakesOfOne(f: Fetch)
    ensures Takes([f]) == [Take(f)]
  {
    assert [f][..0] == [];
    assert Takes([f]) == [] + [Take(f)];
  }

  lemma {:induction false} ItemsOfOne(id: string, document: Document, mode: Mode, guidanceBlank: bool)
    ensures var p := PackOf(id, document, mode, guidanceBlank);
            ItemsOf(p) == [Check(p), Take(p.fetches[0])] + if guidanceBlank then [] else [Guide(id, p.guidance)]
  {
    TakesOfOne(PackOf(id, document, mode, guidanceBlank).fetches[0]);
  }

  lemma {:induction false} ContributionsOfOne(item: Item)
    ensures AllContributions([item]) == Contributions(item)
  {
    assert [item][..0] == [];
    assert AllContributions([item]) == [] + Contributions(item);
  }

  lemma {:induction false} LargeSays()
    ensures var said := SaidBy(LARGE);
            && |said| == 499
            && forall i :: 0 <= i < 499 ==>
                 IdOf(said[i].section) == Id(BOOK, i) && !said[i].guidance && !said[i].excluded && !said[i].required
  {
    var f := LARGE.fetches[0];
    ItemsOfOne("large", Book(499), Prioritized, true);
    assert ItemsOf(LARGE) == [Check(LARGE)] + [Take(f)];
    ContributionsAppend([Check(LARGE)], [Take(f)]);
    ContributionsOfOne(Check(LARGE));
    ContributionsOfOne(Take(f));
    BookOutline(499);
    SaidOfAll(f.selection, S.Outline(BOOK, Book(499).markdown));
    assert SaidBy(LARGE) == [] + Said(f.selection, S.Outline(BOOK, Book(499).markdown));
    hide *;
  }

  lemma {:induction false} BookOutline(n: nat)
    ensures |S.Outline(BOOK, Book(n).markdown)| == n
  {
    var entries := S.Entries(Chapters(n), [BOOK]);
    ChapterSections(n, 0);
    assert ([S.Entry([BOOK], NO_TEXT)] + entries)[1..] == entries;
  }

  const NOTE_SAID := Contribution(S.Section(NOTE, 0, "x", [NOTE]), false, 0, true, false)
  const GUIDE_SAID := Contribution(
    S.Section(GuidanceFile("small"), 0, "x", [GuidanceFile("small")]), true, GUIDANCE_PRIORITY, false, true)

  lemma {:induction false} OneSection(file: S.Part)
    ensures S.Outline(file, S.Markdown(BODY, [])) == [S.Section(file, 0, "x", [file])]
  {
    var entries := [S.Entry([file], BODY)] + S.Entries([], [file]);
    assert entries[1..] == [];
    assert S.Numbered(file, entries, 0) == [S.Section(file, 0, "x", [file])] + S.Numbered(file, [], 1);
  }

  lemma {:induction false} SmallTakes()
    ensures Contributions(Take(SMALL.fetches[0])) == [NOTE_SAID]
  {
    OneSection(NOTE);
    SaidOfAll(SMALL.fetches[0].selection, S.Outline(NOTE, S.Markdown(BODY, [])));
    hide S.Outline;
  }

  lemma {:induction false} SmallGuides()
    ensures Contributions(Guide("small", SMALL.guidance)) == [GUIDE_SAID] && GUIDE_SAID.guidance
  {
    OneSection(GuidanceFile("small"));
    GuidingHolds(S.Outline(GuidanceFile("small"), S.Markdown(BODY, [])));
    hide S.Outline;
  }

  lemma {:induction false} SmallSays()
    ensures SaidBy(SMALL) == [NOTE_SAID, GUIDE_SAID]
  {
    hide S.Outline;
    hide Said;
    hide Guiding;
    hide AllContributions;
    hide ItemsOf;
    var f := SMALL.fetches[0];
    var (check, take, guide) := (Check(SMALL), Take(f), Guide("small", SMALL.guidance));
    ItemsOfOne("small", f.source, Excluded, false);
    assert ItemsOf(SMALL) == [check] + [take] + [guide];
    ContributionsAppend([check] + [take], [guide]);
    ContributionsAppend([check], [take]);
    ContributionsOfOne(check);
    ContributionsOfOne(take);
    ContributionsOfOne(guide);
    SmallTakes();
    SmallGuides();
    assert SaidBy(SMALL) == [] + [NOTE_SAID] + [GUIDE_SAID];
  }

  lemma {:induction false} DistinctSeen(cs: seq<Contribution>)
    requires forall i, j :: 0 <= i < j < |cs| ==> IdOf(cs[i].section) != IdOf(cs[j].section)
    ensures |Seen(cs)| == |cs|
  {
    if cs == [] {
    } else {
      var (init, id) := (cs[..|cs| - 1], IdOf(cs[|cs| - 1].section));
      DistinctSeen(init);
      SeenHolds(init);
      forall c | c in init ensures !About(c, id) {
        var i :| 0 <= i < |init| && init[i] == c;
      }
    }
  }

  lemma {:induction false} RecipeOfTwo(
    x: Pack, y: Pack, a: seq<Contribution>, b: seq<Contribution>, g: seq<Contribution>)
    requires SaidBy(x) == a && SaidBy(y) == b + g
    requires (forall c :: c in a + b ==> !c.guidance) && forall c :: c in g ==> c.guidance
    ensures Recipe([x, y]) == a + b + g && Selected(Recipe([x, y])) == a + b && Guides(Recipe([x, y])) == g
    ensures Selected(SaidBy(x)) == a && Selected(SaidBy(y)) == b
    ensures Guidance([x]) == 0 && Guidance([y]) == |g|
  {
    hide *;
    assert [x, y] == [x] + [y];
    RecipeAppend([x], [y]);
    RecipeOfOne(x);
    RecipeOfOne(y);
    GuidanceIs([x]);
    GuidanceIs([y]);
    forall c | c in a ensures c in a + b {}
    forall c | c in b ensures c in a + b {}
    OnlySelections(a);
    OnlySelections(b);
    OnlySelections(a + b);
    OnlyGuides(g);
    PartsAppend(b, g);
    PartsAppend(a + b, g);
    assert a + (b + g) == a + b + g;
    assert b + [] == b && [] + g == g && a + b + [] == a + b;
  }

  lemma {:induction false} NothingGuides()
    ensures forall c :: c in SaidBy(LARGE) + [NOTE_SAID] ==> !c.guidance
  {
    LargeSays();
    var said := SaidBy(LARGE);
    hide SaidBy;
    forall c | c in said ensures !c.guidance { var i :| 0 <= i < 499 && said[i] == c; }
  }

  lemma {:induction false} TwoFacts()
    ensures var cs := Recipe([LARGE, SMALL]);
            && cs == SaidBy(LARGE) + [NOTE_SAID] + [GUIDE_SAID]
            && Selected(cs) == SaidBy(LARGE) + [NOTE_SAID]
            && Guidance([LARGE]) == 0 && Guidance([SMALL]) == 1 && Selects(LARGE) && Selects(SMALL)
  {
    hide *;
    SmallGuides();
    LargeSays();
    SmallSays();
    NothingGuides();
    assert [NOTE_SAID, GUIDE_SAID] == [NOTE_SAID] + [GUIDE_SAID];
    RecipeOfTwo(LARGE, SMALL, SaidBy(LARGE), [NOTE_SAID], [GUIDE_SAID]);
    SelectsByDefinition(LARGE);
    SelectsByDefinition(SMALL);
  }

  lemma {:induction false} SelectsByDefinition(p: Pack)
    ensures Selects(p) <==> Selected(SaidBy(p)) != []
  {
  }

  lemma {:induction false} TwoSections()
    ensures var cs := Recipe([LARGE, SMALL]);
            |Seen(Selected(cs))| == MAX_SECTIONS && |Included(cs)| == MAX_SECTIONS && !Clash(cs)
  {
    LargeSays();
    TwoFacts();
    GuidanceIsApart(BOOK, "small", "small");
    GuidanceIsApart(NOTE, "small", "small");
    var cs := Recipe([LARGE, SMALL]);
    var large := SaidBy(LARGE);
    hide SaidBy;
    hide Recipe;
    hide Selected;
    assert IsMarkdown(BOOK) && IsMarkdown(NOTE);
    hide GuidanceFile;
    assert cs[499] == NOTE_SAID && cs[500] == GUIDE_SAID && forall i :: 0 <= i < 499 ==> cs[i] == large[i];
    DistinctSeen(cs);
    DistinctSeen(large + [NOTE_SAID]);
    OnlyTheNoteIsExcluded(cs);
  }

  lemma {:induction false} OnlyTheNoteIsExcluded(cs: seq<Contribution>)
    requires |cs| == 501 && cs[499] == NOTE_SAID && |Seen(cs)| == 501
    requires forall i :: 0 <= i < 501 && i != 499 ==> !cs[i].excluded && IdOf(cs[i].section) != IdOf(NOTE_SAID.section)
    ensures |Included(cs)| == MAX_SECTIONS && !Clash(cs)
  {
    var note := IdOf(NOTE_SAID.section);
    forall c | c in cs ensures (c.excluded <==> c == NOTE_SAID) && (About(c, note) <==> c == NOTE_SAID) {
      var i :| 0 <= i < |cs| && cs[i] == c;
    }
    assert NOTE_SAID in cs;
    forall id ensures SomeExcludes(cs, id) <==> id == note {
      if id == note { assert About(NOTE_SAID, id); }
    }
    assert !SomeRequires(cs, note);
    SeenHolds(cs);
    DistinctSize(Seen(cs));
    hide SomeExcludes;
    hide SomeRequires;
    hide Seen;
    assert Included(cs) == (set id | id in Seen(cs)) - {note};
  }

  /** Two packs that each take one whole document of a path of its own. */
  lemma {:induction false} FiveItems(items: seq<Item>, store: string, p: Pack, f: Fetch, q: Pack, g: Fetch, id: string, md: S.Markdown)
    requires items == [Check(p), Take(f), Check(q), Take(g), Guide(id, md)]
    requires Checked(p) && Checked(q) && IsMarkdown(f.selection.file) && IsMarkdown(g.selection.file)
    requires f.allowed && Identified(store, f) && Readable(f.source) && f.selection.headings == []
    requires g.allowed && Identified(store, g) && Readable(g.source) && g.selection.headings == []
    requires f.source.file != g.source.file
    ensures WellFormed(items) && AllSound(store, items) && OneContent(items)
  {
    assert Selectors(f.selection) == [] && Selectors(g.selection) == [];
    hide Identified;
    hide Readable;
    hide Checked;
    hide IsMarkdown;
    hide Selectors;
    forall item | item in items ensures Sound(store, item) {}
  }

  lemma {:induction false} TwoAreSound()
    ensures var items := Items([LARGE, SMALL]);
            WellFormed(items) && AllSound("store", items) && Counted(items)
  {
    var items := Items([LARGE, SMALL]);
    TwoItems();
    hide Items;
    assert IsMarkdown(BOOK) && IsMarkdown(NOTE);
    FiveItems(items, "store", LARGE, LARGE.fetches[0], SMALL, SMALL.fetches[0], "small", SMALL.guidance);
    hide WellFormed;
    hide AllSound;
    hide OneContent;
    FreeDocuments(items);
    hide Documents;
    hide TotalBytes;
  }

  lemma {:induction false} TwoItems()
    ensures Items([LARGE, SMALL])
         == [Check(LARGE), Take(LARGE.fetches[0]), Check(SMALL), Take(SMALL.fetches[0]), Guide("small", SMALL.guidance)]
  {
    ItemsOfOne("large", Book(499), Prioritized, true);
    ItemsOfOne("small", SMALL.fetches[0].source, Excluded, false);
    assert [LARGE, SMALL][..1] == [LARGE] && [LARGE][..0] == [];
    assert Items([LARGE]) == [] + ItemsOf(LARGE);
    assert Items([LARGE, SMALL]) == Items([LARGE]) + ItemsOf(SMALL);
    hide *;
  }

  lemma {:induction false} FreeDocuments(items: seq<Item>)
    requires forall item :: item in items && item.Take? ==> item.fetch.source.bytes == 0
    ensures TotalBytes(Documents(items)) == 0
  {
    DocumentsHold(items);
    hide Documents;
    NoBytes(Documents(items));
  }

  lemma {:induction false} NoBytes(documents: seq<Document>)
    requires forall d :: d in documents ==> d.bytes == 0
    ensures TotalBytes(documents) == 0
  {
    if documents == [] {
    } else {
      assert documents[|documents| - 1] in documents;
      NoBytes(documents[..|documents| - 1]);
    }
  }

  lemma {:induction false} LastOfTwo(store: string, x: Pack, y: Pack)
    requires WellFormed(Items([x, y])) && IsAdmissible(store, [x, y]) && Selects(x) && Selects(y)
    ensures var selected := |Seen(Selected(Recipe([x, y])))|;
            && (Compiles(store, [x, y]) <==> selected + Guidance([x]) <= MAX_SECTIONS)
            && (Compiles(store, [y, x]) <==> selected + Guidance([y]) <= MAX_SECTIONS)
  {
    hide *;
    var (ps, qs) := ([x, y], [y, x]);
    assert ps[..1] == [x] && ps[2..] == [] && qs[..1] == [y] && qs[2..] == [];
    assert multiset(ps) == multiset(qs);
    CrowdedInOrder(store, ps, ps, 1);
    CrowdedInOrder(store, ps, qs, 1);
  }

  /** The large pack first and then the small one compile; the small one first and then the large one do
      not: its guidance is then counted before the last selected section. */
  lemma {:induction false} PackOrderMatters()
    ensures Compiles("store", [LARGE, SMALL]) && !Compiles("store", [SMALL, LARGE])
  {
    TwoAreSound();
    TwoSections();
    TwoFacts();
    AdmissibleByDefinition("store", [LARGE, SMALL]);
    hide *;
    LastOfTwo("store", LARGE, SMALL);
  }

  lemma {:induction false} AdmissibleByDefinition(store: string, ps: seq<Pack>)
    requires store != "" && AllSound(store, Items(ps)) && Counted(Items(ps))
    requires !Clash(Recipe(ps)) && 0 < |Included(Recipe(ps))| <= MAX_SECTIONS
    ensures IsAdmissible(store, ps)
  {
  }
}

/** The order of the selections and the merge (server/agent-context-pack-compiler.ts): what a section
    carries never depends on it, and whether the merge is accepted depends on it exactly when guidance
    can push a mergeable set of selections over the section limit. */
module ContextOrder {
  import opened Options
  import opened ContextMerge
  import opened Permutations

  lemma {:induction false} CoherentWhateverTheOrder(cs: seq<Contribution>, ds: seq<Contribution>)
    requires Coherent(cs) && multiset(cs) == multiset(ds)
    ensures Coherent(ds)
  {
    SameMembers(cs, ds);
    forall i | 0 <= i < |ds| ensures !(ds[i].required && ds[i].excluded)
        && (ds[i].guidance ==> ds[i].required && ds[i].priority == GUIDANCE_PRIORITY) {
      assert ds[i] in cs;
    }
    forall i, j | 0 <= i < j < |ds| && IdOf(ds[i].section) == IdOf(ds[j].section)
      ensures ds[i].section == ds[j].section && !ds[i].guidance && !ds[j].guidance
    {
      if ds[i] == ds[j] {
        TwoOf(ds, i, j);
        var a, b := Twice(cs, ds[i]);
      } else {
        assert ds[i] in cs && ds[j] in cs;
        var a :| 0 <= a < |cs| && cs[a] == ds[i];
        var b :| 0 <= b < |cs| && cs[b] == ds[j];
      }
    }
  }

  lemma {:induction false} SeenGrows(cs: seq<Contribution>, n: nat)
    requires n <= |cs|
    ensures |Seen(cs[..n])| <= |Seen(cs)|
    decreases |cs|
  {
    if n < |cs| {
      SeenGrows(cs[..|cs| - 1], n);
      assert cs[..|cs| - 1][..n] == cs[..n];
    } else {
      assert cs[..n] == cs;
    }
  }

  /** Within the limit nothing is crowded; without guidance only what exceeds it is. */
  lemma {:induction false} CrowdedBySize(cs: seq<Contribution>)
    ensures |Seen(cs)| <= MAX_SECTIONS ==> !Crowded(cs)
    ensures (forall c :: c in cs ==> !c.guidance) ==> (Crowded(cs) <==> |Seen(cs)| > MAX_SECTIONS)
  {
    forall n | 0 < n <= |cs| ensures |Seen(cs[..n])| <= |Seen(cs)| { SeenGrows(cs, n); }
    if cs != [] && !cs[|cs| - 1].guidance && |Seen(cs)| > MAX_SECTIONS {
      assert cs[..|cs|] == cs && CrowdedAt(cs, |cs|);
    }
  }

  lemma {:induction false} SameSeen(cs: seq<Contribution>, ds: seq<Contribution>)
    requires multiset(cs) == multiset(ds)
    ensures |Seen(cs)| == |Seen(ds)| && forall id :: id in Seen(cs) <==> id in Seen(ds)
  {
    SameMembers(cs, ds);
    SeenHolds(cs);
    SeenHolds(ds);
    hide Seen;
    hide About;
    DistinctSize(Seen(cs));
    DistinctSize(Seen(ds));
    assert (set id | id in Seen(cs)) == (set id | id in Seen(ds));
  }

  lemma {:induction false} SameSums(cs: seq<Contribution>, ds: seq<Contribution>, id: Id)
    requires forall c :: c in cs <==> c in ds
    ensures SomeRequires(cs, id) == SomeRequires(ds, id) && SomeExcludes(cs, id) == SomeExcludes(ds, id)
    ensures Top(cs, id) == Top(ds, id)
  {
    hide About;
    assert Top(cs, id) <= Top(ds, id) && Top(ds, id) <= Top(cs, id);
  }

  lemma {:induction false} SameTotals(cs: seq<Contribution>, ds: seq<Contribution>)
    requires forall c :: c in cs <==> c in ds
    ensures forall id, k :: Totals(cs, id, k) <==> Totals(ds, id, k)
    ensures Clash(cs) <==> Clash(ds)
  {
    forall id ensures
        && SomeRequires(cs, id) == SomeRequires(ds, id) && SomeExcludes(cs, id) == SomeExcludes(ds, id)
        && Top(cs, id) == Top(ds, id) {
      SameSums(cs, ds, id);
    }
    hide SomeRequires;
    hide SomeExcludes;
    hide Top;
  }

  lemma {:induction false} TalliesHold(cs: seq<Contribution>, k: Candidates, c: Candidate)
    requires Coherent(cs) && Tallies(cs, k)
    ensures c in k <==> IdOf(c.section) in Seen(cs) && Totals(cs, IdOf(c.section), c)
  {
    if IdOf(c.section) in Seen(cs) && Totals(cs, IdOf(c.section), c) {
      var p :| 0 <= p < |Seen(cs)| && Seen(cs)[p] == IdOf(c.section);
      assert Totals(cs, Seen(cs)[p], k[p]);
      SeenHolds(cs);
      var d :| d in cs && About(d, IdOf(c.section));
      assert k[p] == c;
    }
  }

  // ---------------------------------------------------------------- selections and guidance apart

  /** What the selections say, without the guidance. */
  function Selected(cs: seq<Contribution>): seq<Contribution> {
    if cs == [] then []
    else Selected(cs[..|cs| - 1]) + if cs[|cs| - 1].guidance then [] else [cs[|cs| - 1]]
  }

  function Guides(cs: seq<Contribution>): seq<Contribution> {
    if cs == [] then []
    else Guides(cs[..|cs| - 1]) + if cs[|cs| - 1].guidance then [cs[|cs| - 1]] else []
  }

  lemma {:induction false} PartsHold(cs: seq<Contribution>)
    ensures forall c :: c in Selected(cs) <==> c in cs && !c.guidance
    ensures forall c :: c in Guides(cs) <==> c in cs && c.guidance
  {
    if cs == [] {
    } else {
      var init := cs[..|cs| - 1];
      PartsHold(init);
      assert cs == init + [cs[|cs| - 1]];
    }
  }

  lemma {:induction false} PartsMakeTheWhole(cs: seq<Contribution>)
    ensures multiset(Selected(cs)) + multiset(Guides(cs)) == multiset(cs)
  {
    if cs == [] {
    } else {
      var init := cs[..|cs| - 1];
      PartsMakeTheWhole(init);
      assert cs == init + [cs[|cs| - 1]];
    }
  }

  lemma {:induction false} OnlyGuides(cs: seq<Contribution>)
    requires forall c :: c in cs ==> c.guidance
    ensures Selected(cs) == [] && Guides(cs) == cs
  {
    if cs == [] {
    } else {
      var (init, c) := (cs[..|cs| - 1], cs[|cs| - 1]);
      OnlyGuides(init);
      assert c in cs && cs == init + [c];
      assert Guides(cs) == Guides(init) + [c];
    }
  }

  lemma {:induction false} PartsAppend(a: seq<Contribution>, b: seq<Contribution>)
    ensures Selected(a + b) == Selected(a) + Selected(b) && Guides(a + b) == Guides(a) + Guides(b)
    decreases |b|
  {
    if b == [] {
      assert a + b == a;
    } else {
      assert (a + b)[..|a + b| - 1] == a + b[..|b| - 1];
      PartsAppend(a, b[..|b| - 1]);
    }
  }

  /** Every guidance section counts once more beside the selected ones. */
  lemma {:induction false} SeenInParts(cs: seq<Contribution>)
    requires Coherent(cs)
    ensures |Seen(cs)| == |Seen(Selected(cs))| + |Guides(cs)|
  {
    if cs == [] {
    } else {
      CoherentInit(cs);
      SeenInParts(cs[..|cs| - 1]);
      if cs[|cs| - 1].guidance {
        GuidanceIsNew(cs);
        assert Selected(cs) == Selected(cs[..|cs| - 1]);
      } else {
        assert Guides(cs) == Guides(cs[..|cs| - 1]);
        SeenSelected(cs);
        SeenOneMore(Selected(cs[..|cs| - 1]), cs[|cs| - 1]);
      }
      hide Coherent;
    }
  }

  lemma {:induction false} SeenOneMore(cs: seq<Contribution>, c: Contribution)
    ensures var id := IdOf(c.section);
            Seen(cs + [c]) == if id in Seen(cs) then Seen(cs) else Seen(cs) + [id]
  {
    assert (cs + [c])[..|cs|] == cs;
  }

  lemma {:induction false} GuidanceIsNew(cs: seq<Contribution>)
    requires cs != [] && Coherent(cs) && cs[|cs| - 1].guidance
    ensures IdOf(cs[|cs| - 1].section) !in Seen(cs[..|cs| - 1])
  {
    if IdOf(cs[|cs| - 1].section) in Seen(cs[..|cs| - 1]) { NoGuidanceAgain(cs); }
  }

  /** A selected section was seen before exactly if it was selected before. */
  lemma {:induction false} SeenSelected(cs: seq<Contribution>)
    requires cs != [] && Coherent(cs) && !cs[|cs| - 1].guidance
    ensures var (init, id) := (cs[..|cs| - 1], IdOf(cs[|cs| - 1].section));
            id in Seen(init) <==> id in Seen(Selected(init))
  {
    var init := cs[..|cs| - 1];
    var id := IdOf(cs[|cs| - 1].section);
    SeenHolds(init);
    PartsHold(init);
    SeenHolds(Selected(init));
    forall d | d in init && About(d, id) ensures !d.guidance {
      var i :| 0 <= i < |init| && init[i] == d;
      assert cs[i] == d;
    }
  }

  /** The limit is last looked at after the last selected section. */
  lemma {:induction false} CrowdedAtTheLast(a: seq<Contribution>, b: seq<Contribution>)
    requires a != [] && !a[|a| - 1].guidance && forall c :: c in b ==> c.guidance
    ensures Crowded(a + b) <==> |Seen(a)| > MAX_SECTIONS
  {
    var cs := a + b;
    assert cs[..|a|] == a && cs[|a| - 1] == a[|a| - 1];
    if |Seen(a)| > MAX_SECTIONS { assert CrowdedAt(cs, |a|); }
    forall n | |a| < n <= |cs| ensures !CrowdedAt(cs, n) {
      assert cs[n - 1] == b[n - 1 - |a|] && cs[n - 1] in b;
    }
    forall n | 0 < n <= |a| && CrowdedAt(cs, n) ensures |Seen(a)| > MAX_SECTIONS {
      assert cs[..n] == a[..n];
      SeenGrows(a, n);
    }
  }

  lemma {:induction false} NothingSelectedIsNotCrowded(cs: seq<Contribution>)
    requires Selected(cs) == []
    ensures !Crowded(cs)
  {
    PartsHold(cs);
    forall n | 0 < n <= |cs| ensures !CrowdedAt(cs, n) { assert cs[n - 1] in cs; }
  }

  /** Selected sections come to more than the limit: then so does every order. */
  lemma {:induction false} TooManySelected(cs: seq<Contribution>)
    requires Coherent(cs) && |Seen(Selected(cs))| > MAX_SECTIONS
    ensures Crowded(cs)
  {
    SomethingIsSeen(Selected(cs));
    hide *;
    var n := LastSelected(cs);
    var a, b := cs[..n], cs[n..];
    assert cs == a + b;
    PartsAppend(a, b);
    OnlyGuides(b);
    assert Selected(cs) == Selected(a);
    CoherentPrefix(cs, n);
    SeenInParts(a);
    CrowdedAtTheLast(a, b);
  }

  lemma {:induction false} LastSelected(cs: seq<Contribution>) returns (n: nat)
    requires Selected(cs) != []
    ensures 0 < n <= |cs| && !cs[n - 1].guidance && forall c :: c in cs[n..] ==> c.guidance
    decreases |cs|
  {
    if !cs[|cs| - 1].guidance {
      n := |cs|;
    } else {
      n := LastSelected(cs[..|cs| - 1]);
      assert cs[n..] == cs[..|cs| - 1][n..] + [cs[|cs| - 1]];
    }
  }

  lemma {:induction false} CoherentPrefix(cs: seq<Contribution>, n: nat)
    requires Coherent(cs) && n <= |cs|
    ensures Coherent(cs[..n])
  {
  }

  // ---------------------------------------------------------------- exactly when the order is free

  lemma {:induction false} SameParts(cs: seq<Contribution>, ds: seq<Contribution>)
    requires Coherent(cs) && multiset(cs) == multiset(ds)
    ensures Coherent(ds) && |Seen(ds)| == |Seen(cs)| && (Clash(ds) <==> Clash(cs))
    ensures |Seen(Selected(ds))| == |Seen(Selected(cs))| && |Guides(ds)| == |Guides(cs)|
    ensures Selected(ds) == [] <==> Selected(cs) == []
  {
    CoherentWhateverTheOrder(cs, ds);
    SameMembers(cs, ds);
    SameTotals(cs, ds);
    SameSeen(cs, ds);
    SelectedAlike(cs, ds);
    SeenInParts(cs);
    SeenInParts(ds);
  }

  lemma {:induction false} SelectedAlike(cs: seq<Contribution>, ds: seq<Contribution>)
    requires multiset(cs) == multiset(ds)
    ensures |Seen(Selected(ds))| == |Seen(Selected(cs))| && (Selected(ds) == [] <==> Selected(cs) == [])
  {
    PartsHold(cs);
    PartsHold(ds);
    forall c ensures multiset(Selected(cs))[c] == multiset(Selected(ds))[c] {
      PartCount(cs, c);
      PartCount(ds, c);
    }
    assert multiset(Selected(cs)) == multiset(Selected(ds));
    SameSeen(Selected(cs), Selected(ds));
    assert |Selected(cs)| == |multiset(Selected(cs))| && |Selected(ds)| == |multiset(Selected(ds))|;
  }

  lemma {:induction false} PartCount(cs: seq<Contribution>, c: Contribution)
    ensures multiset(Selected(cs))[c] == if c.guidance then 0 else multiset(cs)[c]
  {
    PartsHold(cs);
    PartsMakeTheWhole(cs);
    assert multiset(cs)[c] == multiset(Selected(cs))[c] + multiset(Guides(cs))[c];
    assert c in Selected(cs) <==> c in multiset(Selected(cs));
    assert c in Guides(cs) <==> c in multiset(Guides(cs));
  }

  /** Every order of these contributions is accepted, or none is. */
  ghost predicate IsOrderFree(cs: seq<Contribution>) {
    forall ds :: multiset(ds) == multiset(cs) ==> (Merge([], ds).Ok? <==> Merge([], cs).Ok?)
  }

  /** What all orders have in common: a clash, everything within the limit, nothing selected, or too
      much selected already. */
  ghost predicate OrderCannotMatter(cs: seq<Contribution>) {
    var selected := |Seen(Selected(cs))|;
    Clash(cs) || |Seen(cs)| <= MAX_SECTIONS || selected == 0 || selected > MAX_SECTIONS
  }

  lemma {:induction false} SameAcceptance(cs: seq<Contribution>, ds: seq<Contribution>)
    requires Coherent(cs) && multiset(cs) == multiset(ds) && OrderCannotMatter(cs)
    ensures Merge([], cs).Ok? <==> Merge([], ds).Ok?
  {
    SameParts(cs, ds);
    MergeIsExact(cs);
    MergeIsExact(ds);
    SettledCrowding(cs);
    SettledCrowding(ds);
    hide *;
  }

  lemma {:induction false} SomethingIsSeen(cs: seq<Contribution>)
    ensures Seen(cs) == [] <==> cs == []
  {
  }

  lemma {:induction false} SettledCrowding(cs: seq<Contribution>)
    requires Coherent(cs)
    ensures |Seen(cs)| <= MAX_SECTIONS || |Seen(Selected(cs))| == 0 ==> !Crowded(cs)
    ensures |Seen(Selected(cs))| > MAX_SECTIONS ==> Crowded(cs)
  {
    CrowdedBySize(cs);
    if |Seen(Selected(cs))| == 0 {
      SomethingIsSeen(Selected(cs));
      NothingSelectedIsNotCrowded(cs);
    }
    if |Seen(Selected(cs))| > MAX_SECTIONS { TooManySelected(cs); }
  }

  /** The two extreme orders: guidance last is accepted, guidance first is refused. */
  lemma {:induction false} TwoOrders(cs: seq<Contribution>)
    requires Coherent(cs) && !OrderCannotMatter(cs)
    ensures var (first, last) := (Guides(cs) + Selected(cs), Selected(cs) + Guides(cs));
            && multiset(first) == multiset(cs) == multiset(last)
            && Merge([], last).Ok? && Merge([], first) == Err(TooManySections)
  {
    var selected, guides := Selected(cs), Guides(cs);
    var first, last := guides + selected, selected + guides;
    PartsMakeTheWhole(cs);
    PartsHold(cs);
    SomethingIsSeen(selected);
    GuidanceLast(cs, selected, guides);
    GuidanceFirst(cs, selected, guides);
    hide *;
  }

  lemma {:induction false} GuidanceLast(cs: seq<Contribution>, selected: seq<Contribution>, guides: seq<Contribution>)
    requires Coherent(cs) && !Clash(cs) && multiset(selected + guides) == multiset(cs)
    requires selected != [] && (forall c :: c in selected ==> !c.guidance) && forall c :: c in guides ==> c.guidance
    requires |Seen(selected)| <= MAX_SECTIONS
    ensures Merge([], selected + guides).Ok?
  {
    hide *;
    assert selected[|selected| - 1] in selected;
    SameParts(cs, selected + guides);
    CrowdedAtTheLast(selected, guides);
    MergeIsExact(selected + guides);
  }

  lemma {:induction false} GuidanceFirst(cs: seq<Contribution>, selected: seq<Contribution>, guides: seq<Contribution>)
    requires Coherent(cs) && !Clash(cs) && multiset(guides + selected) == multiset(cs)
    requires selected != [] && forall c :: c in selected ==> !c.guidance
    requires |Seen(cs)| > MAX_SECTIONS
    ensures Merge([], guides + selected) == Err(TooManySections)
  {
    hide *;
    var first := guides + selected;
    assert selected[|selected| - 1] in selected && first[|first| - 1] == selected[|selected| - 1];
    SameParts(cs, first);
    assert first + [] == first;
    CrowdedAtTheLast(first, []);
    MergeIsExact(first);
    var r := Merge([], first);
    assert r.Err? && r != Err(RequiredIsExcluded);
    assert r.error == RequiredIsExcluded || r.error == TooManySections;
  }

  /** The order of the selections never decides whether the merge is accepted if and only if there is a
      clash, everything fits the limit, nothing is selected, or what is selected alone exceeds it. */
  lemma {:induction false} MergeIsOrderFree(cs: seq<Contribution>)
    requires Coherent(cs)
    ensures IsOrderFree(cs) <==> OrderCannotMatter(cs)
  {
    if OrderCannotMatter(cs) {
      forall ds | multiset(ds) == multiset(cs) ensures Merge([], ds).Ok? <==> Merge([], cs).Ok? {
        SameAcceptance(cs, ds);
      }
    } else {
      TwoOrders(cs);
    }
    hide OrderCannotMatter;
    hide Merge;
    hide Selected;
    hide Guides;
  }

  /** Whatever the order, an accepted merge has the same candidates, each carrying the same. */
  lemma {:induction false} MergeCarriesTheSame(cs: seq<Contribution>, ds: seq<Contribution>)
    requires Coherent(cs) && multiset(cs) == multiset(ds)
    requires Merge([], cs).Ok? && Merge([], ds).Ok?
    ensures multiset(Merge([], cs).value) == multiset(Merge([], ds).value)
  {
    CoherentWhateverTheOrder(cs, ds);
    MergeIsExact(cs);
    MergeIsExact(ds);
    SameMembers(cs, ds);
    SameTotals(cs, ds);
    SameSeen(cs, ds);
    var k, l := Merge([], cs).value, Merge([], ds).value;
    hide Merge;
    hide Clash;
    hide Crowded;
    forall c ensures c in k <==> c in l {
      TalliesHold(cs, k, c);
      TalliesHold(ds, l, c);
    }
    TalliesDistinct(cs, k);
    TalliesDistinct(ds, l);
    hide *;
    DistinctMembers(k, l);
  }

  lemma {:induction false} TalliesDistinct(cs: seq<Contribution>, k: Candidates)
    requires Tallies(cs, k)
    ensures forall p, q :: 0 <= p < q < |k| ==> k[p] != k[q]
  {
    SeenHolds(cs);
    hide Seen;
    forall p, q | 0 <= p < q < |k| ensures k[p] != k[q] {
      assert Totals(cs, Seen(cs)[p], k[p]) && Totals(cs, Seen(cs)[q], k[q]);
    }
  }

  // ---------------------------------------------------------------- an input where it matters

  const PART := Sections.Part("a.md", "a.md")
  const GUIDE := Sections.Part("g", "g")

  function Nth(file: Sections.Part, i: nat, guidance: bool): Contribution {
    Contribution(Sections.Section(file, i, "", []), guidance, if guidance then GUIDANCE_PRIORITY else 0, false, guidance)
  }

  /** The first n sections of one document. */
  function Document(n: nat): (r: seq<Contribution>)
    ensures |r| == n && forall i :: 0 <= i < n ==> r[i] == Nth(PART, i, false)
  {
    if n == 0 then [] else Document(n - 1) + [Nth(PART, n - 1, false)]
  }

  lemma {:induction false} DocumentSeen(n: nat)
    ensures |Seen(Document(n))| == n && forall id :: id in Seen(Document(n)) ==> id.file == PART && id.index < n
  {
    if n == 0 {
    } else {
      DocumentSeen(n - 1);
      assert Document(n)[..n - 1] == Document(n - 1);
    }
  }

  lemma {:induction false} DocumentSelected(n: nat)
    ensures Selected(Document(n)) == Document(n) && Guides(Document(n)) == []
  {
    if n == 0 {
    } else {
      DocumentSelected(n - 1);
      assert Document(n)[..n - 1] == Document(n - 1);
    }
  }

  lemma {:induction false} DocumentIsCoherent(cs: seq<Contribution>)
    requires |cs| == MAX_SECTIONS + 1 && cs[MAX_SECTIONS] == Nth(GUIDE, 0, true)
    requires forall i :: 0 <= i < MAX_SECTIONS ==> cs[i] == Nth(PART, i, false)
    ensures Coherent(cs) && !Clash(cs)
  {
    forall c | c in cs ensures !c.excluded {
      var i :| 0 <= i < |cs| && cs[i] == c;
    }
  }

  /** In the merge 500 sections of a document and then one of guidance are accepted; the guidance first and
      then the same 500 sections are not.  (If none is excluded both are too many at the hand-over.) */
  lemma {:induction false} GuidanceFirstIsRefused()
    ensures var (document, guide) := (Document(MAX_SECTIONS), [Nth(GUIDE, 0, true)]);
            && multiset(document + guide) == multiset(guide + document)
            && Merge([], document + guide).Ok? && Merge([], guide + document) == Err(TooManySections)
  {
    var document, guide := Document(MAX_SECTIONS), [Nth(GUIDE, 0, true)];
    var cs := document + guide;
    DocumentSeen(MAX_SECTIONS);
    DocumentSelected(MAX_SECTIONS);
    PartsAppend(document, guide);
    assert guide[..0] == [];
    assert Selected(guide) == [] && Guides(guide) == guide;
    assert Selected(cs) == document && Guides(cs) == guide;
    DocumentIsCoherent(cs);
    SeenInParts(cs);
    assert !OrderCannotMatter(cs);
    hide *;
    TwoOrders(cs);
  }
}

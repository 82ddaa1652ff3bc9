/** The composition of packs (server/agent-context-pack-compiler.ts, `compileContextPacks`), said of the
    packs, their selections and their documents themselves. */
module PackSteps {
  import opened Options
  import opened ContextPacks
  import opened ContextRecipes
  import opened ReadingOrder
  import S = ContextSections
  import M = ContextMerge

  // ---------------------------------------------------------------- the steps

  /** A pack is checked, then its selections are taken in their order, then its guidance unless it is blank. */
  lemma {:induction false} StepsOfAPack(p: Pack)
    ensures var steps := ItemsOf(p);
            var n := |p.fetches|;
            && |steps| == n + (if p.guidanceBlank then 1 else 2)
            && steps[0] == Check(p)
            && (forall i :: 0 <= i < n ==> steps[i + 1] == Take(p.fetches[i]))
            && (!p.guidanceBlank ==> steps[n + 1] == Guide(p.pin.id, p.guidance))
  {
    TakesAreTheFetches(p.fetches);
  }

  lemma {:induction false} TakesAreTheFetches(fetches: seq<Fetch>)
    ensures |Takes(fetches)| == |fetches|
    ensures forall i :: 0 <= i < |fetches| ==> Takes(fetches)[i] == Take(fetches[i])
  {
    if fetches != [] { TakesAreTheFetches(fetches[..|fetches| - 1]); }
  }

  /** The packs are taken one after the other. */
  lemma {:induction false} StepsOfPacks(packs: seq<Pack>, p: Pack)
    ensures Items([]) == [] && Items(packs + [p]) == Items(packs) + ItemsOf(p)
  {
    assert (packs + [p])[..|packs|] == packs;
  }

  lemma {:induction false} StepsAre(packs: seq<Pack>, item: Item)
    ensures item in Items(packs) <==> exists p :: p in packs && item in ItemsOf(p)
  {
    if packs != [] {
      StepsAre(packs[..|packs| - 1], item);
      assert packs == packs[..|packs| - 1] + [packs[|packs| - 1]];
      hide ItemsOf;
    }
  }

  lemma {:induction false} StepIs(p: Pack, item: Item)
    ensures item in ItemsOf(p) <==>
              || item == Check(p) || (item.Take? && item.fetch in p.fetches)
              || (!p.guidanceBlank && item == Guide(p.pin.id, p.guidance))
  {
    StepsOfAPack(p);
    hide ItemsOf;
    var steps := ItemsOf(p);
    if item in steps {
      var k :| 0 <= k < |steps| && steps[k] == item;
      if 0 < k <= |p.fetches| { assert item == Take(p.fetches[k - 1]) && p.fetches[k - 1] in p.fetches; }
    }
    if item == Check(p) { assert steps[0] == item; }
    if item.Take? && item.fetch in p.fetches {
      var i :| 0 <= i < |p.fetches| && p.fetches[i] == item.fetch;
      assert steps[i + 1] == item;
    }
    if !p.guidanceBlank && item == Guide(p.pin.id, p.guidance) { assert steps[|p.fetches| + 1] == item; }
  }

  // ---------------------------------------------------------------- the documents

  /** Some selection of some pack read this document. */
  ghost predicate Reads(packs: seq<Pack>, d: Document) {
    exists p, f :: p in packs && f in p.fetches && f.source == d
  }

  /** The documents that count are those that were read, each once. */
  lemma {:induction false} DocumentsAreRead(packs: seq<Pack>, d: Document)
    ensures d in Documents(Items(packs)) <==> Reads(packs, d)
  {
    var items := Items(packs);
    DocumentsHold(items);
    hide Items;
    hide Documents;
    if item :| item in items && item.Take? && item.fetch.source == d {
      StepsAre(packs, item);
      var p :| p in packs && item in ItemsOf(p);
      StepIs(p, item);
      assert item.fetch in p.fetches;
    }
    if p, f :| p in packs && f in p.fetches && f.source == d {
      StepIs(p, Take(f));
      StepsAre(packs, Take(f));
    }
  }

  lemma {:induction false} DocumentsAreDistinct(items: seq<Item>)
    ensures forall i, j :: 0 <= i < j < |Documents(items)| ==> Documents(items)[i] != Documents(items)[j]
  {
    if items != [] { DocumentsAreDistinct(items[..|items| - 1]); }
  }

  /** They stand in the order of their first use. */
  lemma {:induction false} DocumentsInOrder(items: seq<Item>, p: nat, q: nat) returns (i: nat)
    requires p < q < |Documents(items)|
    ensures i < |items| && items[i].Take? && items[i].fetch.source == Documents(items)[p]
    ensures forall j :: 0 <= j <= i ==> !(items[j].Take? && items[j].fetch.source == Documents(items)[q])
  {
    var init := items[..|items| - 1];
    DocumentsHold(init);
    DocumentsAreDistinct(items);
    if q < |Documents(init)| {
      i := DocumentsInOrder(init, p, q);
      assert forall j :: 0 <= j <= i ==> items[j] == init[j];
    } else {
      var d := Documents(items)[p];
      assert d in Documents(init) by { assert Documents(init)[p] == d; }
      var item :| item in init && item.Take? && item.fetch.source == d;
      i :| 0 <= i < |init| && init[i] == item;
      forall j | 0 <= j <= i ensures !(items[j].Take? && items[j].fetch.source == Documents(items)[q]) {
        assert items[j] == init[j] && init[j] in init;
      }
    }
  }

  /** Their bytes add up. */
  lemma {:induction false} BytesAddUp(a: seq<Document>, b: seq<Document>, d: Document)
    ensures TotalBytes([]) == 0 && TotalBytes([d]) == d.bytes && TotalBytes(a + b) == TotalBytes(a) + TotalBytes(b)
    decreases |b|
  {
    assert [d][..0] == [];
    if b == [] {
      assert a + b == a;
    } else {
      assert (a + b)[..|a + b| - 1] == a + b[..|b| - 1];
      BytesAddUp(a, b[..|b| - 1], d);
    }
  }

  // ---------------------------------------------------------------- what is said

  /** A selection says the same of each section it selects, in reading order, and nothing of the others. */
  lemma {:induction false} SelectionSays(s: Selection, a: seq<S.Section>, b: seq<S.Section>, section: S.Section)
    ensures Said(s, a + b) == Said(s, a) + Said(s, b)
    ensures var selects := s.headings == [] || exists h :: h in s.headings && Begins(section.headingPath, [s.file] + h);
            Said(s, [section]) == if !selects then [] else
              [M.Contribution(section, s.mode == Required, s.priority, s.mode == Excluded, false)]
    decreases |b|
  {
    if b == [] {
      assert a + b == a;
      assert [section][..0] == [];
      SaidIsTheSelection(s, [section], M.Contribution(section, s.mode.Required?, s.priority, s.mode.Excluded?, false));
      assert forall path, prefix :: S.Matches(path, prefix) <==> Begins(path, prefix);
      hide S.Matches;
      hide Begins;
    } else {
      assert (a + b)[..|a + b| - 1] == a + b[..|b| - 1];
      SelectionSays(s, a, b[..|b| - 1], section);
      hide Begins;
      hide S.Selected;
      hide Selectors;
    }
  }

  /** A heading path begins with these titles, whatever the case. */
  ghost predicate Begins(path: S.Path, titles: S.Path) {
    |titles| <= |path| && forall i :: 0 <= i < |titles| ==> path[i].folded == titles[i].folded
  }

  /** Guidance is a document of its own name, all of whose sections are required with priority 100. */
  lemma {:induction false} GuidanceSays(id: string, sections: seq<S.Section>)
    ensures GuidanceFile(id).text == "context-pack:" + id + "/retrieval-guidance"
    ensures GuidanceFile(id).folded == GuidanceFile(id).text
    ensures |Guiding(sections)| == |sections|
    ensures forall i :: 0 <= i < |sections| ==>
              Guiding(sections)[i] == M.Contribution(sections[i], true, 100, false, true)
  {
    GuidingHolds(sections);
  }

  /** What is said comes step by step: of a selection the outline of its document, of guidance its own. */
  lemma {:induction false} SaidStepByStep(items: seq<Item>, p: Pack, f: Fetch, id: string, md: S.Markdown)
    ensures AllContributions([]) == [] && AllContributions(items + [Check(p)]) == AllContributions(items)
    ensures AllContributions(items + [Take(f)])
         == AllContributions(items) + Said(f.selection, S.Outline(f.source.file, f.source.markdown))
    ensures AllContributions(items + [Guide(id, md)])
         == AllContributions(items) + Guiding(S.Outline(GuidanceFile(id), md))
  {
    assert (items + [Check(p)])[..|items|] == items;
    assert (items + [Take(f)])[..|items|] == items;
    assert (items + [Guide(id, md)])[..|items|] == items;
    hide Said;
    hide Guiding;
    hide S.Outline;
  }

  // ---------------------------------------------------------------- what a recipe needs

  /** A selection whose document may be used. */
  ghost predicate FetchHolds(store: string, f: Fetch) {
    && f.allowed && f.source.storeId == store && f.source.file == f.selection.file
    && f.source.revision == f.selection.revision && f.source.bytes <= 65536 && !f.source.hasNul
    && forall h :: h in f.selection.headings ==>
         && NamesSome([f.selection.file] + h, f.source.file, f.source.markdown)
         && !NamesTwo([f.selection.file] + h, f.source.file, f.source.markdown)
  }

  /** A pack that is the pinned one, with usable selections. */
  ghost predicate PackHolds(store: string, p: Pack) {
    && !p.aborted && p.resolved.id == p.pin.id && p.resolved.revision == p.pin.revision
    && p.resolved.hash == p.pin.hash && p.digest == p.pin.hash
    && forall f :: f in p.fetches ==> FetchHolds(store, f)
  }

  /** One path is read with one revision and one content. */
  ghost predicate ReadsAlike(packs: seq<Pack>) {
    forall d, e :: Reads(packs, d) && Reads(packs, e) && d.file == e.file ==> d == e
  }

  lemma {:induction false} HeadingsAreNamed(f: Fetch)
    requires f.source.file == f.selection.file
    ensures (forall i :: 0 <= i < |Selectors(f.selection)| ==>
               S.Named(S.Entries(f.source.markdown.tree, [f.source.file]), S.Folded(Selectors(f.selection)[i])) == 1)
        <==> forall h :: h in f.selection.headings ==>
               && NamesSome([f.selection.file] + h, f.source.file, f.source.markdown)
               && !NamesTwo([f.selection.file] + h, f.source.file, f.source.markdown)
  {
    var (s, md) := (f.selection, f.source.markdown);
    forall i | 0 <= i < |s.headings|
      ensures Selectors(s)[i] == [s.file] + s.headings[i]
      ensures S.Named(S.Entries(md.tree, [f.source.file]), S.Folded(Selectors(s)[i])) == 1 <==>
                NamesSome([s.file] + s.headings[i], f.source.file, md) && !NamesTwo([s.file] + s.headings[i], f.source.file, md)
    {
      HowManyAreNamed([s.file] + s.headings[i], f.source.file, md);
    }
    hide NamesSome;
    hide NamesTwo;
    hide S.Named;
    hide S.Folded;
    hide S.Entries;
    if forall h :: h in s.headings ==>
        NamesSome([s.file] + h, f.source.file, md) && !NamesTwo([s.file] + h, f.source.file, md)
    {
      forall i | 0 <= i < |Selectors(s)| ensures s.headings[i] in s.headings {}
    }
  }

  lemma {:induction false} TakeIsSound(store: string, f: Fetch)
    ensures Sound(store, Take(f)) <==> FetchHolds(store, f)
  {
    hide Selectors;
    hide NamesSome;
    hide NamesTwo;
    hide S.Named;
    hide S.Folded;
    hide S.Entries;
    if f.source.file == f.selection.file { HeadingsAreNamed(f); }
  }

  lemma {:induction false} AllStepsAreSound(store: string, packs: seq<Pack>)
    ensures AllSound(store, Items(packs)) <==> forall p :: p in packs ==> PackHolds(store, p)
  {
    var items := Items(packs);
    hide FetchHolds;
    if AllSound(store, items) {
      forall p | p in packs ensures PackHolds(store, p) {
        StepIs(p, Check(p));
        StepsAre(packs, Check(p));
        assert Sound(store, Check(p));
        forall f | f in p.fetches ensures FetchHolds(store, f) {
          StepIs(p, Take(f));
          StepsAre(packs, Take(f));
          TakeIsSound(store, f);
          assert Sound(store, Take(f));
        }
      }
    }
    if forall p :: p in packs ==> PackHolds(store, p) {
      forall item | item in items ensures Sound(store, item) {
        StepsAre(packs, item);
        var p :| p in packs && item in ItemsOf(p);
        StepIs(p, item);
        assert PackHolds(store, p);
        if item.Take? { TakeIsSound(store, item.fetch); }
      }
    }
  }

  lemma {:induction false} OneContentIsAlike(packs: seq<Pack>)
    ensures OneContent(Items(packs)) <==> ReadsAlike(packs)
  {
    var items := Items(packs);
    forall d ensures d in Documents(items) <==> Reads(packs, d) { DocumentsAreRead(packs, d); }
    DocumentsHold(items);
    hide Documents;
    hide Items;
    hide Reads;
    if OneContent(items) {
      forall d, e | Reads(packs, d) && Reads(packs, e) && d.file == e.file ensures d == e {
        var a :| a in items && a.Take? && a.fetch.source == d;
        var b :| b in items && b.Take? && b.fetch.source == e;
      }
    }
    if ReadsAlike(packs) {
      forall a, b | a in items && b in items && a.Take? && b.Take? && a.fetch.source.file == b.fetch.source.file
        ensures a.fetch.source == b.fetch.source
      {
        assert a.fetch.source in Documents(items) && b.fetch.source in Documents(items);
        assert Reads(packs, a.fetch.source) && Reads(packs, b.fetch.source);
      }
    }
  }

  /** A recipe is composed exactly if each of its packs is the pinned one with usable selections, every path is
      read alike, the documents have at most 1 MiB, and what is said of the sections can be merged. */
  lemma {:induction false} RecipeNeeds(store: string, packs: seq<Pack>)
    ensures Compose(store, Items(packs)).Ok? <==>
              && (forall p :: p in packs ==> PackHolds(store, p)) && ReadsAlike(packs)
              && TotalBytes(Documents(Items(packs))) <= 1048576
              && M.Merge([], AllContributions(Items(packs))).Ok?
  {
    CompositionIsExact(store, Items(packs));
    AllStepsAreSound(store, packs);
    OneContentIsAlike(packs);
    hide Compose;
    hide AllSound;
    hide OneContent;
    hide PackHolds;
    hide ReadsAlike;
    hide Documents;
    hide TotalBytes;
    hide Items;
  }
}

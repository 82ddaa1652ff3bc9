/** Composing context packs (server/agent-context-pack-compiler.ts, `compileContextPacks`): the source
    documents of every selection are checked and counted, their sections merged.  Whoever resolves,
    authorizes and reads may refuse; digests are injective, so a document stands for its content. */
module ContextPacks {
  import opened Options
  import S = ContextSections
  import M = ContextMerge

  const MAX_DOCUMENT_BYTES: nat := 65536
  const MAX_TOTAL_BYTES: nat := 1048576

  datatype Mode = Required | Prioritized | Excluded
  datatype Selection = Selection(
    file: S.Part, revision: string, mode: Mode, headings: seq<S.Path>, priority: nat)

  /** What reading a document returned. */
  datatype Document = Document(
    storeId: string, file: S.Part, revision: string, bytes: nat, hasNul: bool, markdown: S.Markdown)

  /** `allowed` is false when authorizing, reading or the current-source check refuses. */
  datatype Fetch = Fetch(selection: Selection, allowed: bool, source: Document)
  datatype Pin = Pin(id: string, revision: nat, hash: string)

  /** What resolving a pin returned; `digest` is the digest of the definition. */
  datatype Pack = Pack(
    pin: Pin, resolved: Pin, digest: string, aborted: bool, fetches: seq<Fetch>,
    guidanceBlank: bool, guidance: S.Markdown)

  datatype Error =
    | Refused
    | PackMismatch
    | IdentityMismatch
    | InvalidSource
    | ConflictingRevisions
    | ContentChanged
    | BadHeading(heading: S.Error)
    | BadMerge(merge: M.Error)

  /** The accepted documents in the order of first use, and their bytes. */
  datatype Ledger = Ledger(documents: seq<Document>, totalBytes: nat)
  datatype Work = Work(ledger: Ledger, candidates: M.Candidates)

  const NOTHING := Work(Ledger([], 0), [])

  // ---------------------------------------------------------------- documents

  function FindDocument(documents: seq<Document>, file: S.Part): (p: nat)
    ensures p <= |documents|
    ensures p < |documents| ==> documents[p].file == file
    ensures forall q :: 0 <= q < p ==> documents[q].file != file
  {
    if documents == [] then 0 else if documents[0].file == file then 0 else 1 + FindDocument(documents[1..], file)
  }

  predicate Identified(store: string, f: Fetch) {
    f.source.file == f.selection.file && f.source.revision == f.selection.revision && f.source.storeId == store
  }

  predicate Readable(d: Document) {
    d.bytes <= MAX_DOCUMENT_BYTES && !d.hasNul
  }

  function Account(l: Ledger, store: string, f: Fetch): Result<Ledger, Error> {
    var d := f.source;
    if !Identified(store, f) then Err(IdentityMismatch)
    else if !Readable(d) then Err(InvalidSource)
    else
      var p := FindDocument(l.documents, d.file);
      if p < |l.documents| then
        if l.documents[p].revision != d.revision then Err(ConflictingRevisions)
        else if l.documents[p] != d then Err(ContentChanged)
        else Ok(l)
      else if l.totalBytes + d.bytes > MAX_TOTAL_BYTES then Err(InvalidSource)
      else Ok(Ledger(l.documents + [d], l.totalBytes + d.bytes))
  }

  // ---------------------------------------------------------------- sections

  function Selectors(s: Selection): seq<S.Path> {
    seq(|s.headings|, i requires 0 <= i < |s.headings| => [s.file] + s.headings[i])
  }

  /** What a selection says about the sections it selects. */
  function Said(s: Selection, sections: seq<S.Section>): seq<M.Contribution> {
    if sections == [] then []
    else
      var last := sections[|sections| - 1];
      Said(s, sections[..|sections| - 1])
      + if s.headings == [] || S.Selected(last.headingPath, Selectors(s))
        then [M.Contribution(last, s.mode.Required?, s.priority, s.mode.Excluded?, false)] else []
  }

  const GUIDANCE_SUFFIX := "/retrieval-guidance"

  function GuidanceFile(id: string): S.Part {
    S.Part("context-pack:" + id + GUIDANCE_SUFFIX, "context-pack:" + id + GUIDANCE_SUFFIX)
  }

  function Guiding(sections: seq<S.Section>): seq<M.Contribution> {
    if sections == [] then []
    else Guiding(sections[..|sections| - 1])
         + [M.Contribution(sections[|sections| - 1], true, M.GUIDANCE_PRIORITY, false, true)]
  }

  // ---------------------------------------------------------------- the steps of the composition

  datatype Item =
    | Check(pack: Pack)
    | Take(fetch: Fetch)
    | Guide(id: string, markdown: S.Markdown)

  predicate Checked(p: Pack) {
    !p.aborted && p.resolved == p.pin && p.digest == p.pin.hash
  }

  function Merged(w: Work, said: seq<M.Contribution>): Result<Work, Error> {
    var merged := M.Merge(w.candidates, said);
    if merged.Err? then Err(BadMerge(merged.error)) else Ok(w.(candidates := merged.value))
  }

  function Taken(w: Work, store: string, f: Fetch): Result<Work, Error> {
    if !f.allowed then Err(Refused)
    else
      var ledger := Account(w.ledger, store, f);
      if ledger.Err? then Err(ledger.error)
      else
        var sections := S.Sections(f.source.file, f.source.markdown, Selectors(f.selection));
        if sections.Err? then Err(BadHeading(sections.error))
        else Merged(Work(ledger.value, w.candidates), Said(f.selection, sections.value))
  }

  function Guided(w: Work, id: string, markdown: S.Markdown): Result<Work, Error> {
    var sections := S.Sections(GuidanceFile(id), markdown, []);
    if sections.Err? then Err(BadHeading(sections.error)) else Merged(w, Guiding(sections.value))
  }

  function Done(w: Work, store: string, item: Item): Result<Work, Error> {
    match item
    case Check(p) => if p.aborted then Err(Refused) else if !Checked(p) then Err(PackMismatch) else Ok(w)
    case Take(f) => Taken(w, store, f)
    case Guide(id, markdown) => Guided(w, id, markdown)
  }

  function Compose(store: string, items: seq<Item>): Result<Work, Error> {
    if items == [] then Ok(NOTHING)
    else
      var before := Compose(store, items[..|items| - 1]);
      if before.Err? then before else Done(before.value, store, items[|items| - 1])
  }

  function Takes(fetches: seq<Fetch>): seq<Item> {
    if fetches == [] then [] else Takes(fetches[..|fetches| - 1]) + [Take(fetches[|fetches| - 1])]
  }

  function ItemsOf(p: Pack): seq<Item> {
    [Check(p)] + Takes(p.fetches) + if p.guidanceBlank then [] else [Guide(p.pin.id, p.guidance)]
  }

  function Items(packs: seq<Pack>): seq<Item> {
    if packs == [] then [] else Items(packs[..|packs| - 1]) + ItemsOf(packs[|packs| - 1])
  }

  // ---------------------------------------------------------------- what the composition should be

  /** What one step says, taken from the whole outline of its document. */
  function Contributions(item: Item): seq<M.Contribution> {
    match item
    case Check(_) => []
    case Take(f) => Said(f.selection, S.Outline(f.source.file, f.source.markdown))
    case Guide(id, markdown) => Guiding(S.Outline(GuidanceFile(id), markdown))
  }

  function AllContributions(items: seq<Item>): seq<M.Contribution> {
    if items == [] then []
    else AllContributions(items[..|items| - 1]) + Contributions(items[|items| - 1])
  }

  /** The distinct documents in the order of first use. */
  function Documents(items: seq<Item>): seq<Document> {
    if items == [] then []
    else
      var before := Documents(items[..|items| - 1]);
      var last := items[|items| - 1];
      if last.Take? && last.fetch.source !in before then before + [last.fetch.source] else before
  }

  function TotalBytes(documents: seq<Document>): nat {
    if documents == [] then 0 else TotalBytes(documents[..|documents| - 1]) + documents[|documents| - 1].bytes
  }

  /** What every step must satisfy alone: its pack is the pinned one, its source is the selected and
      readable document, and each of its selectors names one heading. */
  ghost predicate Sound(store: string, item: Item) {
    match item
    case Check(p) => Checked(p)
    case Take(f) =>
      && f.allowed && Identified(store, f) && Readable(f.source)
      && forall i :: 0 <= i < |Selectors(f.selection)| ==>
           S.Named(S.Entries(f.source.markdown.tree, [f.source.file]), S.Folded(Selectors(f.selection)[i])) == 1
    case Guide(_, _) => true
  }

  /** One path is read with one revision and one content. */
  ghost predicate OneContent(items: seq<Item>) {
    forall a, b :: a in items && b in items && a.Take? && b.Take? && a.fetch.source.file == b.fetch.source.file
      ==> a.fetch.source == b.fetch.source
  }

  ghost predicate AllSound(store: string, items: seq<Item>) {
    forall item :: item in items ==> Sound(store, item)
  }

  ghost predicate Counted(items: seq<Item>) {
    OneContent(items) && TotalBytes(Documents(items)) <= MAX_TOTAL_BYTES
  }

  // ---------------------------------------------------------------- the composition is exact

  lemma {:induction false} MergeAppend(k: M.Candidates, a: seq<M.Contribution>, b: seq<M.Contribution>)
    ensures M.Merge(k, a + b) == if M.Merge(k, a).Err? then M.Merge(k, a) else M.Merge(M.Merge(k, a).value, b)
    decreases |b|
  {
    if b == [] {
      assert a + b == a;
    } else {
      assert (a + b)[..|a + b| - 1] == a + b[..|b| - 1];
      MergeAppend(k, a, b[..|b| - 1]);
    }
  }

  lemma {:induction false} DocumentsHold(items: seq<Item>)
    ensures forall d :: d in Documents(items) <==> exists item :: item in items && item.Take? && item.fetch.source == d
  {
    if items == [] {
    } else {
      DocumentsHold(items[..|items| - 1]);
      assert items == items[..|items| - 1] + [items[|items| - 1]];
    }
  }

  lemma {:induction false} SplitLast(items: seq<Item>)
    requires items != []
    ensures forall item :: item in items <==> item in items[..|items| - 1] || item == items[|items| - 1]
  {
    assert items == items[..|items| - 1] + [items[|items| - 1]];
  }

  lemma {:induction false} TotalGrows(documents: seq<Document>, d: Document)
    ensures TotalBytes(documents + [d]) == TotalBytes(documents) + d.bytes
  {
    assert (documents + [d])[..|documents|] == documents;
  }

  lemma {:induction false} CountedInit(items: seq<Item>)
    requires items != [] && Counted(items)
    ensures Counted(items[..|items| - 1])
  {
    SplitLast(items);
    var last := items[|items| - 1];
    if last.Take? { TotalGrows(Documents(items[..|items| - 1]), last.fetch.source); }
  }

  function LedgerOf(items: seq<Item>): Ledger {
    Ledger(Documents(items), TotalBytes(Documents(items)))
  }

  lemma {:induction false} OneContentGrows(items: seq<Item>)
    requires items != [] && items[|items| - 1].Take? && OneContent(items[..|items| - 1])
    ensures var source := items[|items| - 1].fetch.source;
            OneContent(items) <==>
            forall d :: d in Documents(items[..|items| - 1]) && d.file == source.file ==> d == source
  {
    var init := items[..|items| - 1];
    SplitLast(items);
    DocumentsHold(init);
    if OneContent(items) {
      forall d | d in Documents(init) && d.file == items[|items| - 1].fetch.source.file
        ensures d == items[|items| - 1].fetch.source
      {
        var item :| item in init && item.Take? && item.fetch.source == d;
        assert item in items && items[|items| - 1] in items;
      }
    }
    hide Documents;
  }

  lemma {:induction false} AccountIsExact(items: seq<Item>, store: string)
    requires items != [] && items[|items| - 1].Take? && Counted(items[..|items| - 1])
    ensures var f := items[|items| - 1].fetch;
            var r := Account(LedgerOf(items[..|items| - 1]), store, f);
            && (r.Ok? <==> Identified(store, f) && Readable(f.source) && Counted(items))
            && (r.Ok? ==> r.value == LedgerOf(items))
  {
    var init := items[..|items| - 1];
    var f := items[|items| - 1].fetch;
    var documents := Documents(init);
    OneContentGrows(items);
    hide OneContent;
    TotalGrows(documents, f.source);
    hide TotalBytes;
    var p := FindDocument(documents, f.source.file);
    hide FindDocument;
    if p < |documents| {
      assert documents[p] in documents;
      SameFile(init, p, f.source);
    } else {
      assert f.source !in documents;
    }
  }

  /** Two documents in the ledger never share a path. */
  lemma {:induction false} SameFile(items: seq<Item>, p: nat, d: Document)
    requires OneContent(items) && p < |Documents(items)| && Documents(items)[p].file == d.file
    ensures forall e :: e in Documents(items) && e.file == d.file ==> e == Documents(items)[p]
  {
    DocumentsHold(items);
    forall e | e in Documents(items) && e.file == d.file ensures e == Documents(items)[p] {
      assert Documents(items)[p] in Documents(items);
      var a :| a in items && a.Take? && a.fetch.source == e;
      var b :| b in items && b.Take? && b.fetch.source == Documents(items)[p];
    }
  }

  lemma {:induction false} OtherItemsCountNothing(items: seq<Item>)
    requires items != [] && !items[|items| - 1].Take?
    ensures Counted(items) <==> Counted(items[..|items| - 1])
    ensures LedgerOf(items) == LedgerOf(items[..|items| - 1])
  {
    SplitLast(items);
    hide TotalBytes;
  }

  /** One more step of the composition, in terms of what the whole composition should be. */
  ghost predicate ComposedSoFar(store: string, items: seq<Item>) {
    var r := Compose(store, items);
    var merged := M.Merge([], AllContributions(items));
    && (r.Ok? <==> AllSound(store, items) && Counted(items) && merged.Ok?)
    && (r.Ok? ==> r.value == Work(LedgerOf(items), merged.value))
  }

  /** A step succeeds exactly when it is sound, the documents still count and its merge goes through. */
  lemma {:induction false} DoneIsExact(store: string, items: seq<Item>, k: M.Candidates)
    requires items != [] && Counted(items[..|items| - 1])
    ensures var last := items[|items| - 1];
            var r := Done(Work(LedgerOf(items[..|items| - 1]), k), store, last);
            var merged := M.Merge(k, Contributions(last));
            && (r.Ok? <==> Sound(store, last) && Counted(items) && merged.Ok?)
            && (r.Ok? ==> r.value == Work(LedgerOf(items), merged.value))
  {
    var last := items[|items| - 1];
    match last
    case Check(_) =>
      OtherItemsCountNothing(items);
      hide LedgerOf;
      hide Counted;
    case Take(f) =>
      AccountIsExact(items, store);
      S.SectionsAreExact(f.source.file, f.source.markdown, Selectors(f.selection));
      hide LedgerOf;
      hide Counted;
      hide Account;
      hide S.Sections;
      hide S.Outline;
      hide M.Merge;
      hide Said;
    case Guide(id, markdown) =>
      OtherItemsCountNothing(items);
      S.SectionsAreExact(GuidanceFile(id), markdown, []);
      hide LedgerOf;
      hide Counted;
      hide S.Sections;
      hide S.Outline;
      hide M.Merge;
      hide Guiding;
  }

  /** The composition is accepted exactly when every step is sound, every path is read with one
      content within the byte limit, and the merge of all that the selections say is accepted; then
      the documents are the distinct ones with the sum of their bytes, the candidates the merge. */
  lemma {:induction false} CompositionIsExact(store: string, items: seq<Item>)
    ensures ComposedSoFar(store, items)
    decreases |items|
  {
    if items == [] {
    } else {
      var init := items[..|items| - 1];
      CompositionIsExact(store, init);
      SplitLast(items);
      MergeAppend([], AllContributions(init), Contributions(items[|items| - 1]));
      hide M.Merge;
      if Counted(items) { CountedInit(items); }
      var before := Compose(store, init);
      if before.Ok? { DoneIsExact(store, items, before.value.candidates); }
      hide Counted;
      hide LedgerOf;
      hide Sound;
      hide Done;
      hide Contributions;
    }
  }

  // ---------------------------------------------------------------- the contributions are coherent

  predicate IsMarkdown(file: S.Part) {
    |file.text| >= 3 && file.text[|file.text| - 3..] == ".md"
  }

  /** What the schemas promise: selected paths end in ".md", and a pack is pinned once. */
  ghost predicate WellFormed(items: seq<Item>) {
    && (forall i :: 0 <= i < |items| && items[i].Take? ==> IsMarkdown(items[i].fetch.selection.file))
    && (forall i, j :: 0 <= i < j < |items| && items[i].Guide? && items[j].Guide? ==> items[i].id != items[j].id)
  }

  lemma {:induction false} SaidHolds(s: Selection, sections: seq<S.Section>)
    ensures forall c :: c in Said(s, sections) ==> c.section in sections && !c.guidance
    ensures forall c :: c in Said(s, sections) ==>
              c.required == s.mode.Required? && c.excluded == s.mode.Excluded? && c.priority == s.priority
  {
    if sections == [] {
    } else {
      SaidHolds(s, sections[..|sections| - 1]);
    }
  }

  /** A selection says the same of every section it selects, and nothing of any other: of all sections
      without selectors, else of those whose heading path begins with one of them. */
  lemma {:induction false} SaidIsTheSelection(s: Selection, sections: seq<S.Section>, c: M.Contribution)
    ensures c in Said(s, sections) <==>
              && c.section in sections
              && c == M.Contribution(c.section, s.mode.Required?, s.priority, s.mode.Excluded?, false)
              && (s.headings == [] || exists h :: h in s.headings && S.Matches(c.section.headingPath, [s.file] + h))
  {
    if sections == [] {
    } else {
      var init := sections[..|sections| - 1];
      SaidIsTheSelection(s, init, c);
      assert sections == init + [sections[|sections| - 1]];
      SelectedByHeading(s, c.section.headingPath);
      hide S.Matches;
    }
  }

  lemma {:induction false} SelectedByHeading(s: Selection, path: S.Path)
    ensures S.Selected(path, Selectors(s)) <==> exists h :: h in s.headings && S.Matches(path, [s.file] + h)
  {
    hide S.Matches;
    forall i | 0 <= i < |s.headings| ensures Selectors(s)[i] == [s.file] + s.headings[i] {}
    if S.Selected(path, Selectors(s)) {
      var i :| 0 <= i < |Selectors(s)| && S.Matches(path, Selectors(s)[i]);
      assert s.headings[i] in s.headings;
    }
    if h :| h in s.headings && S.Matches(path, [s.file] + h) {
      var i :| 0 <= i < |s.headings| && s.headings[i] == h;
      assert S.Matches(path, Selectors(s)[i]);
    }
  }

  lemma {:induction false} GuidingHolds(sections: seq<S.Section>)
    ensures |Guiding(sections)| == |sections|
    ensures forall i :: 0 <= i < |sections| ==>
              Guiding(sections)[i] == M.Contribution(sections[i], true, M.GUIDANCE_PRIORITY, false, true)
  {
    if sections == [] {
    } else {
      GuidingHolds(sections[..|sections| - 1]);
    }
  }

  lemma {:induction false} StepIsCoherent(item: Item)
    ensures M.Coherent(Contributions(item))
  {
    match item
    case Check(_) =>
    case Take(f) =>
      var outline := S.Outline(f.source.file, f.source.markdown);
      SaidHolds(f.selection, outline);
      hide S.Outline;
      hide Said;
      var cs := Said(f.selection, outline);
      forall i | 0 <= i < |cs| ensures cs[i].section in outline && !cs[i].guidance {
        assert cs[i] in cs;
      }
    case Guide(id, markdown) =>
      GuidingHolds(S.Outline(GuidanceFile(id), markdown));
      hide S.Outline;
      hide Guiding;
  }

  /** Every section of a step comes from the outline of its file. */
  lemma {:induction false} SectionOf(item: Item, c: M.Contribution)
    requires c in Contributions(item)
    ensures item.Take? ==>
              && !c.guidance && c.section.file == item.fetch.source.file
              && c.section in S.Outline(item.fetch.source.file, item.fetch.source.markdown)
    ensures item.Guide? ==> c.section.file == GuidanceFile(item.id)
    ensures !item.Check?
  {
    match item
    case Check(_) =>
    case Take(f) =>
      SaidHolds(f.selection, S.Outline(f.source.file, f.source.markdown));
    case Guide(id, markdown) =>
      GuidingHolds(S.Outline(GuidanceFile(id), markdown));
  }

  lemma {:induction false} GuidanceIsApart(file: S.Part, a: string, b: string)
    ensures IsMarkdown(file) ==> file != GuidanceFile(a)
    ensures a != b ==> GuidanceFile(a) != GuidanceFile(b)
  {
    var prefix := "context-pack:";
    var x, y := prefix + a + GUIDANCE_SUFFIX, prefix + b + GUIDANCE_SUFFIX;
    assert x[|x| - 1] == 'e';
    if x == y {
      assert |a| == |b|;
      assert a == x[|prefix|..|prefix| + |a|] && b == y[|prefix|..|prefix| + |a|];
    }
    if IsMarkdown(file) { assert file.text[|file.text| - 1] == file.text[|file.text| - 3..][2]; }
  }

  lemma {:induction false} AcrossSteps(
    store: string, items: seq<Item>, i: nat, j: nat, c: M.Contribution, d: M.Contribution)
    requires i < j < |items| && WellFormed(items) && AllSound(store, items) && OneContent(items)
    requires c in Contributions(items[i]) && d in Contributions(items[j])
    requires M.IdOf(c.section) == M.IdOf(d.section)
    ensures c.section == d.section && !c.guidance && !d.guidance
  {
    var x, y := items[i], items[j];
    SectionOf(x, c);
    SectionOf(y, d);
    assert x in items && y in items && Sound(store, x) && Sound(store, y);
    hide Contributions;
    if x.Take? && y.Take? {
    } else if x.Take? {
      GuidanceIsApart(x.fetch.source.file, y.id, y.id);
    } else if y.Take? {
      GuidanceIsApart(y.fetch.source.file, x.id, x.id);
    } else {
      GuidanceIsApart(GuidanceFile(x.id), x.id, y.id);
    }
  }

  lemma {:induction false} CoherentAppend(a: seq<M.Contribution>, b: seq<M.Contribution>)
    requires M.Coherent(a) && M.Coherent(b)
    requires forall c, d :: c in a && d in b && M.IdOf(c.section) == M.IdOf(d.section) ==>
               c.section == d.section && !c.guidance && !d.guidance
    ensures M.Coherent(a + b)
  {
    var cs := a + b;
    forall i, j | 0 <= i < j < |cs| && M.IdOf(cs[i].section) == M.IdOf(cs[j].section)
      ensures cs[i].section == cs[j].section && !cs[i].guidance && !cs[j].guidance
    {
      if i < |a| <= j { assert cs[i] in a && cs[j] in b; }
    }
  }

  lemma {:induction false} Sources(items: seq<Item>, c: M.Contribution) returns (i: nat)
    requires c in AllContributions(items)
    ensures i < |items| && c in Contributions(items[i])
    decreases |items|
  {
    var init := items[..|items| - 1];
    if c in AllContributions(init) {
      i := Sources(init, c);
    } else {
      i := |items| - 1;
    }
  }

  lemma {:induction false} ContributionsAreCoherent(store: string, items: seq<Item>)
    requires WellFormed(items) && AllSound(store, items) && OneContent(items)
    ensures M.Coherent(AllContributions(items))
    decreases |items|
  {
    if items == [] {
    } else {
      var init := items[..|items| - 1];
      var last := |items| - 1;
      SplitLast(items);
      ContributionsAreCoherent(store, init);
      StepIsCoherent(items[last]);
      forall c, d | c in AllContributions(init) && d in Contributions(items[last])
          && M.IdOf(c.section) == M.IdOf(d.section)
        ensures c.section == d.section && !c.guidance && !d.guidance
      {
        var i := Sources(init, c);
        AcrossSteps(store, items, i, last, c, d);
      }
      hide Contributions;
      CoherentAppend(AllContributions(init), Contributions(items[last]));
    }
  }

  /** The main result.  Well-formed packs are composed exactly when every step is sound, the documents
      count, no section is both required and excluded, and the section limit is never passed; every
      section then carries the sums of what the selections said of it. */
  lemma {:induction false} PacksMerge(store: string, packs: seq<Pack>)
    requires WellFormed(Items(packs))
    ensures var items := Items(packs);
            var said := AllContributions(items);
            var r := Compose(store, items);
            && (r.Ok? <==> AllSound(store, items) && Counted(items) && !M.Clash(said) && !M.Crowded(said))
            && (r.Ok? ==> r.value.ledger == LedgerOf(items) && M.Tallies(said, r.value.candidates))
  {
    var items := Items(packs);
    CompositionIsExact(store, items);
    if AllSound(store, items) && Counted(items) {
      ContributionsAreCoherent(store, items);
      M.MergeIsExact(AllContributions(items));
    }
    hide AllSound;
    hide LedgerOf;
    hide M.Clash;
    hide M.Crowded;
    hide M.Tallies;
  }

  // ---------------------------------------------------------------- the loops

  lemma {:induction false} FirstRefusalStands(store: string, some: seq<Item>, items: seq<Item>)
    requires some <= items && Compose(store, some).Err?
    ensures Compose(store, items) == Compose(store, some)
    decreases |items|
  {
    if some == items {
    } else {
      FirstRefusalStands(store, some, items[..|items| - 1]);
    }
  }

  lemma {:induction false} ComposeMore(store: string, items: seq<Item>, item: Item)
    ensures Compose(store, items + [item])
         == if Compose(store, items).Err? then Compose(store, items) else Done(Compose(store, items).value, store, item)
  {
    assert (items + [item])[..|items|] == items;
  }

  lemma {:induction false} TakesPrefix(fetches: seq<Fetch>, n: nat)
    requires n <= |fetches|
    ensures Takes(fetches[..n]) <= Takes(fetches)
    decreases |fetches|
  {
    if n == |fetches| {
      assert fetches[..n] == fetches;
    } else {
      assert fetches[..|fetches| - 1][..n] == fetches[..n];
      TakesPrefix(fetches[..|fetches| - 1], n);
    }
  }

  lemma {:induction false} ItemsPrefix(packs: seq<Pack>, n: nat)
    requires n <= |packs|
    ensures Items(packs[..n]) <= Items(packs)
    decreases |packs|
  {
    if n == |packs| {
      assert packs[..n] == packs;
    } else {
      assert packs[..|packs| - 1][..n] == packs[..n];
      ItemsPrefix(packs[..|packs| - 1], n);
    }
  }

  /** The local tables of the composition. */
  class PackComposition {
    const store: string
    var documents: seq<Document>
    var totalBytes: nat
    var candidates: M.Candidates

    ghost function View(): Work
      reads this
    {
      Work(Ledger(documents, totalBytes), candidates)
    }

    constructor (store: string)
      ensures this.store == store && View() == NOTHING
    {
      this.store := store;
      documents, totalBytes, candidates := [], 0, [];
    }

    method Put(c: M.Contribution) returns (error: Option<Error>)
      modifies this`candidates
      ensures var r := M.Put(old(candidates), c);
              if r.Err? then error == Some(BadMerge(r.error)) else error.None? && candidates == r.value
    {
      var p := M.Find(candidates, M.IdOf(c.section));
      if c.guidance {
        candidates := M.Write(candidates, p, M.Candidate(c.section, true, M.GUIDANCE_PRIORITY, false));
        return None;
      }
      var required, priority, excluded := c.required, c.priority, c.excluded;
      if p < |candidates| {
        var existing := candidates[p];
        if (existing.required || required) && (existing.excluded || excluded) {
          return Some(BadMerge(M.RequiredIsExcluded));
        }
        required, excluded := required || existing.required, excluded || existing.excluded;
        priority := M.Max(priority, existing.priority);
      }
      candidates := M.Write(candidates, p, M.Candidate(c.section, required, priority, excluded));
      if |candidates| > M.MAX_SECTIONS { return Some(BadMerge(M.TooManySections)); }
      error := None;
    }

    method PutAll(said: seq<M.Contribution>) returns (error: Option<Error>)
      modifies this`candidates
      ensures var r := M.Merge(old(candidates), said);
              if r.Err? then error == Some(BadMerge(r.error)) else error.None? && candidates == r.value
    {
      var i := 0;
      assert said[..0] == [];
      while i < |said|
        invariant 0 <= i <= |said|
        invariant M.Merge(old(candidates), said[..i]) == Ok(candidates)
      {
        assert said[..i + 1][..i] == said[..i];
        error := Put(said[i]);
        if error.Some? {
          assert said == said[..i + 1] + said[i + 1..];
          MergeAppend(old(candidates), said[..i + 1], said[i + 1..]);
          return;
        }
        i := i + 1;
      }
      assert said[..i] == said;
      error := None;
    }

    /** One selection: refused, or its document recorded and its sections merged. */
    method TakeSelection(f: Fetch) returns (error: Option<Error>)
      modifies this
      ensures var r := Taken(old(View()), store, f);
              if r.Err? then error == Some(r.error) else error.None? && View() == r.value
    {
      if !f.allowed { return Some(Refused); }
      var source := f.source;
      if !Identified(store, f) { return Some(IdentityMismatch); }
      if source.bytes > MAX_DOCUMENT_BYTES || source.hasNul { return Some(InvalidSource); }
      var p := FindDocument(documents, source.file);
      if p < |documents| {
        if documents[p].revision != source.revision { return Some(ConflictingRevisions); }
        if documents[p] != source { return Some(ContentChanged); }
      } else {
        totalBytes := totalBytes + source.bytes;
        if totalBytes > MAX_TOTAL_BYTES { return Some(InvalidSource); }
        documents := documents + [source];
      }
      var sections := S.ReadSections(source.file, source.markdown, Selectors(f.selection));
      if sections.Err? { return Some(BadHeading(sections.error)); }
      error := PutAll(Said(f.selection, sections.value));
    }

    method TakeGuidance(id: string, guidance: S.Markdown) returns (error: Option<Error>)
      modifies this
      ensures var r := Guided(old(View()), id, guidance);
              if r.Err? then error == Some(r.error) else error.None? && View() == r.value
    {
      var sections := S.ReadSections(GuidanceFile(id), guidance, []);
      if sections.Err? { return Some(BadHeading(sections.error)); }
      error := PutAll(Guiding(sections.value));
    }

    /** The selections of one pack after the steps `done`. */
    method TakeSelections(ghost done: seq<Item>, fetches: seq<Fetch>) returns (error: Option<Error>)
      requires Compose(store, done) == Ok(View())
      modifies this
      ensures var r := Compose(store, done + Takes(fetches));
              if r.Err? then error == Some(r.error) else error.None? && View() == r.value
    {
      hide Compose;
      error := None;
      var i := 0;
      assert done + Takes(fetches[..0]) == done;
      while i < |fetches|
        invariant 0 <= i <= |fetches|
        invariant error.None? && Compose(store, done + Takes(fetches[..i])) == Ok(View())
      {
        ghost var so := done + Takes(fetches[..i]);
        ghost var next := done + Takes(fetches[..i + 1]);
        assert fetches[..i + 1][..i] == fetches[..i];
        assert so + [Take(fetches[i])] == next;
        ComposeMore(store, so, Take(fetches[i]));
        error := TakeSelection(fetches[i]);
        if error.Some? {
          TakesPrefix(fetches, i + 1);
          FirstRefusalStands(store, next, done + Takes(fetches));
          return;
        }
        i := i + 1;
      }
      assert fetches[..i] == fetches;
    }

    /** One pack after the steps `before`. */
    method TakePack(ghost before: seq<Item>, pack: Pack) returns (error: Option<Error>)
      requires Compose(store, before) == Ok(View())
      modifies this
      ensures var r := Compose(store, before + ItemsOf(pack));
              if r.Err? then error == Some(r.error) else error.None? && View() == r.value
    {
      ghost var all := before + ItemsOf(pack);
      ghost var checked := before + [Check(pack)];
      ghost var taken := checked + Takes(pack.fetches);
      ComposeMore(store, before, Check(pack));
      assert checked <= taken <= all;
      assert all == if pack.guidanceBlank then taken else taken + [Guide(pack.pin.id, pack.guidance)];
      hide ItemsOf;
      hide Compose;
      if pack.aborted || !(pack.resolved == pack.pin && pack.digest == pack.pin.hash) {
        FirstRefusalStands(store, checked, all);
        return Some(if pack.aborted then Refused else PackMismatch);
      }
      error := TakeSelections(checked, pack.fetches);
      if error.Some? {
        FirstRefusalStands(store, taken, all);
        return;
      }
      if !pack.guidanceBlank {
        ComposeMore(store, taken, Guide(pack.pin.id, pack.guidance));
        error := TakeGuidance(pack.pin.id, pack.guidance);
      }
    }

    /** All packs of a recipe, in order. */
    method TakePacks(packs: seq<Pack>) returns (error: Option<Error>)
      requires View() == NOTHING
      modifies this
      ensures var r := Compose(store, Items(packs));
              if r.Err? then error == Some(r.error) else error.None? && View() == r.value
    {
      var i := 0;
      error := None;
      assert packs[..0] == [] && Compose(store, []) == Ok(NOTHING);
      hide Compose;
      hide ItemsOf;
      while i < |packs|
        invariant 0 <= i <= |packs|
        invariant error.None? && Compose(store, Items(packs[..i])) == Ok(View())
      {
        assert packs[..i + 1][..i] == packs[..i];
        error := TakePack(Items(packs[..i]), packs[i]);
        if error.Some? {
          ItemsPrefix(packs, i + 1);
          FirstRefusalStands(store, Items(packs[..i + 1]), Items(packs));
          return;
        }
        i := i + 1;
      }
      assert packs[..i] == packs;
    }
  }

  /** The compiler up to the hand-over of its sections: at least one and at most the limit. */
  method CompileContextPacks(store: string, packs: seq<Pack>)
    returns (sections: seq<S.Section>, required: seq<bool>, omissions: seq<S.Section>, totalBytes: nat, ok: bool)
    ensures var r := Compose(store, Items(packs));
            ok <==> store != "" && r.Ok? && 0 < |M.Kept(M.Sorted(r.value.candidates))| <= M.MAX_SECTIONS
    ensures var r := Compose(store, Items(packs));
            ok ==>
              && totalBytes == TotalBytes(Documents(Items(packs)))
              && |sections| == |required| == |M.Kept(M.Sorted(r.value.candidates))|
              && |omissions| == |M.Omitted(M.Sorted(r.value.candidates))|
              && (forall i :: 0 <= i < |sections| ==>
                    && sections[i] == M.Kept(M.Sorted(r.value.candidates))[i].section
                    && required[i] == M.Kept(M.Sorted(r.value.candidates))[i].required)
              && forall i :: 0 <= i < |omissions| ==> omissions[i] == M.Omitted(M.Sorted(r.value.candidates))[i].section
  {
    sections, required, omissions, totalBytes, ok := [], [], [], 0, false;
    if store == "" { return; }
    var composition := new PackComposition(store);
    var error := composition.TakePacks(packs);
    if error.Some? { return; }
    CompositionIsExact(store, Items(packs));
    sections, required, omissions := M.Arrange(composition.candidates);
    totalBytes := composition.totalBytes;
    ok := 0 < |sections| <= M.MAX_SECTIONS;
  }
}

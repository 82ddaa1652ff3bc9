/** The sections of one markdown document (server/agent-context-pack-compiler.ts, `matches` and
    `sections`): a walk over the heading tree that numbers the texts it keeps and refuses a selector
    that names no heading or more than one. */
module ContextSections {
  import opened Options

  /** A heading or a path with its lower-case form. */
  datatype Part = Part(text: string, folded: string)
  type Path = seq<Part>

  datatype Text = Text(value: string, blank: bool)
  datatype Heading = Heading(title: Part, body: Text, children: seq<Heading>)

  /** A parsed document: the text before the first heading (all of it when there is none). */
  datatype Markdown = Markdown(preamble: Text, tree: seq<Heading>)

  /** `file` and `index` make up the section's identifier. */
  datatype Section = Section(file: Part, index: nat, text: string, headingPath: Path)

  datatype Error = AmbiguousHeading | HeadingUnavailable

  function Folded(path: Path): (r: seq<string>)
    ensures |r| == |path| && forall i :: 0 <= i < |r| ==> r[i] == path[i].folded
  {
    if path == [] then [] else Folded(path[..|path| - 1]) + [path[|path| - 1].folded]
  }

  /** Whether a path begins with `prefix`, whatever the case. */
  predicate Matches(path: Path, prefix: Path) {
    |prefix| <= |path| && forall i :: 0 <= i < |prefix| ==> path[i].folded == prefix[i].folded
  }

  predicate Selected(path: Path, selectors: seq<Path>) {
    exists i :: 0 <= i < |selectors| && Matches(path, selectors[i])
  }

  // ---------------------------------------------------------------- what the walk should find

  datatype Entry = Entry(path: Path, body: Text)

  /** The headings below `parent`, each before its children. */
  function Entries(tree: seq<Heading>, parent: Path): seq<Entry> {
    if tree == [] then []
    else
      var path := parent + [tree[0].title];
      [Entry(path, tree[0].body)] + Entries(tree[0].children, path) + Entries(tree[1..], parent)
  }

  /** The entries that have a text, numbered in order from `next`. */
  function Numbered(file: Part, entries: seq<Entry>, next: nat): (r: seq<Section>)
    ensures forall k :: 0 <= k < |r| ==> r[k].file == file && r[k].index == next + k
  {
    if entries == [] then []
    else if entries[0].body.blank then Numbered(file, entries[1..], next)
    else [Section(file, next, entries[0].body.value, entries[0].path)] + Numbered(file, entries[1..], next + 1)
  }

  function Outline(file: Part, md: Markdown): (r: seq<Section>)
    ensures forall k :: 0 <= k < |r| ==> r[k].file == file && r[k].index == k
  {
    Numbered(file, [Entry([file], md.preamble)] + Entries(md.tree, [file]), 0)
  }

  /** How many headings have this path. */
  function Named(entries: seq<Entry>, key: seq<string>): nat {
    if entries == [] then 0
    else (if Folded(entries[0].path) == key then 1 else 0) + Named(entries[1..], key)
  }

  // ---------------------------------------------------------------- the walk

  datatype Walk = Walk(headings: set<seq<string>>, result: seq<Section>)

  function Added(result: seq<Section>, file: Part, body: Text, path: Path): seq<Section> {
    if body.blank then result else result + [Section(file, |result|, body.value, path)]
  }

  /** Some selector has exactly this path. */
  predicate Exactly(path: Path, selectors: seq<Path>) {
    exists i :: 0 <= i < |selectors| && |selectors[i]| == |path| && Matches(path, selectors[i])
  }

  function Visited(w: Walk, file: Part, e: Entry, selectors: seq<Path>): Result<Walk, Error> {
    if Folded(e.path) in w.headings && Exactly(e.path, selectors) then Err(AmbiguousHeading)
    else Ok(Walk(w.headings + {Folded(e.path)}, Added(w.result, file, e.body, e.path)))
  }

  function VisitedAll(w: Walk, file: Part, entries: seq<Entry>, selectors: seq<Path>): Result<Walk, Error>
    decreases |entries|
  {
    if entries == [] then Ok(w)
    else
      var next := Visited(w, file, entries[0], selectors);
      if next.Err? then next else VisitedAll(next.value, file, entries[1..], selectors)
  }

  function Sections(file: Part, md: Markdown, selectors: seq<Path>): Result<seq<Section>, Error> {
    var start := Walk({}, Added([], file, md.preamble, [file]));
    var end := VisitedAll(start, file, Entries(md.tree, [file]), selectors);
    if end.Err? then Err(end.error)
    else if exists i :: 0 <= i < |selectors| && Folded(selectors[i]) !in end.value.headings then Err(HeadingUnavailable)
    else Ok(end.value.result)
  }

  // ---------------------------------------------------------------- the walk is exact

  lemma {:induction false} FoldedEqual(a: Path, b: Path)
    ensures Folded(a) == Folded(b) <==> |a| == |b| && Matches(a, b)
  {
    if Folded(a) == Folded(b) {
      assert |a| == |b| && forall i :: 0 <= i < |a| ==> Folded(a)[i] == Folded(b)[i];
    }
  }

  predicate Selects(selectors: seq<Path>, key: seq<string>) {
    exists i :: 0 <= i < |selectors| && Folded(selectors[i]) == key
  }

  lemma {:induction false} ExactlySelects(path: Path, selectors: seq<Path>)
    ensures Exactly(path, selectors) <==> Selects(selectors, Folded(path))
  {
    forall i | 0 <= i < |selectors| ensures Folded(path) == Folded(selectors[i]) <==>
        |path| == |selectors[i]| && Matches(path, selectors[i]) {
      FoldedEqual(path, selectors[i]);
    }
  }

  /** A selected heading occurs at most once, counting what was seen before. */
  ghost predicate Unambiguous(seen: set<seq<string>>, entries: seq<Entry>, selectors: seq<Path>) {
    forall key {:trigger Selects(selectors, key)} :: Selects(selectors, key) ==>
      Named(entries, key) + (if key in seen then 1 else 0) <= 1
  }

  lemma {:induction false} WalkIsExact(w: Walk, file: Part, entries: seq<Entry>, selectors: seq<Path>)
    ensures var end := VisitedAll(w, file, entries, selectors);
            && (end.Ok? <==> Unambiguous(w.headings, entries, selectors))
            && (end.Err? ==> end.error == AmbiguousHeading)
            && (end.Ok? ==> end.value.result == w.result + Numbered(file, entries, |w.result|))
            && (end.Ok? ==> forall key :: key in end.value.headings <==> key in w.headings || Named(entries, key) > 0)
    decreases |entries|
  {
    if entries == [] {
    } else {
      ExactlySelects(entries[0].path, selectors);
      var key := Folded(entries[0].path);
      hide Selects;
      hide Exactly;
      var next := Visited(w, file, entries[0], selectors);
      if next.Ok? {
        WalkIsExact(next.value, file, entries[1..], selectors);
        UnambiguousStep(w.headings, entries, selectors);
      } else {
        assert Named(entries, key) >= 1;
      }
    }
  }

  lemma {:induction false} UnambiguousStep(seen: set<seq<string>>, entries: seq<Entry>, selectors: seq<Path>)
    requires entries != [] && (Folded(entries[0].path) in seen ==> !Selects(selectors, Folded(entries[0].path)))
    ensures Unambiguous(seen, entries, selectors)
        <==> Unambiguous(seen + {Folded(entries[0].path)}, entries[1..], selectors)
  {
    hide Selects;
    var more := seen + {Folded(entries[0].path)};
    forall key | Selects(selectors, key)
      ensures Named(entries, key) + (if key in seen then 1 else 0)
           == Named(entries[1..], key) + (if key in more then 1 else 0) {
    }
  }

  lemma {:induction false} OutlineBegins(file: Part, md: Markdown)
    ensures var start := Added([], file, md.preamble, [file]);
            Outline(file, md) == start + Numbered(file, Entries(md.tree, [file]), |start|)
  {
    assert ([Entry([file], md.preamble)] + Entries(md.tree, [file]))[1..] == Entries(md.tree, [file]);
  }

  /** The sections are accepted exactly when every selector names one heading, and are then the whole
      outline: the selectors change neither the texts nor their numbers. */
  lemma {:induction false} SectionsAreExact(file: Part, md: Markdown, selectors: seq<Path>)
    ensures var entries := Entries(md.tree, [file]);
            var r := Sections(file, md, selectors);
            && (r.Ok? <==> forall i :: 0 <= i < |selectors| ==> Named(entries, Folded(selectors[i])) == 1)
            && (r.Ok? ==> r.value == Outline(file, md))
            && (r == Err(AmbiguousHeading) <==> exists i :: 0 <= i < |selectors| && Named(entries, Folded(selectors[i])) > 1)
  {
    var entries := Entries(md.tree, [file]);
    var start := Walk({}, Added([], file, md.preamble, [file]));
    WalkIsExact(start, file, entries, selectors);
    OutlineBegins(file, md);
    assert forall i :: 0 <= i < |selectors| ==> Selects(selectors, Folded(selectors[i]));
    hide Numbered;
    hide Entries;
    hide VisitedAll;
    hide Named;
    hide Folded;
    hide Added;
    hide Outline;
  }

  // ---------------------------------------------------------------- the recursive walk

  lemma {:induction false} VisitedAppend(w: Walk, file: Part, a: seq<Entry>, b: seq<Entry>, selectors: seq<Path>)
    ensures var first := VisitedAll(w, file, a, selectors);
            VisitedAll(w, file, a + b, selectors)
            == if first.Err? then first else VisitedAll(first.value, file, b, selectors)
    decreases |a|
  {
    if a == [] {
      assert a + b == b;
    } else {
      assert (a + b)[1..] == a[1..] + b;
      var next := Visited(w, file, a[0], selectors);
      if next.Ok? { VisitedAppend(next.value, file, a[1..], b, selectors); }
    }
  }

  class SectionWalk {
    const file: Part
    const selectors: seq<Path>
    var headings: set<seq<string>>
    var result: seq<Section>

    ghost function View(): Walk
      reads this
    {
      Walk(headings, result)
    }

    constructor (file: Part, selectors: seq<Path>)
      ensures this.file == file && this.selectors == selectors && View() == Walk({}, [])
    {
      this.file, this.selectors := file, selectors;
      headings, result := {}, [];
    }

    method Add(body: Text, path: Path)
      modifies this
      ensures View() == Walk(old(headings), Added(old(result), file, body, path))
    {
      if !body.blank { result := result + [Section(file, |result|, body.value, path)]; }
    }

    /** Visits a list of headings, each before its children; stops at the first ambiguous one. */
    method Visit(tree: seq<Heading>, parent: Path) returns (error: Option<Error>)
      modifies this
      ensures var end := VisitedAll(old(View()), file, Entries(tree, parent), selectors);
              if end.Err? then error == Some(end.error) else error.None? && View() == end.value
      decreases tree
    {
      if tree == [] { return None; }
      var path := parent + [tree[0].title];
      ghost var entry := Entry(path, tree[0].body);
      ghost var below := Entries(tree[0].children, path);
      ghost var after := Entries(tree[1..], parent);
      VisitedAppend(View(), file, [entry] + below, after, selectors);
      VisitedAppend(View(), file, [entry], below, selectors);
      var key := Folded(path);
      if key in headings && Exactly(path, selectors) { return Some(AmbiguousHeading); }
      headings := headings + {key};
      Add(tree[0].body, path);
      error := Visit(tree[0].children, path);
      if error.Some? { return; }
      error := Visit(tree[1..], parent);
    }
  }

  method ReadSections(file: Part, md: Markdown, selectors: seq<Path>) returns (r: Result<seq<Section>, Error>)
    ensures r == Sections(file, md, selectors)
  {
    var walk := new SectionWalk(file, selectors);
    walk.Add(md.preamble, [file]);
    var error := walk.Visit(md.tree, [file]);
    if error.Some? { return Err(error.value); }
    if exists i :: 0 <= i < |selectors| && Folded(selectors[i]) !in walk.headings { return Err(HeadingUnavailable); }
    r := Ok(walk.result);
  }
}

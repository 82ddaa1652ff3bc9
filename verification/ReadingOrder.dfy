/** The sections of a document (server/agent-context-pack-compiler.ts, `sections`), said of the heading tree
    itself: a heading has an address, the numbers of the children that lead to it. */
module ReadingOrder {
  import opened Options
  import opened ContextSections

  type Address = seq<nat>

  /** The heading at an address. */
  function HeadingAt(tree: seq<Heading>, address: Address): Option<Heading> {
    if address == [] || address[0] >= |tree| then None
    else if |address| == 1 then Some(tree[address[0]])
    else HeadingAt(tree[address[0]].children, address[1..])
  }

  /** The titles on the way to it. */
  function Titles(tree: seq<Heading>, address: Address): Path
    requires HeadingAt(tree, address).Some?
  {
    if |address| == 1 then [tree[address[0]].title]
    else [tree[address[0]].title] + Titles(tree[address[0]].children, address[1..])
  }

  /** Reading order: a heading comes before its children, and these before the next heading. */
  predicate Precedes(a: Address, b: Address) {
    b != [] && (a == [] || a[0] < b[0] || (a[0] == b[0] && Precedes(a[1..], b[1..])))
  }

  /** `addresses` are all the addresses of the tree, in reading order. */
  ghost predicate AreAll(tree: seq<Heading>, addresses: seq<Address>) {
    && (forall k :: 0 <= k < |addresses| ==> HeadingAt(tree, addresses[k]).Some?)
    && (forall a :: HeadingAt(tree, a).Some? ==> a in addresses)
    && (forall i, j :: 0 <= i < j < |addresses| ==> Precedes(addresses[i], addresses[j]))
  }

  /** Each entry is the heading at its address, under the titles that lead there. */
  ghost predicate Describe(tree: seq<Heading>, parent: Path, addresses: seq<Address>, entries: seq<Entry>) {
    && |entries| == |addresses|
    && forall k :: 0 <= k < |addresses| ==>
         && HeadingAt(tree, addresses[k]).Some?
         && entries[k] == Entry(parent + Titles(tree, addresses[k]), HeadingAt(tree, addresses[k]).value.body)
  }

  function Under(addresses: seq<Address>): (r: seq<Address>)
    ensures |r| == |addresses| && forall k :: 0 <= k < |r| ==> r[k] == [0] + addresses[k]
  {
    seq(|addresses|, (k: nat) requires k < |addresses| => [0] + addresses[k])
  }

  function Later(addresses: seq<Address>): (r: seq<Address>)
    requires forall k :: 0 <= k < |addresses| ==> addresses[k] != []
    ensures |r| == |addresses|
    ensures forall k :: 0 <= k < |r| ==> r[k] == [addresses[k][0] + 1] + addresses[k][1..]
  {
    seq(|addresses|, (k: nat) requires k < |addresses| => [addresses[k][0] + 1] + addresses[k][1..])
  }

  lemma {:induction false} FirstHeading(tree: seq<Heading>)
    requires tree != []
    ensures HeadingAt(tree, [0]) == Some(tree[0]) && Titles(tree, [0]) == [tree[0].title]
  {}

  lemma {:induction false} BelowTheFirst(tree: seq<Heading>, a: Address)
    requires tree != [] && a != []
    ensures HeadingAt(tree, [0] + a) == HeadingAt(tree[0].children, a)
    ensures HeadingAt(tree, [0] + a).Some? ==> Titles(tree, [0] + a) == [tree[0].title] + Titles(tree[0].children, a)
  {
    assert ([0] + a)[1..] == a;
  }

  lemma {:induction false} AmongTheRest(tree: seq<Heading>, a: Address)
    requires tree != [] && a != []
    ensures var b := [a[0] + 1] + a[1..];
            && HeadingAt(tree, b) == HeadingAt(tree[1..], a)
            && (HeadingAt(tree, b).Some? ==> Titles(tree, b) == Titles(tree[1..], a))
  {
    var b := [a[0] + 1] + a[1..];
    assert b[1..] == a[1..] && (a[0] + 1 < |tree| ==> tree[1..][a[0]] == tree[b[0]]);
  }

  /** The walk of `sections` visits every heading once, in reading order, under its own titles. */
  lemma {:induction false} HeadingsInReadingOrder(tree: seq<Heading>, parent: Path) returns (addresses: seq<Address>)
    ensures AreAll(tree, addresses) && Describe(tree, parent, addresses, Entries(tree, parent))
    decreases tree
  {
    if tree == [] {
      addresses := [];
    } else {
      var path := parent + [tree[0].title];
      var below := HeadingsInReadingOrder(tree[0].children, path);
      var after := HeadingsInReadingOrder(tree[1..], parent);
      NoneIsEmpty(tree[0].children, below);
      NoneIsEmpty(tree[1..], after);
      addresses := [[0]] + Under(below) + Later(after);
      AllTogether(tree, below, after, addresses);
      DescribedTogether(tree, parent, below, after, addresses);
    }
  }

  lemma {:induction false} NoneIsEmpty(tree: seq<Heading>, addresses: seq<Address>)
    requires AreAll(tree, addresses)
    ensures forall k :: 0 <= k < |addresses| ==> addresses[k] != []
  {
    forall k | 0 <= k < |addresses| ensures addresses[k] != [] {
      assert HeadingAt(tree, addresses[k]).Some?;
    }
  }

  lemma {:induction false} IsAmong(tree: seq<Heading>, addresses: seq<Address>, a: Address) returns (k: nat)
    requires AreAll(tree, addresses) && HeadingAt(tree, a).Some?
    ensures k < |addresses| && addresses[k] == a
  {
    k :| 0 <= k < |addresses| && addresses[k] == a;
  }

  lemma {:induction false} EveryAddress(tree: seq<Heading>, below: seq<Address>, after: seq<Address>, a: Address)
    requires tree != [] && AreAll(tree[0].children, below) && AreAll(tree[1..], after)
    requires forall k :: 0 <= k < |after| ==> after[k] != []
    requires HeadingAt(tree, a).Some?
    ensures a in [[0]] + Under(below) + Later(after)
  {
    hide AreAll;
    var addresses := [[0]] + Under(below) + Later(after);
    if a[0] > 0 {
      var b := [a[0] - 1] + a[1..];
      AmongTheRest(tree, b);
      assert [b[0] + 1] + b[1..] == a;
      hide HeadingAt;
      var k := IsAmong(tree[1..], after, b);
      assert addresses[1 + |below| + k] == a;
    } else if |a| == 1 {
      assert a == [0] && addresses[0] == a;
    } else {
      BelowTheFirst(tree, a[1..]);
      assert [0] + a[1..] == a;
      hide HeadingAt;
      var k := IsAmong(tree[0].children, below, a[1..]);
      assert addresses[1 + k] == a;
    }
  }

  ghost predicate InOrder(addresses: seq<Address>) {
    forall i, j :: 0 <= i < j < |addresses| ==> Precedes(addresses[i], addresses[j])
  }

  lemma {:induction false} UnderPrecedes(a: Address, b: Address)
    ensures Precedes(a, b) ==> Precedes([0] + a, [0] + b)
  {
    assert ([0] + a)[1..] == a && ([0] + b)[1..] == b;
  }

  lemma {:induction false} LaterPrecedes(a: Address, b: Address)
    requires a != [] && b != []
    ensures Precedes(a, b) ==> Precedes([a[0] + 1] + a[1..], [b[0] + 1] + b[1..])
  {
    assert ([a[0] + 1] + a[1..])[1..] == a[1..] && ([b[0] + 1] + b[1..])[1..] == b[1..];
  }

  lemma {:induction false} InOrderTogether(below: seq<Address>, after: seq<Address>)
    requires InOrder(below) && InOrder(after)
    requires (forall k :: 0 <= k < |below| ==> below[k] != []) && forall k :: 0 <= k < |after| ==> after[k] != []
    ensures InOrder([[0]] + Under(below) + Later(after))
  {
    var addresses := [[0]] + Under(below) + Later(after);
    forall i, j | 0 <= i < j < |addresses| ensures Precedes(addresses[i], addresses[j]) {
      if i > |below| {
        assert Precedes(after[i - 1 - |below|], after[j - 1 - |below|]);
        LaterPrecedes(after[i - 1 - |below|], after[j - 1 - |below|]);
      } else if j > |below| {
        assert addresses[i][0] == 0 < addresses[j][0];
      } else if i > 0 {
        assert Precedes(below[i - 1], below[j - 1]);
        UnderPrecedes(below[i - 1], below[j - 1]);
      } else {
        UnderPrecedes([], below[j - 1]);
        assert [0] + [] == [0];
      }
    }
  }

  lemma {:induction false} AllThere(tree: seq<Heading>, below: seq<Address>, after: seq<Address>, k: nat)
    requires tree != [] && AreAll(tree[0].children, below) && AreAll(tree[1..], after)
    requires (forall k :: 0 <= k < |below| ==> below[k] != []) && forall k :: 0 <= k < |after| ==> after[k] != []
    requires k < 1 + |below| + |after|
    ensures HeadingAt(tree, ([[0]] + Under(below) + Later(after))[k]).Some?
  {
    FirstHeading(tree);
    if 0 < k <= |below| {
      BelowTheFirst(tree, below[k - 1]);
      assert HeadingAt(tree[0].children, below[k - 1]).Some?;
    } else if k > |below| {
      AmongTheRest(tree, after[k - 1 - |below|]);
      assert HeadingAt(tree[1..], after[k - 1 - |below|]).Some?;
    }
    hide HeadingAt;
    hide Precedes;
  }

  lemma {:induction false} AllTogether(tree: seq<Heading>, below: seq<Address>, after: seq<Address>, addresses: seq<Address>)
    requires tree != [] && AreAll(tree[0].children, below) && AreAll(tree[1..], after)
    requires (forall k :: 0 <= k < |below| ==> below[k] != []) && forall k :: 0 <= k < |after| ==> after[k] != []
    requires addresses == [[0]] + Under(below) + Later(after)
    ensures AreAll(tree, addresses)
  {
    hide HeadingAt;
    hide Precedes;
    forall a | HeadingAt(tree, a).Some? ensures a in addresses { EveryAddress(tree, below, after, a); }
    forall k | 0 <= k < |addresses| ensures HeadingAt(tree, addresses[k]).Some? { AllThere(tree, below, after, k); }
    InOrderTogether(below, after);
  }

  lemma {:induction false} DescribedTogether(
    tree: seq<Heading>, parent: Path, below: seq<Address>, after: seq<Address>, addresses: seq<Address>)
    requires tree != []
    requires (forall k :: 0 <= k < |below| ==> below[k] != []) && forall k :: 0 <= k < |after| ==> after[k] != []
    requires Describe(tree[0].children, parent + [tree[0].title], below, Entries(tree[0].children, parent + [tree[0].title]))
    requires Describe(tree[1..], parent, after, Entries(tree[1..], parent))
    requires addresses == [[0]] + Under(below) + Later(after)
    ensures Describe(tree, parent, addresses, Entries(tree, parent))
  {
    var path := parent + [tree[0].title];
    var (first, inner, outer) := (Entry(path, tree[0].body), Entries(tree[0].children, path), Entries(tree[1..], parent));
    var entries := Entries(tree, parent);
    assert entries == [first] + inner + outer;
    FirstHeading(tree);
    forall k | 0 <= k < |addresses|
      ensures HeadingAt(tree, addresses[k]).Some?
           && entries[k] == Entry(parent + Titles(tree, addresses[k]), HeadingAt(tree, addresses[k]).value.body)
    {
      if 0 < k <= |below| {
        BelowTheFirst(tree, below[k - 1]);
        var titles := Titles(tree[0].children, below[k - 1]);
        assert entries[k] == inner[k - 1];
        assert path + titles == parent + ([tree[0].title] + titles);
      } else if k > |below| {
        AmongTheRest(tree, after[k - 1 - |below|]);
        assert entries[k] == outer[k - 1 - |below|];
      }
    }
  }

  // ---------------------------------------------------------------- the texts

  /** `places` are the places of the entries that have a text, in order. */
  ghost predicate HaveTexts(entries: seq<Entry>, places: seq<nat>) {
    && (forall k :: 0 <= k < |places| ==> places[k] < |entries| && !entries[places[k]].body.blank)
    && (forall i {:trigger i in places} :: 0 <= i < |entries| && !entries[i].body.blank ==> i in places)
    && (forall i, j :: 0 <= i < j < |places| ==> places[i] < places[j])
  }

  function Shifted(places: seq<nat>): (r: seq<nat>)
    ensures |r| == |places| && forall k :: 0 <= k < |r| ==> r[k] == places[k] + 1
  {
    seq(|places|, (k: nat) requires k < |places| => places[k] + 1)
  }

  /** The same for the entries after the first. */
  ghost predicate HaveLaterTexts(entries: seq<Entry>, places: seq<nat>) {
    && (forall k :: 0 <= k < |places| ==> 0 < places[k] < |entries| && !entries[places[k]].body.blank)
    && (forall i {:trigger i in places} :: 0 < i < |entries| && !entries[i].body.blank ==> i in places)
    && (forall i, j :: 0 <= i < j < |places| ==> places[i] < places[j])
  }

  lemma {:induction false} ShiftedTexts(entries: seq<Entry>, rest: seq<nat>)
    requires entries != [] && HaveTexts(entries[1..], rest)
    ensures HaveLaterTexts(entries, Shifted(rest))
  {
    var places := Shifted(rest);
    forall i | 0 < i < |entries| && !entries[i].body.blank ensures i in places {
      assert entries[1..][i - 1] == entries[i];
      assert i - 1 in rest;
      var k :| 0 <= k < |rest| && rest[k] == i - 1;
      assert places[k] == i;
    }
    forall k | 0 <= k < |places| ensures 0 < places[k] < |entries| && !entries[places[k]].body.blank {
      assert entries[1..][rest[k]] == entries[places[k]];
    }
  }

  lemma {:induction false} FirstAndLater(entries: seq<Entry>, later: seq<nat>)
    requires entries != [] && !entries[0].body.blank && HaveLaterTexts(entries, later)
    ensures HaveTexts(entries, [0] + later)
  {
    var places := [0] + later;
    forall i | 0 <= i < |entries| && !entries[i].body.blank ensures i in places {
      if i > 0 { assert i in later; }
    }
    forall k | 0 <= k < |places| ensures places[k] < |entries| && !entries[places[k]].body.blank {
      if k > 0 { assert places[k] == later[k - 1]; }
    }
  }

  lemma {:induction false} OnlyLater(entries: seq<Entry>, later: seq<nat>)
    requires entries != [] && entries[0].body.blank && HaveLaterTexts(entries, later)
    ensures HaveTexts(entries, later)
  {}

  lemma {:induction false} OneMoreText(entries: seq<Entry>, rest: seq<nat>)
    requires entries != [] && HaveTexts(entries[1..], rest)
    ensures HaveTexts(entries, if entries[0].body.blank then Shifted(rest) else [0] + Shifted(rest))
  {
    hide *;
    ShiftedTexts(entries, rest);
    if entries[0].body.blank {
      OnlyLater(entries, Shifted(rest));
    } else {
      FirstAndLater(entries, Shifted(rest));
    }
  }

  /** Each section is the text at its place, numbered from `next`, under its heading path. */
  ghost predicate AreTexts(sections: seq<Section>, file: Part, entries: seq<Entry>, next: nat, places: seq<nat>) {
    && |sections| == |places|
    && forall k :: 0 <= k < |places| ==>
         && places[k] < |entries|
         && sections[k] == Section(file, next + k, entries[places[k]].body.value, entries[places[k]].path)
  }

  lemma {:induction false} ShiftedAreTexts(
    sections: seq<Section>, file: Part, entries: seq<Entry>, next: nat, rest: seq<nat>)
    requires entries != [] && AreTexts(sections, file, entries[1..], next, rest)
    ensures AreTexts(sections, file, entries, next, Shifted(rest))
  {
    var places := Shifted(rest);
    forall k | 0 <= k < |places|
      ensures places[k] < |entries|
      ensures sections[k] == Section(file, next + k, entries[places[k]].body.value, entries[places[k]].path)
    {
      assert entries[1..][rest[k]] == entries[places[k]];
    }
  }

  lemma {:induction false} OneMoreIsText(
    sections: seq<Section>, file: Part, entries: seq<Entry>, next: nat, places: seq<nat>)
    requires entries != [] && AreTexts(sections, file, entries, next + 1, places)
    ensures AreTexts([Section(file, next, entries[0].body.value, entries[0].path)] + sections, file, entries, next,
                     [0] + places)
  {}

  /** The sections are the texts in reading order, numbered from `next`, each under its heading path. */
  lemma {:induction false} TextsAreNumbered(file: Part, entries: seq<Entry>, next: nat) returns (places: seq<nat>)
    ensures HaveTexts(entries, places) && AreTexts(Numbered(file, entries, next), file, entries, next, places)
    decreases |entries|
  {
    if entries == [] {
      places := [];
    } else {
      hide HaveTexts;
      hide AreTexts;
      var blank := entries[0].body.blank;
      var rest := TextsAreNumbered(file, entries[1..], if blank then next else next + 1);
      OneMoreText(entries, rest);
      ShiftedAreTexts(Numbered(file, entries[1..], if blank then next else next + 1), file, entries,
                      if blank then next else next + 1, rest);
      places := Shifted(rest);
      if !blank {
        FirstText(file, entries, next);
        OneMoreIsText(Numbered(file, entries[1..], next + 1), file, entries, next, places);
        places := [0] + places;
      }
    }
  }

  lemma {:induction false} FirstText(file: Part, entries: seq<Entry>, next: nat)
    requires entries != [] && !entries[0].body.blank
    ensures Numbered(file, entries, next)
         == [Section(file, next, entries[0].body.value, entries[0].path)] + Numbered(file, entries[1..], next + 1)
  {}

  /** A document's sections: its preamble and the texts of all its headings. */
  lemma {:induction false} SectionsInReadingOrder(file: Part, md: Markdown) returns (addresses: seq<Address>, places: seq<nat>)
    ensures AreAll(md.tree, addresses)
    ensures var entries := [Entry([file], md.preamble)] + Entries(md.tree, [file]);
            && Describe(md.tree, [file], addresses, entries[1..]) && HaveTexts(entries, places)
            && AreTexts(Outline(file, md), file, entries, 0, places)
  {
    addresses := HeadingsInReadingOrder(md.tree, [file]);
    var entries := [Entry([file], md.preamble)] + Entries(md.tree, [file]);
    assert entries[1..] == Entries(md.tree, [file]);
    places := TextsAreNumbered(file, entries, 0);
    hide Numbered;
    hide Entries;
    hide AreAll;
    hide Describe;
    hide HaveTexts;
    hide AreTexts;
  }

  // ---------------------------------------------------------------- the selectors

  /** The heading at this address is what a selector names, whatever the case. */
  ghost predicate Names(selector: Path, file: Part, md: Markdown, a: Address) {
    && HeadingAt(md.tree, a).Some?
    && var path := [file] + Titles(md.tree, a);
       |selector| == |path| && forall i :: 0 <= i < |path| ==> selector[i].folded == path[i].folded
  }

  lemma {:induction false} NamedIsThere(entries: seq<Entry>, key: seq<string>)
    ensures Named(entries, key) > 0 <==> exists i :: 0 <= i < |entries| && Folded(entries[i].path) == key
    ensures Named(entries, key) > 1 <==>
              exists i, j :: 0 <= i < j < |entries| && Folded(entries[i].path) == key && Folded(entries[j].path) == key
  {
    if entries != [] {
      var rest := entries[1..];
      NamedIsThere(rest, key);
      assert forall i :: 0 <= i < |rest| ==> rest[i] == entries[i + 1];
      hide Folded;
      if i :| 0 <= i < |rest| && Folded(rest[i].path) == key {
        assert Folded(entries[i + 1].path) == key;
        if j :| i < j < |rest| && Folded(rest[j].path) == key { assert Folded(entries[j + 1].path) == key; }
      }
      if i, j :| 0 <= i < j < |entries| && Folded(entries[i].path) == key && Folded(entries[j].path) == key {
        assert Folded(rest[j - 1].path) == key;
        if i > 0 { assert Folded(rest[i - 1].path) == key; }
      }
      if i, j :| 0 <= i < j < |rest| && Folded(rest[i].path) == key && Folded(rest[j].path) == key {
        assert Folded(entries[i + 1].path) == key && Folded(entries[j + 1].path) == key;
      }
    }
  }

  lemma {:induction false} NamesIsFolded(selector: Path, file: Part, md: Markdown, a: Address, entry: Entry)
    requires HeadingAt(md.tree, a).Some? && entry.path == [file] + Titles(md.tree, a)
    ensures Names(selector, file, md, a) <==> Folded(entry.path) == Folded(selector)
  {
    FoldedEqual(entry.path, selector);
    hide Folded;
    hide Titles;
  }

  ghost predicate NamesSome(selector: Path, file: Part, md: Markdown) {
    exists a :: Names(selector, file, md, a)
  }

  ghost predicate NamesTwo(selector: Path, file: Part, md: Markdown) {
    exists a, b :: a != b && Names(selector, file, md, a) && Names(selector, file, md, b)
  }

  /** The sections are read exactly if every selector names a heading of the document and none names two; a
      selector that names two is ambiguous. */
  lemma {:induction false} SelectorsNameOneHeading(file: Part, md: Markdown, selectors: seq<Path>)
    ensures Sections(file, md, selectors).Ok? <==>
              forall i :: 0 <= i < |selectors| ==>
                NamesSome(selectors[i], file, md) && !NamesTwo(selectors[i], file, md)
    ensures Sections(file, md, selectors) == Err(AmbiguousHeading) <==>
              exists i :: 0 <= i < |selectors| && NamesTwo(selectors[i], file, md)
  {
    var entries := Entries(md.tree, [file]);
    SectionsAreExact(file, md, selectors);
    forall i | 0 <= i < |selectors|
      ensures Named(entries, Folded(selectors[i])) > 0 <==> NamesSome(selectors[i], file, md)
      ensures Named(entries, Folded(selectors[i])) > 1 <==> NamesTwo(selectors[i], file, md)
    {
      HowManyAreNamed(selectors[i], file, md);
    }
    hide *;
  }

  lemma {:induction false} PrecedingDiffers(a: Address, b: Address)
    requires Precedes(a, b)
    ensures a != b
  {
    if a != [] && a[0] == b[0] { PrecedingDiffers(a[1..], b[1..]); }
  }

  /** Headings and entries correspond. */
  lemma {:induction false} NamesAreEntries(selector: Path, file: Part, md: Markdown) returns (addresses: seq<Address>)
    ensures |addresses| == |Entries(md.tree, [file])|
    ensures forall a :: Names(selector, file, md, a) ==> a in addresses
    ensures forall i, j :: 0 <= i < j < |addresses| ==> addresses[i] != addresses[j]
    ensures forall k :: 0 <= k < |addresses| ==>
              (Names(selector, file, md, addresses[k]) <==> Folded(Entries(md.tree, [file])[k].path) == Folded(selector))
  {
    hide Entries;
    hide Folded;
    hide Precedes;
    addresses := HeadingsInReadingOrder(md.tree, [file]);
    forall k | 0 <= k < |addresses|
      ensures Names(selector, file, md, addresses[k]) <==> Folded(Entries(md.tree, [file])[k].path) == Folded(selector)
    {
      NamesIsFolded(selector, file, md, addresses[k], Entries(md.tree, [file])[k]);
    }
    forall i, j | 0 <= i < j < |addresses| ensures addresses[i] != addresses[j] {
      PrecedingDiffers(addresses[i], addresses[j]);
    }
  }

  lemma {:induction false} HowManyAreNamed(selector: Path, file: Part, md: Markdown)
    ensures var named := Named(Entries(md.tree, [file]), Folded(selector));
            && (named > 0 <==> NamesSome(selector, file, md)) && (named > 1 <==> NamesTwo(selector, file, md))
  {
    hide Entries;
    hide Folded;
    hide Named;
    hide Names;
    var entries := Entries(md.tree, [file]);
    NamedIsThere(entries, Folded(selector));
    var addresses := NamesAreEntries(selector, file, md);
    if i :| 0 <= i < |entries| && Folded(entries[i].path) == Folded(selector) {
      assert Names(selector, file, md, addresses[i]);
    }
    if i, j :| 0 <= i < j < |entries| && Folded(entries[i].path) == Folded(selector) && Folded(entries[j].path) == Folded(selector) {
      assert Names(selector, file, md, addresses[i]) && Names(selector, file, md, addresses[j]);
    }
    if a :| Names(selector, file, md, a) {
      var k :| 0 <= k < |addresses| && addresses[k] == a;
      assert Folded(entries[k].path) == Folded(selector);
    }
    if a, b :| a != b && Names(selector, file, md, a) && Names(selector, file, md, b) {
      var k :| 0 <= k < |addresses| && addresses[k] == a;
      var l :| 0 <= l < |addresses| && addresses[l] == b;
      assert Folded(entries[k].path) == Folded(selector) && Folded(entries[l].path) == Folded(selector);
    }
  }
}

/** Merging what several selections say about one section, and putting the sections in order
    (server/agent-context-pack-compiler.ts, the candidate table of `compileContextPacks`). */
module ContextMerge {
  import opened Options
  import Sections = ContextSections

  type Section = Sections.Section
  datatype Id = Id(file: Sections.Part, index: nat)

  const MAX_SECTIONS: nat := 500
  const GUIDANCE_PRIORITY: nat := 100

  function IdOf(s: Section): Id { Id(s.file, s.index) }

  /** What one selection, or the retrieval guidance of a pack, says about one section. */
  datatype Contribution = Contribution(
    section: Section, required: bool, priority: nat, excluded: bool, guidance: bool)

  datatype Candidate = Candidate(section: Section, required: bool, priority: nat, excluded: bool)

  /** Candidates in the order in which their sections were first seen. */
  type Candidates = seq<Candidate>

  datatype Error = RequiredIsExcluded | TooManySections

  predicate About(c: Contribution, id: Id) {
    IdOf(c.section) == id
  }

  // ---------------------------------------------------------------- one contribution

  /** The position of a section, or the length when it is new. */
  function Find(k: Candidates, id: Id): (p: nat)
    ensures p <= |k|
    ensures p < |k| ==> IdOf(k[p].section) == id
    ensures forall q :: 0 <= q < p ==> IdOf(k[q].section) != id
  {
    if k == [] then 0 else if IdOf(k[0].section) == id then 0 else 1 + Find(k[1..], id)
  }

  function Write(k: Candidates, p: nat, c: Candidate): Candidates
    requires p <= |k|
  {
    if p < |k| then k[p := c] else k + [c]
  }

  function Max(a: nat, b: nat): nat {
    if a < b then b else a
  }

  function Put(k: Candidates, c: Contribution): Result<Candidates, Error> {
    var p := Find(k, IdOf(c.section));
    if c.guidance then Ok(Write(k, p, Candidate(c.section, true, GUIDANCE_PRIORITY, false)))
    else
      var was := if p < |k| then k[p] else Candidate(c.section, false, 0, false);
      if p < |k| && (was.required || c.required) && (was.excluded || c.excluded) then Err(RequiredIsExcluded)
      else
        var next := Write(k, p, Candidate(c.section, c.required || was.required, Max(c.priority, was.priority),
                                          c.excluded || was.excluded));
        if |next| > MAX_SECTIONS then Err(TooManySections) else Ok(next)
  }

  function Merge(k: Candidates, cs: seq<Contribution>): Result<Candidates, Error> {
    if cs == [] then Ok(k)
    else
      var before := Merge(k, cs[..|cs| - 1]);
      if before.Err? then before else Put(before.value, cs[|cs| - 1])
  }

  // ---------------------------------------------------------------- what the merge should be

  ghost predicate SomeRequires(cs: seq<Contribution>, id: Id) {
    exists c :: c in cs && About(c, id) && c.required
  }

  ghost predicate SomeExcludes(cs: seq<Contribution>, id: Id) {
    exists c :: c in cs && About(c, id) && c.excluded
  }

  /** The greatest priority given to a section. */
  function Top(cs: seq<Contribution>, id: Id): (r: nat)
    ensures forall c :: c in cs && About(c, id) ==> c.priority <= r
    ensures r != 0 ==> exists c :: c in cs && About(c, id) && c.priority == r
  {
    if cs == [] then 0
    else
      var c := cs[|cs| - 1];
      var rest := Top(cs[..|cs| - 1], id);
      if About(c, id) && rest < c.priority then c.priority else rest
  }

  /** The sections in the order in which they are first mentioned. */
  function Seen(cs: seq<Contribution>): seq<Id> {
    if cs == [] then []
    else
      var id := IdOf(cs[|cs| - 1].section);
      var before := Seen(cs[..|cs| - 1]);
      if id in before then before else before + [id]
  }

  /** A section is required by one selection and excluded by another. */
  ghost predicate Clash(cs: seq<Contribution>) {
    exists id :: SomeRequires(cs, id) && SomeExcludes(cs, id)
  }

  /** The limit is looked at after each selected section, not after guidance. */
  ghost predicate Crowded(cs: seq<Contribution>) {
    exists n :: 0 < n <= |cs| && CrowdedAt(cs, n)
  }

  ghost predicate CrowdedAt(cs: seq<Contribution>, n: nat)
    requires 0 < n <= |cs|
  {
    !cs[n - 1].guidance && |Seen(cs[..n])| > MAX_SECTIONS
  }

  /** No contribution both requires and excludes, one section has one text, and guidance has its
      sections to itself. */
  ghost predicate Coherent(cs: seq<Contribution>) {
    && (forall i :: 0 <= i < |cs| ==> !(cs[i].required && cs[i].excluded))
    && (forall i :: 0 <= i < |cs| && cs[i].guidance ==> cs[i].required && cs[i].priority == GUIDANCE_PRIORITY)
    && (forall i, j :: 0 <= i < j < |cs| && IdOf(cs[i].section) == IdOf(cs[j].section) ==>
          cs[i].section == cs[j].section && !cs[i].guidance && !cs[j].guidance)
  }

  /** One candidate carries the disjunctions and the maximum of all that was said about it. */
  ghost predicate Totals(cs: seq<Contribution>, id: Id, k: Candidate) {
    && IdOf(k.section) == id
    && (forall c :: c in cs && About(c, id) ==> c.section == k.section)
    && (k.required <==> SomeRequires(cs, id))
    && k.priority == Top(cs, id)
    && (k.excluded <==> SomeExcludes(cs, id))
  }

  ghost predicate Tallies(cs: seq<Contribution>, k: Candidates) {
    && |k| == |Seen(cs)|
    && forall p :: 0 <= p < |k| ==> Totals(cs, Seen(cs)[p], k[p])
  }

  // ---------------------------------------------------------------- the merge is exact

  lemma {:induction false} SeenHolds(cs: seq<Contribution>)
    ensures forall p, q :: 0 <= p < q < |Seen(cs)| ==> Seen(cs)[p] != Seen(cs)[q]
    ensures forall id :: id in Seen(cs) <==> exists c :: c in cs && About(c, id)
  {
    if cs == [] {
    } else {
      var init := cs[..|cs| - 1];
      SeenHolds(init);
      assert cs == init + [cs[|cs| - 1]];
      assert About(cs[|cs| - 1], IdOf(cs[|cs| - 1].section));
    }
  }

  /** The sections come in the order of their first mention. */
  lemma {:induction false} SeenInOrder(cs: seq<Contribution>, p: nat, q: nat) returns (i: nat)
    requires p < q < |Seen(cs)|
    ensures i < |cs| && About(cs[i], Seen(cs)[p]) && forall j :: 0 <= j <= i ==> !About(cs[j], Seen(cs)[q])
  {
    var init := cs[..|cs| - 1];
    SeenHolds(cs);
    if q < |Seen(init)| {
      i := SeenInOrder(init, p, q);
      assert forall j :: 0 <= j <= i ==> cs[j] == init[j];
    } else {
      var id := Seen(cs)[p];
      assert id in Seen(init) by { assert Seen(init)[p] == id; }
      SeenHolds(init);
      var c :| c in init && About(c, id);
      i :| 0 <= i < |init| && init[i] == c;
      forall j | 0 <= j <= i ensures !About(cs[j], Seen(cs)[q]) {
        assert cs[j] == init[j] && init[j] in init;
      }
    }
  }

  lemma {:induction false} Snoc(cs: seq<Contribution>, id: Id)
    requires cs != []
    ensures var init := cs[..|cs| - 1];
            var c := cs[|cs| - 1];
            && (SomeRequires(cs, id) <==> SomeRequires(init, id) || (About(c, id) && c.required))
            && (SomeExcludes(cs, id) <==> SomeExcludes(init, id) || (About(c, id) && c.excluded))
  {
    assert cs == cs[..|cs| - 1] + [cs[|cs| - 1]];
  }

  /** The candidate that takes one more contribution about its section. */
  lemma {:induction false} TotalsGrow(cs: seq<Contribution>, k: Candidate)
    requires cs != [] && Coherent(cs) && !cs[|cs| - 1].guidance
    requires Totals(cs[..|cs| - 1], IdOf(cs[|cs| - 1].section), k)
    ensures var c := cs[|cs| - 1];
            Totals(cs, IdOf(c.section), Candidate(c.section, c.required || k.required, Max(c.priority, k.priority),
                                                  c.excluded || k.excluded))
  {
    var c := cs[|cs| - 1];
    Snoc(cs, IdOf(c.section));
    hide SomeRequires;
    hide SomeExcludes;
    forall d | d in cs && About(d, IdOf(c.section)) ensures d.section == c.section {
      var i :| 0 <= i < |cs| && cs[i] == d;
    }
  }

  lemma {:induction false} TotalsFirst(cs: seq<Contribution>)
    requires cs != [] && Coherent(cs)
    requires IdOf(cs[|cs| - 1].section) !in Seen(cs[..|cs| - 1])
    ensures var c := cs[|cs| - 1];
            Totals(cs, IdOf(c.section), Candidate(c.section, c.required, c.priority, c.excluded))
  {
    var c := cs[|cs| - 1];
    var init := cs[..|cs| - 1];
    var id := IdOf(c.section);
    SeenHolds(init);
    Snoc(cs, id);
    assert cs == init + [c];
    assert forall d :: d in init ==> !About(d, id);
    assert Top(init, id) == 0;
  }

  lemma {:induction false} TotalsOther(cs: seq<Contribution>, id: Id, k: Candidate)
    requires cs != [] && Totals(cs[..|cs| - 1], id, k) && id != IdOf(cs[|cs| - 1].section)
    ensures Totals(cs, id, k)
  {
    Snoc(cs, id);
    assert cs == cs[..|cs| - 1] + [cs[|cs| - 1]];
    hide SomeRequires;
    hide SomeExcludes;
  }

  lemma {:induction false} CoherentInit(cs: seq<Contribution>)
    requires cs != [] && Coherent(cs)
    ensures Coherent(cs[..|cs| - 1])
  {
  }

  lemma {:induction false} ClashSnoc(cs: seq<Contribution>)
    requires cs != [] && Coherent(cs)
    ensures var init := cs[..|cs| - 1];
            var c := cs[|cs| - 1];
            var id := IdOf(c.section);
            Clash(cs) <==> Clash(init) || (SomeRequires(init, id) && c.excluded) || (SomeExcludes(init, id) && c.required)
  {
    var init := cs[..|cs| - 1];
    forall id ensures
        && (SomeRequires(cs, id) <==> SomeRequires(init, id) || (About(cs[|cs| - 1], id) && cs[|cs| - 1].required))
        && (SomeExcludes(cs, id) <==> SomeExcludes(init, id) || (About(cs[|cs| - 1], id) && cs[|cs| - 1].excluded)) {
      Snoc(cs, id);
    }
    hide SomeRequires;
    hide SomeExcludes;
  }

  lemma {:induction false} CrowdedSnoc(cs: seq<Contribution>)
    requires cs != []
    ensures Crowded(cs) <==> Crowded(cs[..|cs| - 1]) || CrowdedAt(cs, |cs|)
  {
    var init := cs[..|cs| - 1];
    forall n | 0 < n <= |init| ensures CrowdedAt(cs, n) <==> CrowdedAt(init, n) {
      assert cs[..n] == init[..n];
    }
    hide CrowdedAt;
  }

  /** The position of a seen section is its place in the order of first mention. */
  lemma {:induction false} FindSeen(cs: seq<Contribution>, k: Candidates, id: Id)
    requires Tallies(cs, k)
    ensures Find(k, id) < |k| <==> id in Seen(cs)
    ensures Find(k, id) < |k| ==> Seen(cs)[Find(k, id)] == id
  {
    hide SomeRequires;
    hide SomeExcludes;
    assert forall p :: 0 <= p < |k| ==> IdOf(k[p].section) == Seen(cs)[p];
  }

  lemma {:induction false} PutTallies(cs: seq<Contribution>, k: Candidates)
    requires cs != [] && Coherent(cs) && Tallies(cs[..|cs| - 1], k)
    requires Put(k, cs[|cs| - 1]).Ok?
    ensures Tallies(cs, Put(k, cs[|cs| - 1]).value)
  {
    hide Totals;
    var c := cs[|cs| - 1];
    var init := cs[..|cs| - 1];
    var p := Find(k, IdOf(c.section));
    var next := Put(k, c).value;
    FindSeen(init, k, IdOf(c.section));
    SeenHolds(init);
    if p < |k| {
      NoGuidanceAgain(cs);
      TotalsGrow(cs, k[p]);
    } else {
      TotalsFirst(cs);
    }
    forall q | 0 <= q < |k| && q != p ensures Totals(cs, Seen(cs)[q], next[q]) {
      TotalsOther(cs, Seen(init)[q], k[q]);
    }
  }

  lemma {:induction false} NoGuidanceAgain(cs: seq<Contribution>)
    requires cs != [] && Coherent(cs) && IdOf(cs[|cs| - 1].section) in Seen(cs[..|cs| - 1])
    ensures !cs[|cs| - 1].guidance
  {
    var init := cs[..|cs| - 1];
    SeenHolds(init);
    var d :| d in init && About(d, IdOf(cs[|cs| - 1].section));
    var i :| 0 <= i < |init| && init[i] == d;
    assert cs[i] == d;
  }

  lemma {:induction false} PutRefusal(cs: seq<Contribution>, k: Candidates)
    requires cs != [] && Coherent(cs) && Tallies(cs[..|cs| - 1], k) && !Clash(cs[..|cs| - 1])
    ensures var r := Put(k, cs[|cs| - 1]);
            && (r == Err(RequiredIsExcluded) <==> Clash(cs))
            && (r.Err? && r.error == TooManySections <==> !Clash(cs) && CrowdedAt(cs, |cs|))
  {
    var c := cs[|cs| - 1];
    var init := cs[..|cs| - 1];
    var id := IdOf(c.section);
    FindSeen(init, k, id);
    SeenHolds(init);
    ClashSnoc(cs);
    assert cs[..|cs|] == cs;
    if id in Seen(init) {
      NoGuidanceAgain(cs);
      assert Totals(init, id, k[Find(k, id)]);
    } else {
      assert !SomeRequires(init, id) && !SomeExcludes(init, id);
    }
    hide Clash;
    hide SomeRequires;
    hide SomeExcludes;
  }

  /** The merge reports a conflict exactly when some section is both required and excluded, or stops
      at the limit; otherwise every section, in the order of first mention, carries the disjunction of
      the requirements and of the exclusions and the greatest priority. */
  lemma {:induction false} MergeIsExact(cs: seq<Contribution>)
    requires Coherent(cs)
    ensures var r := Merge([], cs);
            && (r.Ok? <==> !Clash(cs) && !Crowded(cs))
            && (r.Ok? ==> Tallies(cs, r.value))
            && (r == Err(RequiredIsExcluded) ==> Clash(cs))
            && (r == Err(TooManySections) ==> Crowded(cs))
    decreases |cs|
  {
    if cs == [] {
    } else {
      CoherentInit(cs);
      var init := cs[..|cs| - 1];
      MergeIsExact(init);
      CrowdedSnoc(cs);
      ClashSnoc(cs);
      hide Clash;
      hide Crowded;
      hide CrowdedAt;
      hide Coherent;
      hide SomeExcludes;
      hide SomeRequires;
      var before := Merge([], init);
      if before.Ok? {
        PutRefusal(cs, before.value);
        if Put(before.value, cs[|cs| - 1]).Ok? { PutTallies(cs, before.value); }
      }
      hide Tallies;
      hide Put;
    }
  }

  // ---------------------------------------------------------------- the order of the output

  function Insert(s: Candidates, c: Candidate): Candidates {
    if s == [] || s[|s| - 1].priority >= c.priority then s + [c]
    else Insert(s[..|s| - 1], c) + [s[|s| - 1]]
  }

  /** A stable sort by falling priority. */
  function Sorted(k: Candidates): Candidates {
    if k == [] then [] else Insert(Sorted(k[..|k| - 1]), k[|k| - 1])
  }

  function Kept(k: Candidates): Candidates {
    if k == [] then []
    else Kept(k[..|k| - 1]) + if k[|k| - 1].excluded then [] else [k[|k| - 1]]
  }

  function Omitted(k: Candidates): Candidates {
    if k == [] then []
    else Omitted(k[..|k| - 1]) + if k[|k| - 1].excluded then [k[|k| - 1]] else []
  }

  function OfPriority(k: Candidates, p: nat): Candidates {
    if k == [] then []
    else OfPriority(k[..|k| - 1], p) + if k[|k| - 1].priority == p then [k[|k| - 1]] else []
  }

  ghost predicate Falling(k: Candidates) {
    forall i, j :: 0 <= i < j < |k| ==> k[i].priority >= k[j].priority
  }

  lemma {:induction false} InsertHas(s: Candidates, c: Candidate)
    ensures multiset(Insert(s, c)) == multiset(s) + multiset{c}
  {
    if s == [] || s[|s| - 1].priority >= c.priority {
    } else {
      InsertHas(s[..|s| - 1], c);
      assert s == s[..|s| - 1] + [s[|s| - 1]];
    }
  }

  lemma {:induction false} InsertFalls(s: Candidates, c: Candidate)
    requires Falling(s)
    ensures Falling(Insert(s, c))
  {
    if s == [] || s[|s| - 1].priority >= c.priority {
    } else {
      var init := s[..|s| - 1];
      InsertFalls(init, c);
      InsertHas(init, c);
      var r := Insert(init, c);
      hide Insert;
      forall i | 0 <= i < |r| ensures r[i].priority >= s[|s| - 1].priority {
        assert r[i] in multiset(r);
        assert r[i] == c || r[i] in multiset(init);
      }
      assert Insert(s, c) == r + [s[|s| - 1]] by { InsertStep(s, c); }
    }
  }

  lemma {:induction false} InsertStep(s: Candidates, c: Candidate)
    requires s != [] && s[|s| - 1].priority < c.priority
    ensures Insert(s, c) == Insert(s[..|s| - 1], c) + [s[|s| - 1]]
  {
  }

  lemma {:induction false} InsertOfPriority(s: Candidates, c: Candidate, p: nat)
    requires Falling(s)
    ensures OfPriority(Insert(s, c), p) == OfPriority(s, p) + if c.priority == p then [c] else []
  {
    if s == [] || s[|s| - 1].priority >= c.priority {
      assert (s + [c])[..|s|] == s;
    } else {
      var init := s[..|s| - 1];
      InsertOfPriority(init, c, p);
      var r := Insert(init, c) + [s[|s| - 1]];
      assert r[..|r| - 1] == Insert(init, c);
      if c.priority == p {
      }
    }
  }

  lemma {:induction false} SortedFalls(k: Candidates)
    ensures Falling(Sorted(k))
  {
    if k != [] {
      hide Falling;
      SortedFalls(k[..|k| - 1]);
      InsertFalls(Sorted(k[..|k| - 1]), k[|k| - 1]);
    }
  }

  lemma {:induction false} SortedHas(k: Candidates)
    ensures multiset(Sorted(k)) == multiset(k)
  {
    if k != [] {
      hide Insert;
      var init := k[..|k| - 1];
      SortedHas(init);
      InsertHas(Sorted(init), k[|k| - 1]);
      assert k == init + [k[|k| - 1]];
    }
  }

  lemma {:induction false} SortedHolds(k: Candidates)
    ensures Falling(Sorted(k)) && multiset(Sorted(k)) == multiset(k)
  {
    hide *;
    SortedFalls(k);
    SortedHas(k);
  }

  lemma {:induction false} SortedOfPriority(k: Candidates, p: nat)
    ensures OfPriority(Sorted(k), p) == OfPriority(k, p)
  {
    if k == [] {
    } else {
      SortedHolds(k[..|k| - 1]);
      SortedOfPriority(k[..|k| - 1], p);
      InsertOfPriority(Sorted(k[..|k| - 1]), k[|k| - 1], p);
      hide Insert;
      hide Falling;
    }
  }

  lemma {:induction false} KeptParts(k: Candidates)
    ensures multiset(Kept(k)) + multiset(Omitted(k)) == multiset(k)
  {
    if k == [] {
    } else {
      KeptParts(k[..|k| - 1]);
      assert k == k[..|k| - 1] + [k[|k| - 1]];
    }
  }

  lemma {:induction false} KeptAmong(k: Candidates)
    ensures forall i :: 0 <= i < |Kept(k)| ==> !Kept(k)[i].excluded && Kept(k)[i] in k
    ensures forall i :: 0 <= i < |Omitted(k)| ==> Omitted(k)[i].excluded
  {
    if k == [] {
    } else {
      KeptAmong(k[..|k| - 1]);
    }
  }

  lemma {:induction false} KeptFalls(k: Candidates)
    requires Falling(k)
    ensures Falling(Kept(k))
  {
    if k == [] {
    } else {
      KeptFalls(k[..|k| - 1]);
      KeptAmong(k[..|k| - 1]);
    }
  }

  lemma {:induction false} KeptOfPriority(k: Candidates, p: nat)
    ensures OfPriority(Kept(k), p) == Kept(OfPriority(k, p))
  {
    if k == [] {
    } else {
      var init := k[..|k| - 1];
      var c := k[|k| - 1];
      KeptOfPriority(init, p);
      assert (Kept(init) + [c])[..|Kept(init)|] == Kept(init);
      assert (OfPriority(init, p) + [c])[..|OfPriority(init, p)|] == OfPriority(init, p);
      assert Kept(init) + [] == Kept(init) && OfPriority(init, p) + [] == OfPriority(init, p);
    }
  }

  lemma {:induction false} OmittedFalls(k: Candidates)
    requires Falling(k)
    ensures Falling(Omitted(k)) && forall i :: 0 <= i < |Omitted(k)| ==> Omitted(k)[i] in k
  {
    if k != [] { OmittedFalls(k[..|k| - 1]); }
  }

  lemma {:induction false} OmittedOfPriority(k: Candidates, p: nat)
    ensures OfPriority(Omitted(k), p) == Omitted(OfPriority(k, p))
  {
    if k == [] {
    } else {
      var init := k[..|k| - 1];
      var c := k[|k| - 1];
      OmittedOfPriority(init, p);
      assert (Omitted(init) + [c])[..|Omitted(init)|] == Omitted(init);
      assert (OfPriority(init, p) + [c])[..|OfPriority(init, p)|] == OfPriority(init, p);
      assert Omitted(init) + [] == Omitted(init) && OfPriority(init, p) + [] == OfPriority(init, p);
    }
  }

  /** The candidates are split exactly into the sections sent and the sections omitted; both come
      in falling priority, those of one priority in the order of first mention. */
  lemma {:induction false} OutputIsExact(k: Candidates)
    ensures var nodes := Kept(Sorted(k));
            var omitted := Omitted(Sorted(k));
            && multiset(nodes) + multiset(omitted) == multiset(k)
            && (forall c :: c in nodes ==> !c.excluded)
            && (forall c :: c in omitted ==> c.excluded)
            && Falling(nodes)
            && Falling(omitted)
            && (forall p :: OfPriority(nodes, p) == Kept(OfPriority(k, p)))
            && (forall p :: OfPriority(omitted, p) == Omitted(OfPriority(k, p)))
  {
    SortedHolds(k);
    KeptParts(Sorted(k));
    KeptAmong(Sorted(k));
    KeptFalls(Sorted(k));
    OmittedFalls(Sorted(k));
    forall p ensures OfPriority(Kept(Sorted(k)), p) == Kept(OfPriority(k, p)) {
      SortedOfPriority(k, p);
      KeptOfPriority(Sorted(k), p);
    }
    forall p ensures OfPriority(Omitted(Sorted(k)), p) == Omitted(OfPriority(k, p)) {
      SortedOfPriority(k, p);
      OmittedOfPriority(Sorted(k), p);
    }
  }

  ghost predicate SameByPriority(a: Candidates, b: Candidates) {
    forall p: nat :: OfPriority(a, p) == OfPriority(b, p)
  }

  /** Nothing else has these two properties: the order is determined. */
  lemma {:induction false} TheOrderIsDetermined(a: Candidates, b: Candidates)
    requires Falling(a) && Falling(b) && SameByPriority(a, b)
    ensures a == b
    decreases |a|
  {
    if a == [] {
      if b != [] { LastOfPriority(b, a); }
    } else {
      LastOfPriority(a, b);
      var x := a[|a| - 1];
      var a', b' := a[..|a| - 1], b[..|b| - 1];
      forall p: nat ensures OfPriority(a', p) == OfPriority(b', p) {
        assert OfPriority(a, p) == OfPriority(b, p);
        SamePrefix(OfPriority(a', p), OfPriority(b', p), x, p);
      }
      TheOrderIsDetermined(a', b');
      assert a == a' + [x] && b == b' + [x];
    }
  }

  lemma {:induction false} SamePrefix(s: Candidates, t: Candidates, x: Candidate, p: nat)
    requires s + (if x.priority == p then [x] else []) == t + (if x.priority == p then [x] else [])
    ensures s == t
  {
    if x.priority == p {
      assert s == (s + [x])[..|s|] && t == (t + [x])[..|t|];
    } else {
      assert s == s + [] && t == t + [];
    }
  }

  lemma {:induction false} MembersOfPriority(k: Candidates, p: nat)
    ensures forall c :: c in OfPriority(k, p) <==> c in k && c.priority == p
  {
    if k != [] {
      MembersOfPriority(k[..|k| - 1], p);
      assert k == k[..|k| - 1] + [k[|k| - 1]];
    }
  }

  lemma {:induction false} LastOfPriority(a: Candidates, b: Candidates)
    requires a != [] && Falling(a) && Falling(b) && SameByPriority(a, b)
    ensures b != [] && b[|b| - 1] == a[|a| - 1]
  {
    var x := a[|a| - 1];
    MembersOfPriority(a, x.priority);
    MembersOfPriority(b, x.priority);
    assert x in b;
    var y := b[|b| - 1];
    MembersOfPriority(a, y.priority);
    MembersOfPriority(b, y.priority);
    assert y in a;
    assert y.priority == x.priority;
    var s, t := OfPriority(a, x.priority), OfPriority(b, x.priority);
    assert s[|s| - 1] == x && t[|t| - 1] == y;
  }

  /** The output loop over the sorted candidates. */
  method Arrange(k: Candidates) returns (nodes: seq<Section>, required: seq<bool>, omissions: seq<Section>)
    ensures |nodes| == |required| == |Kept(Sorted(k))| && |omissions| == |Omitted(Sorted(k))|
    ensures forall i :: 0 <= i < |nodes| ==>
              nodes[i] == Kept(Sorted(k))[i].section && required[i] == Kept(Sorted(k))[i].required
    ensures forall i :: 0 <= i < |omissions| ==> omissions[i] == Omitted(Sorted(k))[i].section
  {
    nodes, required, omissions := [], [], [];
    var sorted := Sorted(k);
    hide Sorted;
    var i := 0;
    while i < |sorted|
      invariant 0 <= i <= |sorted|
      invariant |nodes| == |required| == |Kept(sorted[..i])| && |omissions| == |Omitted(sorted[..i])|
      invariant forall j :: 0 <= j < |nodes| ==>
                  nodes[j] == Kept(sorted[..i])[j].section && required[j] == Kept(sorted[..i])[j].required
      invariant forall j :: 0 <= j < |omissions| ==> omissions[j] == Omitted(sorted[..i])[j].section
    {
      assert sorted[..i + 1][..i] == sorted[..i];
      if sorted[i].excluded {
        omissions := omissions + [sorted[i].section];
      } else {
        nodes, required := nodes + [sorted[i].section], required + [sorted[i].required];
      }
      i := i + 1;
    }
    assert sorted[..i] == sorted;
  }
}

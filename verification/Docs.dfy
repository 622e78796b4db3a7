/** Listing, searching and ranking documentation. Models `adapters/docs.py`. */
module Docs {
  import opened Errors
  import opened Ordering
  import opened Outcomes
  import opened Redaction
  import opened Text

  const MAX_DOCUMENT_BYTES := 1_000_000

  datatype TreeItem = TreeItem(kind: string, path: string, size: int)

  datatype DocumentRef = DocumentRef(path: string, size: int)

  datatype Document = Document(path: string, content: string)

  datatype SearchResult = SearchResult(document: Document, matches: nat)

  /** The repository behind the adapter: its tree and, by path, what reading a file gives. */
  datatype Repository = Repository(truncated: bool, tree: seq<TreeItem>, read: string -> Result<string, McpError>)

  function Fault(kind: ErrorKind, message: string): McpError {
    McpError(kind, message, map[])
  }

  predicate IsTextDocument(path: string) {
    var p := Lower(path);
    EndsWith(p, ".md") || EndsWith(p, ".mdx") || EndsWith(p, ".txt") || EndsWith(p, ".yaml") || EndsWith(p, ".yml")
      || EndsWith(p, ".json")
  }

  predicate Eligible(item: TreeItem) {
    item.kind == "blob" && IsTextDocument(item.path) && item.size <= MAX_DOCUMENT_BYTES
  }

  lemma LowerSpells(m: string, name: string)
    requires forall c | c in name :: c == '.' || 'a' <= c <= 'z'
    ensures Lower(m) == name <==> Spells(m, name)
  {
    if Lower(m) == name {
      forall i | 0 <= i < |m| ensures StandsFor(m[i], name[i]) {
        assert Lower(m)[i] == name[i];
      }
    }
    if Spells(m, name) {
      forall i | 0 <= i < |m| ensures Lower(m)[i] == name[i] {
        assert name[i] in name;
      }
    }
  }

  ghost predicate EndsIn(path: string, stem: string, m: string, name: string) {
    path == stem + m && Spells(m, name)
  }

  lemma EndsWithExactly(path: string, name: string)
    requires forall c | c in name :: c == '.' || 'a' <= c <= 'z'
    ensures EndsWith(Lower(path), name) <==> exists stem, m :: EndsIn(path, stem, m, name)
  {
    if EndsWith(Lower(path), name) {
      var k := |path| - |name|;
      assert Lower(path)[k..] == Lower(path[k..]);
      LowerSpells(path[k..], name);
      assert EndsIn(path, path[..k], path[k..], name);
    }
    if stem, m :| EndsIn(path, stem, m, name) {
      LowerSpells(m, name);
      assert Lower(path)[|stem|..] == Lower(m);
    }
  }

  /** Files of at most a million bytes whose path ends in one of six extensions, capitals allowed. */
  lemma EligibleExactly(item: TreeItem)
    ensures Eligible(item) <==>
      && item.kind == "blob" && item.size <= 1_000_000
      && exists stem, m, name ::
         name in {".md", ".mdx", ".txt", ".yaml", ".yml", ".json"} && EndsIn(item.path, stem, m, name)
  {
    hide EndsWith, EndsIn, Lower;
    EndsWithExactly(item.path, ".md");
    EndsWithExactly(item.path, ".mdx");
    EndsWithExactly(item.path, ".txt");
    EndsWithExactly(item.path, ".yaml");
    EndsWithExactly(item.path, ".yml");
    EndsWithExactly(item.path, ".json");
  }

  /** The eligible entries, in tree order, as references keyed for sorting by path. */
  function EligibleRefs(tree: seq<TreeItem>): seq<Keyed<DocumentRef>> {
    if tree == [] then []
    else
      var rest := EligibleRefs(tree[..|tree| - 1]);
      var item := tree[|tree| - 1];
      if Eligible(item) then rest + [Keyed(0, item.path, DocumentRef(item.path, item.size))] else rest
  }

  function Unkeyed<T>(s: seq<Keyed<T>>): seq<T> {
    seq(|s|, i requires 0 <= i < |s| => s[i].item)
  }

  function FirstAtMost<T>(s: seq<T>, n: nat): seq<T> {
    if |s| <= n then s else s[..n]
  }

  /** The path-sorted first `maxFiles` eligible entries of the tree. */
  function Listing(tree: seq<TreeItem>, maxFiles: nat): seq<DocumentRef> {
    Unkeyed(Sort(FirstAtMost(EligibleRefs(tree), maxFiles)))
  }

  lemma {:induction false} EligibleRefsOfPrefix(tree: seq<TreeItem>, i: nat)
    requires i <= |tree|
    ensures EligibleRefs(tree[..i]) <= EligibleRefs(tree)
  {
    var n := |tree|;
    if i == n {
      assert tree[..i] == tree;
    } else {
      EligibleRefsOfPrefix(tree[..n - 1], i);
      assert tree[..n - 1][..i] == tree[..i];
    }
  }

  /** The number of non-overlapping occurrences of `part` in `s`, `str.count`. */
  function CountOccurrences(s: string, part: string): nat
    requires part != ""
  {
    if |s| < |part| then 0
    else if s[..|part|] == part then 1 + CountOccurrences(s[|part|..], part)
    else CountOccurrences(s[1..], part)
  }

  /** A count is positive exactly when the text occurs. */
  lemma {:induction false} CountsIffContains(s: string, part: string)
    requires part != ""
    ensures CountOccurrences(s, part) > 0 <==> Contains(s, part)
  {
    if |s| < |part| {
    } else {
      if s[..|part|] == part {
        assert MatchesAt(s, part, 0);
      } else {
        CountsIffContains(s[1..], part);
        if Contains(s, part) {
          var i: nat :| i <= |s| && MatchesAt(s, part, i);
          assert i > 0;
          assert s[1..][i - 1..i - 1 + |part|] == s[i..i + |part|];
          assert MatchesAt(s[1..], part, i - 1);
        }
        if Contains(s[1..], part) {
          var i: nat :| i <= |s[1..]| && MatchesAt(s[1..], part, i);
          assert s[1..][i..i + |part|] == s[i + 1..i + 1 + |part|];
          assert MatchesAt(s, part, i + 1);
        }
      }
    }
  }

  /** Places at which `part` occurs in `s`, from left to right and without overlapping. */
  ghost predicate Occurrences(s: string, part: string, at: seq<nat>) {
    && (forall i | 0 <= i < |at| :: MatchesAt(s, part, at[i]))
    && forall i, j | 0 <= i < j < |at| :: at[i] + |part| <= at[j]
  }

  /** `n` is the greatest number of places at which `part` occurs in `s` without overlapping. */
  ghost predicate IsGreatestCount(s: string, part: string, n: nat) {
    && (exists at :: Occurrences(s, part, at) && |at| == n)
    && forall at | Occurrences(s, part, at) :: |at| <= n
  }

  function Moved(at: seq<nat>, shift: int): seq<nat>
    requires forall i | 0 <= i < |at| :: at[i] + shift >= 0
  {
    seq(|at|, i requires 0 <= i < |at| => at[i] + shift)
  }

  lemma MatchesFurtherOn(s: string, part: string, k: nat, i: nat)
    requires k <= |s|
    ensures MatchesAt(s[k..], part, i) <==> MatchesAt(s, part, k + i)
  {
    if k + i + |part| <= |s| {
      assert s[k..][i..i + |part|] == s[k + i..k + i + |part|];
    }
  }

  /** Places found further on are places in the whole, after one at the start if there is one. */
  lemma OccurrencesFromFurtherOn(s: string, part: string, k: nat, later: seq<nat>)
    requires part != "" && k <= |s| && Occurrences(s[k..], part, later)
    ensures Occurrences(s, part, Moved(later, k))
    ensures MatchesAt(s, part, 0) && k == |part| ==> Occurrences(s, part, [0] + Moved(later, k))
  {
    forall i | 0 <= i < |later| ensures MatchesAt(s, part, later[i] + k) {
      MatchesFurtherOn(s, part, k, later[i]);
    }
  }

  /** Places that all lie further on are places there. */
  lemma OccurrencesFurtherOn(s: string, part: string, k: int, at: seq<nat>)
    requires 0 <= k <= |s| && Occurrences(s, part, at) && forall i | 0 <= i < |at| :: at[i] >= k
    ensures Occurrences(s[k..], part, Moved(at, -k))
  {
    var moved := Moved(at, -k);
    forall i | 0 <= i < |moved| ensures MatchesAt(s[k..], part, moved[i]) {
      MatchesFurtherOn(s, part, k, moved[i]);
    }
  }

  /** Counting from the left finds that many occurrences. */
  lemma {:induction false} CountIsReached(s: string, part: string) returns (at: seq<nat>)
    requires part != ""
    ensures Occurrences(s, part, at) && |at| == CountOccurrences(s, part)
  {
    hide Occurrences;
    if |s| < |part| {
      at := [];
      NoOccurrences(s, part);
    } else if s[..|part|] == part {
      var later := CountIsReached(s[|part|..], part);
      assert s[0..|part|] == s[..|part|];
      OccurrencesFromFurtherOn(s, part, |part|, later);
      at := [0] + Moved(later, |part|);
    } else {
      var later := CountIsReached(s[1..], part);
      OccurrencesFromFurtherOn(s, part, 1, later);
      at := Moved(later, 1);
    }
  }

  lemma NoOccurrences(s: string, part: string)
    ensures Occurrences(s, part, [])
  {
  }

  /** Where the first place leaves room for the others. */
  lemma LaterPlaces(s: string, part: string, at: seq<nat>)
    requires part != "" && Occurrences(s, part, at) && at != []
    ensures |s| >= |part| && Occurrences(s, part, at[1..])
    ensures forall i | 0 <= i < |at[1..]| :: at[1..][i] >= |part|
    ensures s[..|part|] != part ==> forall i | 0 <= i < |at| :: at[i] >= 1
  {
    assert MatchesAt(s, part, at[0]);
    assert s[0..|part|] == s[..|part|];
    forall i | 0 <= i < |at[1..]| ensures at[1..][i] >= |part| {
      assert at[0] + |part| <= at[i + 1];
    }
  }

  /** No other choice of places finds more. */
  lemma {:induction false} CountIsNotExceeded(s: string, part: string, at: seq<nat>)
    requires part != "" && Occurrences(s, part, at)
    ensures |at| <= CountOccurrences(s, part)
  {
    hide Occurrences;
    if at == [] {
    } else {
      LaterPlaces(s, part, at);
      if s[..|part|] == part {
        OccurrencesFurtherOn(s, part, |part|, at[1..]);
        CountIsNotExceeded(s[|part|..], part, Moved(at[1..], -|part|));
      } else {
        OccurrencesFurtherOn(s, part, 1, at);
        CountIsNotExceeded(s[1..], part, Moved(at, -1));
      }
    }
  }

  /** The count is the greatest number of occurrences that do not overlap. */
  lemma CountIsGreatest(s: string, part: string)
    requires part != ""
    ensures IsGreatestCount(s, part, CountOccurrences(s, part))
  {
    var at := CountIsReached(s, part);
    forall at | Occurrences(s, part, at) ensures |at| <= CountOccurrences(s, part) {
      CountIsNotExceeded(s, part, at);
    }
  }

  /** A greatest count is unique. */
  lemma GreatestCountIsUnique(s: string, part: string, m: nat, n: nat)
    requires IsGreatestCount(s, part, m) && IsGreatestCount(s, part, n)
    ensures m == n
  {
    var a, b :| Occurrences(s, part, a) && |a| == m && Occurrences(s, part, b) && |b| == n;
  }

  function MatchesIn(content: string, query: string, fold: string -> string): nat {
    if fold(query) == "" then 0 else CountOccurrences(fold(content), fold(query))
  }

  /** The number a document is ranked by is the greatest count of the query in it, both case-folded. */
  lemma MatchesAreGreatest(content: string, query: string, fold: string -> string)
    requires fold(query) != ""
    ensures IsGreatestCount(fold(content), fold(query), MatchesIn(content, query, fold))
  {
    CountIsGreatest(fold(content), fold(query));
  }

  /** A listed document that can be read and mentions the query. */
  ghost predicate IsHit(repository: Repository, maxFiles: nat, query: string, fold: string -> string, d: Document) {
    && (exists ref :: ref in Listing(repository.tree, maxFiles) && ref.path == d.path)
    && repository.read(d.path) == Ok(d.content)
    && MatchesIn(d.content, query, fold) > 0
  }

  ghost predicate AllReadable(repository: Repository, maxFiles: nat) {
    forall ref | ref in Listing(repository.tree, maxFiles) :: repository.read(ref.path).Ok?
  }

  predicate IsArchitecture(d: Document) {
    Contains(Lower(d.path), "architecture")
  }

  lemma LowerContainsExactly(path: string, word: string)
    requires forall c | c in word :: c == '.' || 'a' <= c <= 'z'
    ensures Contains(Lower(path), word) <==> exists before, m, after :: SpelledIn(path, before, m, after, word)
  {
    hide Spells;
    var low := Lower(path);
    if Contains(low, word) {
      var i: nat :| i <= |low| && MatchesAt(low, word, i);
      assert low[i..i + |word|] == Lower(path[i..i + |word|]);
      LowerSpells(path[i..i + |word|], word);
      assert SpelledIn(path, path[..i], path[i..i + |word|], path[i + |word|..], word);
    }
    if before, m, after :| SpelledIn(path, before, m, after, word) {
      LowerSpells(m, word);
      assert low[|before|..|before| + |word|] == Lower(m);
      assert MatchesAt(low, word, |before|);
    }
  }

  /** The path spells out the word, capitals allowed. */
  lemma ArchitectureExactly(d: Document)
    ensures IsArchitecture(d) <==> exists before, m, after :: SpelledIn(d.path, before, m, after, "architecture")
  {
    hide Contains, Lower, SpelledIn;
    LowerContainsExactly(d.path, "architecture");
  }

  /** `a` ranks no later than `b`: more matches, or as many and a path that is not greater. */
  ghost predicate RanksNoLater(a: Document, b: Document, query: string, fold: string -> string) {
    var m, n := MatchesIn(a.content, query, fold), MatchesIn(b.content, query, fold);
    m > n || (m == n && !LexLess(b.path, a.path))
  }

  ghost predicate IsRanking(s: seq<SearchResult>, query: string, fold: string -> string) {
    forall i, j | 0 <= i < j < |s| :: RanksNoLater(s[i].document, s[j].document, query, fold)
  }

  function KeyedResult(r: SearchResult): Keyed<SearchResult> {
    Keyed(0 - r.matches, r.document.path, r)
  }

  /** The hits among the documents at `refs`, one for each that mentions the query, in order. */
  function Hits(
    repository: Repository, refs: seq<DocumentRef>, query: string, fold: string -> string): seq<SearchResult>
    requires forall ref | ref in refs :: repository.read(ref.path).Ok?
  {
    if refs == [] then []
    else
      var n := |refs| - 1;
      var content := repository.read(refs[n].path).value;
      var matches := MatchesIn(content, query, fold);
      Hits(repository, refs[..n], query, fold)
      + if matches > 0 then [SearchResult(Document(refs[n].path, content), matches)] else []
  }

  lemma {:induction false} HitsMembers(
    repository: Repository, refs: seq<DocumentRef>, query: string, fold: string -> string, x: SearchResult)
    requires forall ref | ref in refs :: repository.read(ref.path).Ok?
    ensures x in Hits(repository, refs, query, fold)
      <==> && (exists ref :: ref in refs && ref.path == x.document.path)
           && repository.read(x.document.path) == Ok(x.document.content)
           && x.matches == MatchesIn(x.document.content, query, fold) > 0
  {
    if refs == [] {
    } else {
      var n := |refs| - 1;
      HitsMembers(repository, refs[..n], query, fold, x);
      assert refs == refs[..n] + [refs[n]];
      if ref :| ref in refs && ref.path == x.document.path && ref !in refs[..n] {
        assert ref == refs[n];
      }
      assert refs[n] in refs;
    }
  }

  /** The results with their keys, in the order given. */
  function KeyedResults(s: seq<SearchResult>): seq<Keyed<SearchResult>> {
    seq(|s|, i requires 0 <= i < |s| => KeyedResult(s[i]))
  }

  /** Keys add nothing to results: each occurs as often with its key as without. */
  lemma {:induction false} KeysKeepMultiplicity<T>(s: seq<Keyed<T>>, key: T -> Keyed<T>, x: T)
    requires key(x).item == x && forall y | y in s :: y == key(y.item)
    ensures multiset(Unkeyed(s))[x] == multiset(s)[key(x)]
  {
    if s == [] {
    } else {
      var n := |s| - 1;
      KeysKeepMultiplicity(s[..n], key, x);
      assert s == s[..n] + [s[n]] && Unkeyed(s) == Unkeyed(s[..n]) + [s[n].item];
      assert s[n] in s;
    }
  }

  function KeyedRef(ref: DocumentRef): Keyed<DocumentRef> {
    Keyed(0, ref.path, ref)
  }

  function RefOf(item: TreeItem): DocumentRef {
    DocumentRef(item.path, item.size)
  }

  /** The positions of the eligible entries. */
  function EligibleAt(tree: seq<TreeItem>): (at: seq<nat>)
    ensures forall k | 0 <= k < |at| :: at[k] < |tree|
  {
    if tree == [] then []
    else EligibleAt(tree[..|tree| - 1]) + (if Eligible(tree[|tree| - 1]) then [|tree| - 1] else [])
  }

  lemma {:induction false} EligibleAtExactly(tree: seq<TreeItem>, i: nat)
    ensures i in EligibleAt(tree) <==> i < |tree| && Eligible(tree[i])
  {
    hide Eligible;
    if tree == [] {
    } else {
      EligibleAtExactly(tree[..|tree| - 1], i);
    }
  }

  ghost predicate Ascends(at: seq<nat>) {
    forall j, k | 0 <= j < k < |at| :: at[j] < at[k]
  }

  lemma {:induction false} EligibleAtAscends(tree: seq<TreeItem>)
    ensures Ascends(EligibleAt(tree))
  {
    hide Eligible;
    if tree == [] {
    } else {
      var n := |tree| - 1;
      EligibleAtAscends(tree[..n]);
      var before, at := EligibleAt(tree[..n]), EligibleAt(tree);
      assert at == before || at == before + [n];
      assert forall k | 0 <= k < |before| :: before[k] < n;
    }
  }

  lemma {:induction false} EligibleRefsAreThere(tree: seq<TreeItem>)
    ensures |EligibleRefs(tree)| == |EligibleAt(tree)|
    ensures forall k | 0 <= k < |EligibleAt(tree)| ::
        EligibleRefs(tree)[k] == KeyedRef(RefOf(tree[EligibleAt(tree)[k]]))
  {
    hide Eligible;
    if tree == [] {
    } else {
      var n := |tree| - 1;
      EligibleRefsAreThere(tree[..n]);
      forall k | 0 <= k < |EligibleAt(tree)|
        ensures EligibleRefs(tree)[k] == KeyedRef(RefOf(tree[EligibleAt(tree)[k]]))
      {
        if k < |EligibleAt(tree[..n])| {
          assert tree[..n][EligibleAt(tree[..n])[k]] == tree[EligibleAt(tree)[k]];
        }
      }
    }
  }

  /** The references of the first entries of the tree that are eligible, no more than `maxFiles`. */
  function FirstEligible(tree: seq<TreeItem>, maxFiles: nat): seq<DocumentRef> {
    var at := FirstAtMost(EligibleAt(tree), maxFiles);
    seq(|at|, k requires 0 <= k < |at| => RefOf(tree[at[k]]))
  }

  /** Sorting keyed references by path rearranges them. */
  lemma SortedRefs(keyed: seq<Keyed<DocumentRef>>)
    requires forall y | y in keyed :: y == KeyedRef(y.item)
    ensures
      var sorted := Unkeyed(Sort(keyed));
      && multiset(sorted) == multiset(Unkeyed(keyed)) && |sorted| == |keyed|
      && forall i, j | 0 <= i < j < |sorted| :: !LexLess(sorted[j].path, sorted[i].path)
  {
    hide Sort, LexLess;
    SortSorts(keyed);
    var sorted := Sort(keyed);
    forall x: DocumentRef ensures multiset(Unkeyed(sorted))[x] == multiset(Unkeyed(keyed))[x] {
      KeysKeepMultiplicity(sorted, KeyedRef, x);
      KeysKeepMultiplicity(keyed, KeyedRef, x);
    }
    forall i, j | 0 <= i < j < |sorted| ensures !LexLess(Unkeyed(sorted)[j].path, Unkeyed(sorted)[i].path) {
      assert !Before(sorted[j], sorted[i]);
      assert sorted[i] in sorted && sorted[j] in sorted;
    }
  }

  /** The listing rearranges the first eligible entries by path. */
  lemma ListingExactly(tree: seq<TreeItem>, maxFiles: nat)
    ensures
      var listing := Listing(tree, maxFiles);
      && multiset(listing) == multiset(FirstEligible(tree, maxFiles))
      && |listing| == (if |EligibleAt(tree)| <= maxFiles then |EligibleAt(tree)| else maxFiles)
      && forall i, j | 0 <= i < j < |listing| :: !LexLess(listing[j].path, listing[i].path)
    ensures
      var at := EligibleAt(tree);
      Ascends(at) && forall i: nat :: i in at <==> i < |tree| && Eligible(tree[i])
  {
    hide Sort, Eligible, EligibleAt, EligibleRefs, LexLess, Ascends;
    var keyed := FirstAtMost(EligibleRefs(tree), maxFiles);
    forall i: nat ensures i in EligibleAt(tree) <==> i < |tree| && Eligible(tree[i]) {
      EligibleAtExactly(tree, i);
    }
    EligibleAtAscends(tree);
    EligibleRefsAreThere(tree);
    assert Unkeyed(keyed) == FirstEligible(tree, maxFiles);
    SortedRefs(keyed);
  }

  /** Sorting by rank and path rearranges the results and ranks them. */
  lemma SortedResults(hits: seq<SearchResult>, query: string, fold: string -> string)
    requires forall x | x in hits :: x.matches == MatchesIn(x.document.content, query, fold)
    ensures
      var sorted := Unkeyed(Sort(KeyedResults(hits)));
      multiset(sorted) == multiset(hits) && IsRanking(sorted, query, fold)
  {
    hide Sort, MatchesIn;
    var keyed := KeyedResults(hits);
    SortSorts(keyed);
    var sorted := Sort(keyed);
    forall y | y in sorted ensures y == KeyedResult(y.item) && y.item in hits {
      assert y in keyed;
    }
    forall x: SearchResult ensures multiset(Unkeyed(sorted))[x] == multiset(hits)[x] {
      KeysKeepMultiplicity(sorted, KeyedResult, x);
      KeysKeepMultiplicity(keyed, KeyedResult, x);
      assert Unkeyed(keyed) == hits;
    }
    forall i, j | 0 <= i < j < |sorted|
      ensures RanksNoLater(Unkeyed(sorted)[i].document, Unkeyed(sorted)[j].document, query, fold)
    {
      assert !Before(sorted[j], sorted[i]);
      assert sorted[i] in sorted && sorted[j] in sorted;
    }
  }

  lemma SameMultisetSameMembers<T>(s: seq<T>, t: seq<T>, x: T)
    requires multiset(s) == multiset(t)
    ensures x in s <==> x in t
  {
    assert x in multiset(s) <==> x in multiset(t);
  }

  class YasinDocsAdapter {
    const repository: Repository
    const maxFiles: nat
    const fold: string -> string   // str.casefold

    ghost predicate Valid() {
      1 <= maxFiles <= 200
    }

    constructor (repository: Repository, maxFiles: nat, fold: string -> string)
      requires 1 <= maxFiles <= 200
      ensures Valid() && this.repository == repository && this.maxFiles == maxFiles && this.fold == fold
    {
      this.repository, this.maxFiles, this.fold := repository, maxFiles, fold;
    }

    /** The listing stops early, yet is the path-sorted first `maxFiles` eligible entries of the whole tree. */
    method ListDocuments() returns (r: Result<seq<DocumentRef>, McpError>)
      requires Valid()
      ensures repository.truncated ==> r.Err? && r.error.kind == UpstreamError
      ensures !repository.truncated ==> r == Ok(Listing(repository.tree, maxFiles))
    {
      if repository.truncated {
        return Err(Fault(UpstreamError, "YASIN-DOCS tree response was truncated"));
      }
      var refs: seq<Keyed<DocumentRef>> := [];
      var i := 0;
      while i < |repository.tree| && |refs| < maxFiles
        invariant 0 <= i <= |repository.tree| && |refs| <= maxFiles
        invariant refs == EligibleRefs(repository.tree[..i])
      {
        assert repository.tree[..i + 1][..i] == repository.tree[..i];
        var item := repository.tree[i];
        if Eligible(item) {
          refs := refs + [Keyed(0, item.path, DocumentRef(item.path, item.size))];
        }
        i := i + 1;
      }
      EligibleRefsOfPrefix(repository.tree, i);
      assert repository.tree[..|repository.tree|] == repository.tree;
      assert refs == FirstAtMost(EligibleRefs(repository.tree), maxFiles);
      return Ok(Unkeyed(Sort(refs)));
    }

    ghost predicate CanSearch(query: string) {
      fold(Strip(query)) != "" && !repository.truncated && AllReadable(repository, maxFiles)
    }

    /**
     * Why a search fails: nothing to search for, a truncated tree, or the first listed document that
     * cannot be read.
     */
    ghost predicate SearchFault(query: string, error: McpError) {
      if fold(Strip(query)) == "" then error.kind == ValidationError
      else if repository.truncated then error.kind == UpstreamError
      else
        var refs := Listing(repository.tree, maxFiles);
        exists i :: 0 <= i < |refs| && repository.read(refs[i].path) == Err(error)
                 && forall j | 0 <= j < i :: repository.read(refs[j].path).Ok?
    }

    lemma FaultIgnoresPadding(query: string, error: McpError)
      ensures SearchFault(Strip(query), error) <==> SearchFault(query, error)
    {
      hide Strip, Listing;
      StripIdempotent(query);
    }

    /**
     * Exactly the hits, each as often as it is listed, in ranking order; the first unreadable document
     * aborts the search.
     */
    method SearchDocs(query: string) returns (r: Result<seq<SearchResult>, McpError>)
      requires Valid()
      ensures r.Ok? <==> CanSearch(query)
      ensures r.Ok? ==>
          multiset(r.value) == multiset(Hits(repository, Listing(repository.tree, maxFiles), Strip(query), fold))
      ensures r.Ok? ==> forall x :: x in r.value <==> IsResult(x, query)
      ensures r.Ok? ==> IsRanking(r.value, Strip(query), fold)
      ensures r.Ok? ==> Counted(r.value, query)
      ensures r.Err? ==> SearchFault(query, r.error)
    {
      hide Listing, Sort, Counted;
      var normalized := fold(Strip(query));
      if normalized == "" {
        return Err(Fault(ValidationError, "query must not be empty"));
      }
      var listed := ListDocuments();
      if listed.Err? {
        return Err(listed.error);
      }
      var refs := listed.value;
      var results: seq<SearchResult> := [];
      var i := 0;
      while i < |refs|
        invariant 0 <= i <= |refs|
        invariant forall ref | ref in refs[..i] :: repository.read(ref.path).Ok?
        invariant results == Hits(repository, refs[..i], Strip(query), fold)
      {
        var content := repository.read(refs[i].path);
        if content.Err? {
          assert refs[i] in refs;
          assert forall j | 0 <= j < i :: refs[j] in refs[..i];
          return Err(content.error);
        }
        assert refs[..i + 1] == refs[..i] + [refs[i]] && refs[..i + 1][..i] == refs[..i];
        var matches := CountOccurrences(fold(content.value), normalized);
        if matches > 0 {
          results := results + [SearchResult(Document(refs[i].path, content.value), matches)];
        }
        i := i + 1;
      }
      assert refs[..i] == refs;
      r := Ok(Unkeyed(Sort(KeyedResults(results))));
      forall x ensures x in results <==> IsResult(x, query) {
        HitsMembers(repository, refs, Strip(query), fold, x);
      }
      SortedResults(results, Strip(query), fold);
      forall x ensures x in r.value <==> x in results {
        SameMultisetSameMembers(r.value, results, x);
      }
      ResultsAreCounted(r.value, query);
    }

    ghost predicate Counted(results: seq<SearchResult>, query: string) {
      forall x | x in results :: IsGreatestCount(fold(x.document.content), fold(Strip(query)), x.matches)
    }

    lemma ResultsAreCounted(results: seq<SearchResult>, query: string)
      requires fold(Strip(query)) != "" && forall x | x in results :: IsResult(x, query)
      ensures Counted(results, query)
    {
      hide IsGreatestCount, IsHit;
      forall x | x in results ensures IsGreatestCount(fold(x.document.content), fold(Strip(query)), x.matches) {
        CountIsGreatest(fold(x.document.content), fold(Strip(query)));
      }
    }

    ghost predicate IsResult(x: SearchResult, query: string) {
      && IsHit(repository, maxFiles, Strip(query), fold, x.document)
      && x.matches == MatchesIn(x.document.content, Strip(query), fold)
    }

    /**
     * Scanning the ranking for the first architecture document finds the best one: among the
     * listed documents that mention the project and have `architecture` in their path, the one
     * with most matches, ties broken by least path. `NotFound` means there is none, or that
     * reading a listed document said so.
     */
    method GetProjectArchitecture(project: string) returns (r: Result<Document, McpError>)
      requires Valid()
      ensures r.Ok? ==>
        && IsHit(repository, maxFiles, Strip(project), fold, r.value) && IsArchitecture(r.value)
        && forall d | IsHit(repository, maxFiles, Strip(project), fold, d) && IsArchitecture(d) ::
             RanksNoLater(r.value, d, Strip(project), fold)
      ensures Strip(project) != "" && CanSearch(project) ==>
        && (r.Err? <==> forall d :: !(IsHit(repository, maxFiles, Strip(project), fold, d) && IsArchitecture(d)))
        && (r.Err? ==> r.error.kind == NotFound)
      ensures !(Strip(project) != "" && CanSearch(project)) ==>
        r.Err? && if Strip(project) == "" then r.error.kind == ValidationError else SearchFault(project, r.error)
    {
      hide Listing, Counted, SearchFault, Strip, Lower, MatchesAt;
      var normalized := Strip(project);
      if normalized == "" {
        return Err(Fault(ValidationError, "project must not be empty"));
      }
      StripIdempotent(project);
      var searched := SearchDocs(normalized);
      if searched.Err? {
        FaultIgnoresPadding(project, searched.error);
        return Err(searched.error);
      }
      var matches := searched.value;
      var i := 0;
      while i < |matches|
        invariant 0 <= i <= |matches|
        invariant forall k | 0 <= k < i :: !IsArchitecture(matches[k].document)
      {
        var document := matches[i].document;
        if IsArchitecture(document) {
          assert matches[i] in matches;
          CountsIffContains(fold(document.content), fold(normalized));
          // The content is checked again, but a search result always passes.
          if Contains(fold(document.content), fold(normalized)) {
            forall d | IsHit(repository, maxFiles, normalized, fold, d) && IsArchitecture(d)
              ensures RanksNoLater(document, d, normalized, fold)
            {
              Ranked(matches, i, d, normalized, fold);
            }
            return Ok(document);
          }
        }
        i := i + 1;
      }
      forall d ensures !(IsHit(repository, maxFiles, normalized, fold, d) && IsArchitecture(d)) {
        if IsHit(repository, maxFiles, normalized, fold, d) {
          assert SearchResult(d, MatchesIn(d.content, normalized, fold)) in matches;
        }
      }
      return Err(Fault(NotFound, "No architecture document was found"));
    }
  }

  /** In a ranking whose first architecture document is at `i`, no other one ranks before it. */
  lemma Ranked(matches: seq<SearchResult>, i: nat, d: Document, query: string, fold: string -> string)
    requires i < |matches| && SearchResult(d, MatchesIn(d.content, query, fold)) in matches && IsArchitecture(d)
    requires forall k | 0 <= k < i :: !IsArchitecture(matches[k].document)
    requires IsRanking(matches, query, fold)
    ensures RanksNoLater(matches[i].document, d, query, fold)
  {
    var n :| 0 <= n < |matches| && matches[n] == SearchResult(d, MatchesIn(d.content, query, fold));
    if n == i && LexLess(d.path, d.path) {
      LexAsymmetric(d.path, d.path);
    }
  }
}

/**
 * Knowledge loading and keyword retrieval: loaders chosen by the shape of
 * the source name, a retriever that ranks stored content by word overlap
 * with the query, and a manager that loads sources, keeps statistics and
 * formats what it finds for a prompt. Reading files and fetching URLs are
 * left to a `load` function supplied by the caller.
 */
module Knowledge {
  import opened Models
  import Text

  /**
   * One loaded piece of knowledge, as the dictionary a loader returns. An
   * absent `error` and an empty one are alike to every reader, so both are
   * "", and an absent `size` or `file_count` reads as 0.
   */
  datatype Content = Content(
    source: Option<string>,
    text: string,
    error: string,
    kind: Option<string>,
    size: nat,
    fileCount: nat)

  datatype Loader = FileLoader(maxFileSize: nat) | UrlLoader(timeout: nat)

  /** What asking a loader to load a source does: return a content record, or raise. */
  datatype LoadOutcome = Loaded(content: Content) | LoadRaised(error: string)

  predicate IsUrl(source: string) {
    "http://" <= source || "https://" <= source
  }

  function CanLoad(loader: Loader, source: string): bool {
    match loader
    case FileLoader(_) => !IsUrl(source)
    case UrlLoader(_) => IsUrl(source)
  }

  /** Every source is claimed by exactly one of the two loader kinds. */
  lemma LoadersPartitionSources(source: string, fileLoader: Loader, urlLoader: Loader)
    requires fileLoader.FileLoader? && urlLoader.UrlLoader?
    ensures CanLoad(fileLoader, source) != CanLoad(urlLoader, source)
    ensures CanLoad(urlLoader, source) <==> ("http://" <= source || "https://" <= source)
  {
  }

  const TruncationMarker := "... (truncated)"

  /** The size rule of `_load_file`: text over the limit keeps its first `maxSize` characters and gains a marker. */
  function Truncated(content: string, maxSize: nat): (r: string)
    ensures |content| <= maxSize ==> r == content
    ensures |content| > maxSize ==>
      |r| == maxSize + |TruncationMarker| && r[..maxSize] == content[..maxSize] && r[maxSize..] == TruncationMarker
  {
    if |content| > maxSize then content[..maxSize] + TruncationMarker else content
  }

  /** Truncating already truncated text changes nothing. */
  lemma TruncationIsIdempotent(content: string, maxSize: nat)
    ensures Truncated(Truncated(content, maxSize), maxSize) == Truncated(content, maxSize)
  {
    var r := Truncated(content, maxSize);
    if |content| > maxSize {
      assert r[..maxSize] + TruncationMarker == r;
    }
  }

  // ===== Retrieval =====

  /** Entries with an error or without text are never retrieved. */
  predicate Searchable(c: Content) {
    c.error == "" && c.text != ""
  }

  /** The number of distinct words the query and the content share, ignoring case. */
  function Overlap(query: string, c: Content): nat {
    |Text.Words(Text.Lower(query)) * Text.Words(Text.Lower(c.text))|
  }

  /** The score `retrieve` gives each entry for `query`. */
  function ScoreFor(query: string): Content -> nat {
    c => Overlap(query, c)
  }

  /** A candidate: its overlap score, its position in the store and the content. */
  datatype Scored = Scored(score: nat, index: nat, content: Content)

  /** Everything in `s` is a searchable store entry with positive overlap, scored correctly. */
  ghost predicate WellScored(s: seq<Scored>, store: seq<Content>, score: Content -> nat) {
    forall k :: 0 <= k < |s| ==>
      && s[k].index < |store| && store[s[k].index] == s[k].content
      && Searchable(s[k].content) && s[k].score == score(s[k].content) && s[k].score > 0
  }

  /** The scored list before sorting: every searchable entry with a positive score, in store order. */
  function Candidates(store: seq<Content>, score: Content -> nat): (cs: seq<Scored>)
    ensures |cs| <= |store|
  {
    if store == [] then []
    else
      var n := |store| - 1;
      Candidates(store[..n], score)
      + (if Searchable(store[n]) && score(store[n]) > 0 then [Scored(score(store[n]), n, store[n])] else [])
  }

  /** Each candidate is the store entry at its index, searchable and carrying its score. */
  lemma {:induction false} CandidatesWellScored(store: seq<Content>, score: Content -> nat)
    ensures WellScored(Candidates(store, score), store, score)
  {
    if store != [] {
      var n := |store| - 1;
      var before := Candidates(store[..n], score);
      CandidatesWellScored(store[..n], score);
      forall k | 0 <= k < |before| ensures store[before[k].index] == before[k].content {
        assert store[..n][before[k].index] == store[before[k].index];
      }
    }
  }

  /** Store positions strictly increase along `s`. */
  ghost predicate IndexIncreasing(s: seq<Scored>) {
    forall k, l :: 0 <= k < l < |s| ==> s[k].index < s[l].index
  }

  /** `s` lists positions below `n`, in increasing order. */
  ghost predicate StoreOrdered(s: seq<Scored>, n: nat) {
    (forall k :: 0 <= k < |s| ==> s[k].index < n) && IndexIncreasing(s)
  }

  /** Candidates appear in store order, each within the store. */
  lemma {:induction false} CandidatesInStoreOrder(store: seq<Content>, score: Content -> nat)
    ensures StoreOrdered(Candidates(store, score), |store|)
  {
    if store != [] {
      var n := |store| - 1;
      CandidatesInStoreOrder(store[..n], score);
      var before := Candidates(store[..n], score);
      assert |store[..n]| == n;
      assert StoreOrdered(before, n);
      var cs := Candidates(store, score);
      var last := if Searchable(store[n]) && score(store[n]) > 0 then [Scored(score(store[n]), n, store[n])] else [];
      assert cs == before + last;
      forall k | 0 <= k < |cs| ensures cs[k].index < |store| && (k < |before| ==> cs[k] == before[k] && cs[k].index < n) {
        if k >= |before| {
          assert cs[k] == last[0];
        }
      }
      forall k, l | 0 <= k < l < |cs| ensures cs[k].index < cs[l].index {
        if l >= |before| {
          assert cs[l] == last[0];
        }
      }
    }
  }

  /** Every searchable entry with a positive score is a candidate. */
  lemma {:induction false} CandidatesComplete(store: seq<Content>, score: Content -> nat, i: nat)
    requires i < |store| && Searchable(store[i]) && score(store[i]) > 0
    ensures Scored(score(store[i]), i, store[i]) in Candidates(store, score)
  {
    var n := |store| - 1;
    if i < n {
      CandidatesComplete(store[..n], score, i);
      assert store[..n][i] == store[i];
    }
  }

  /** An empty query shares no word with anything. */
  lemma {:induction false} NoCandidatesForEmptyQuery(store: seq<Content>, query: string)
    requires Text.Words(Text.Lower(query)) == {}
    ensures Candidates(store, ScoreFor(query)) == []
  {
    if store != [] {
      NoCandidatesForEmptyQuery(store[..|store| - 1], query);
      assert ScoreFor(query)(store[|store| - 1]) == 0;
    }
  }

  /** Ranking order: a higher score first, and among equal scores the earlier entry first. */
  predicate Before(a: Scored, b: Scored) {
    a.score > b.score || (a.score == b.score && a.index < b.index)
  }

  ghost predicate Ranked(s: seq<Scored>) {
    forall k, l :: 0 <= k < l < |s| ==> Before(s[k], s[l])
  }

  /** Places `x` after every element scoring at least as much: one step of a stable descending sort. */
  function InsertRanked(x: Scored, s: seq<Scored>): (r: seq<Scored>)
    ensures multiset(r) == multiset(s) + multiset{x}
    ensures |r| == |s| + 1
  {
    if s == [] || x.score > s[0].score then [x] + s
    else
      assert s == [s[0]] + s[1..];
      [s[0]] + InsertRanked(x, s[1..])
  }

  /** Inserting an entry that comes later in the store than everything ranked keeps the ranking. */
  lemma {:induction false} InsertKeepsRanked(x: Scored, s: seq<Scored>)
    requires Ranked(s)
    requires forall k :: 0 <= k < |s| ==> s[k].index < x.index
    ensures Ranked(InsertRanked(x, s))
  {
    if s == [] || x.score > s[0].score {
      var r := [x] + s;
      forall k, l | 0 <= k < l < |r| ensures Before(r[k], r[l]) {
        if k == 0 {
          assert r[l] == s[l - 1];
          if l > 1 {
            assert Before(s[0], s[l - 1]);
          }
        } else {
          assert Before(s[k - 1], s[l - 1]);
        }
      }
    } else {
      var tail := s[1..];
      assert Ranked(tail) by {
        forall k, l | 0 <= k < l < |tail| ensures Before(tail[k], tail[l]) {
          assert Before(s[k + 1], s[l + 1]);
        }
      }
      InsertKeepsRanked(x, tail);
      var rest := InsertRanked(x, tail);
      var r := [s[0]] + rest;
      forall k, l | 0 <= k < l < |r| ensures Before(r[k], r[l]) {
        if k == 0 {
          var y := rest[l - 1];
          assert y in multiset(rest);
          if y != x {
            assert y in multiset(tail);
            assert y in tail;
            var j :| 0 <= j < |tail| && tail[j] == y;
            assert Before(s[0], s[j + 1]);
          }
        } else {
          assert Before(rest[k - 1], rest[l - 1]);
        }
      }
    }
  }

  /** `scored_content.sort(key=score, reverse=True)`: Python's sort is stable, so this inserts in store order. */
  function SortByScore(xs: seq<Scored>): (r: seq<Scored>)
    ensures multiset(r) == multiset(xs) && |r| == |xs|
  {
    if xs == [] then []
    else
      assert xs == xs[..|xs| - 1] + [xs[|xs| - 1]];
      InsertRanked(xs[|xs| - 1], SortByScore(xs[..|xs| - 1]))
  }

  /**
   * Sorting candidates listed in store order ranks them: scores never
   * increase, and equal scores keep store order.
   */
  lemma {:induction false} SortRanks(xs: seq<Scored>)
    requires IndexIncreasing(xs)
    ensures Ranked(SortByScore(xs))
  {
    if xs != [] {
      var n := |xs| - 1;
      var prefix := xs[..n];
      SortRanks(prefix);
      var sorted := SortByScore(prefix);
      forall k | 0 <= k < |sorted| ensures sorted[k].index < xs[n].index {
        assert sorted[k] in multiset(prefix);
        assert sorted[k] in prefix;
        var j :| 0 <= j < |prefix| && prefix[j] == sorted[k];
      }
      InsertKeepsRanked(xs[n], sorted);
    }
  }

  /** A permutation of well-scored candidates is well scored. */
  lemma PermutationKeepsScores(s: seq<Scored>, t: seq<Scored>, store: seq<Content>, score: Content -> nat)
    requires WellScored(s, store, score) && multiset(t) == multiset(s)
    ensures WellScored(t, store, score)
  {
    forall k | 0 <= k < |t|
      ensures t[k].index < |store| && store[t[k].index] == t[k].content
      ensures Searchable(t[k].content) && t[k].score == score(t[k].content) && t[k].score > 0
    {
      assert t[k] in multiset(s);
      assert t[k] in s;
      var j :| 0 <= j < |s| && s[j] == t[k];
    }
  }

  /** `s[:k]`, with Python's meaning for a negative `k`: all but the last `-k`. */
  function SliceTo<T>(s: seq<T>, k: int): (r: seq<T>)
    ensures r <= s
    ensures k >= 0 ==> |r| == if k < |s| then k else |s|
    ensures k < 0 ==> |r| == if |s| + k > 0 then |s| + k else 0
  {
    if k >= 0 then (if k < |s| then s[..k] else s)
    else if |s| + k > 0 then s[..|s| + k] else []
  }

  function Contents(s: seq<Scored>): (cs: seq<Content>)
    ensures |cs| == |s| && forall k :: 0 <= k < |s| ==> cs[k] == s[k].content
  {
    seq(|s|, k requires 0 <= k < |s| => s[k].content)
  }

  function Indices(s: seq<Scored>): (ix: seq<nat>)
    ensures |ix| == |s| && forall k :: 0 <= k < |s| ==> ix[k] == s[k].index
  {
    seq(|s|, k requires 0 <= k < |s| => s[k].index)
  }

  /** The ranked candidates `retrieve` returns, before dropping scores. */
  function Retrieved(store: seq<Content>, query: string, maxResults: int): seq<Scored> {
    SliceTo(SortByScore(Candidates(store, ScoreFor(query))), maxResults)
  }

  /** What `retrieve` returns, as a function of the store. */
  function RetrievedContents(store: seq<Content>, query: string, maxResults: int): seq<Content> {
    Contents(Retrieved(store, query, maxResults))
  }

  /** A ranked prefix of the sorted candidates, for any scoring. */
  lemma TopOfSortedIsRanked(store: seq<Content>, score: Content -> nat, maxResults: int)
    ensures var r := SliceTo(SortByScore(Candidates(store, score)), maxResults);
      WellScored(r, store, score) && Ranked(r)
  {
    var cands := Candidates(store, score);
    CandidatesWellScored(store, score);
    SortedCandidatesRanked(store, score);
    var sorted := SortByScore(cands);
    PermutationKeepsScores(cands, sorted, store, score);
    PrefixKeepsRanking(sorted, SliceTo(sorted, maxResults), store, score);
  }

  /** A prefix of a well-scored ranking is a well-scored ranking. */
  lemma PrefixKeepsRanking(s: seq<Scored>, r: seq<Scored>, store: seq<Content>, score: Content -> nat)
    requires WellScored(s, store, score) && Ranked(s) && r <= s
    ensures WellScored(r, store, score) && Ranked(r)
  {
    assert forall k :: 0 <= k < |r| ==> r[k] == s[k];
  }

  /** The sorted candidates are ranked. */
  lemma SortedCandidatesRanked(store: seq<Content>, score: Content -> nat)
    ensures Ranked(SortByScore(Candidates(store, score)))
  {
    CandidatesInStoreOrder(store, score);
    SortRanks(Candidates(store, score));
  }

  /** Every searchable entry with a positive score survives the sort. */
  lemma SortedCandidatesComplete(store: seq<Content>, score: Content -> nat, i: nat)
    requires i < |store| && Searchable(store[i]) && score(store[i]) > 0
    ensures Scored(score(store[i]), i, store[i]) in SortByScore(Candidates(store, score))
  {
    CandidatesComplete(store, score, i);
    assert Scored(score(store[i]), i, store[i]) in multiset(Candidates(store, score));
  }

  /** In a ranked list, an element missing from a prefix ranks below everything in the prefix. */
  lemma LeftOutOfPrefix(sorted: seq<Scored>, r: seq<Scored>, x: Scored)
    requires Ranked(sorted) && r <= sorted && x in sorted && x.index !in Indices(r)
    ensures forall k :: 0 <= k < |r| ==> Before(r[k], x)
  {
    var p :| 0 <= p < |sorted| && sorted[p] == x;
    forall k | 0 <= k < |r| ensures sorted[k] != x {
      assert Indices(r)[k] == r[k].index;
      assert r[k] == sorted[k];
    }
    assert |r| <= p;
    forall k | 0 <= k < |r| ensures Before(r[k], x) {
      assert r[k] == sorted[k];
    }
  }

  /** An eligible entry left out of the prefix ranks below every entry in it, for any scoring. */
  lemma LeftOutRanksLower(store: seq<Content>, score: Content -> nat, maxResults: int, i: nat)
    requires i < |store| && Searchable(store[i]) && score(store[i]) > 0
    requires i !in Indices(SliceTo(SortByScore(Candidates(store, score)), maxResults))
    ensures var r := SliceTo(SortByScore(Candidates(store, score)), maxResults);
      forall k :: 0 <= k < |r| ==> Before(r[k], Scored(score(store[i]), i, store[i]))
  {
    var sorted := SortByScore(Candidates(store, score));
    SortedCandidatesComplete(store, score, i);
    SortedCandidatesRanked(store, score);
    LeftOutOfPrefix(sorted, SliceTo(sorted, maxResults), Scored(score(store[i]), i, store[i]));
  }

  /** The retrieved entries are store entries without error, sharing words with the query, in ranking order. */
  lemma RetrievedIsRanked(store: seq<Content>, query: string, maxResults: int)
    ensures WellScored(Retrieved(store, query, maxResults), store, ScoreFor(query))
    ensures Ranked(Retrieved(store, query, maxResults))
  {
    TopOfSortedIsRanked(store, ScoreFor(query), maxResults);
  }

  /**
   * Top-k: an entry without error that shares words with the query but was
   * not retrieved ranks below every entry that was.
   */
  lemma RetrievedIsTop(store: seq<Content>, query: string, maxResults: int, i: nat)
    requires i < |store| && Searchable(store[i]) && Overlap(query, store[i]) > 0
    requires i !in Indices(Retrieved(store, query, maxResults))
    ensures var r := Retrieved(store, query, maxResults);
      forall k :: 0 <= k < |r| ==> Before(r[k], Scored(Overlap(query, store[i]), i, store[i]))
  {
    assert ScoreFor(query)(store[i]) == Overlap(query, store[i]);
    LeftOutRanksLower(store, ScoreFor(query), maxResults, i);
  }

  /** The retrieval text is empty exactly when nothing was retrieved, since every retrieved entry has text. */
  lemma KnowledgeTextEmptyIffNothing(relevant: seq<Content>)
    requires forall k :: 0 <= k < |relevant| ==> relevant[k].text != ""
    ensures Text.Join(KnowledgeParts(relevant, 1), "\n\n") == "" <==> relevant == []
  {
    var parts := KnowledgeParts(relevant, 1);
    if relevant != [] {
      assert parts == [KnowledgePart(1, relevant[0])] + KnowledgeParts(relevant[1..], 2);
      assert |parts[0]| > 0;
      Text.JoinStartsWithFirst(parts, "\n\n");
    }
  }

  /**
   * The loop at the end of `retrieve_for_query`: one numbered block per
   * retrieved entry with text, separated by blank lines.
   */
  method KnowledgeText(relevant: seq<Content>) returns (text: string)
    ensures text == Text.Join(KnowledgeParts(relevant, 1), "\n\n")
  {
    var parts: seq<string> := [];
    var i := 0;
    while i < |relevant|
      invariant 0 <= i <= |relevant|
      invariant parts + KnowledgeParts(relevant[i..], i + 1) == KnowledgeParts(relevant, 1)
    {
      KnowledgePartsStep(relevant, i, parts);
      parts := parts + KnowledgeBlock(i + 1, relevant[i]);
      i := i + 1;
    }
    assert KnowledgeParts(relevant[i..], i + 1) == [];
    assert parts + [] == parts;
    text := Text.Join(parts, "\n\n");
  }

  class SimpleRetriever {
    var contentStore: seq<Content>

    constructor ()
      ensures contentStore == []
    {
      contentStore := [];
    }

    /** `add_content`: exactly one entry, at the end. */
    method AddContent(content: Content)
      modifies this
      ensures contentStore == old(contentStore) + [content]
    {
      contentStore := contentStore + [content];
    }

    /**
     * `retrieve`: the entries without error and with text whose words
     * overlap the query's, ignoring case, ranked by overlap with ties in
     * store order, cut to `maxResults` by Python slicing. `picked` gives the
     * store position of each result.
     */
    method Retrieve(query: string, maxResults: int) returns (results: seq<Content>, ghost picked: seq<nat>)
      ensures results == RetrievedContents(contentStore, query, maxResults)
      ensures query == "" || contentStore == [] ==> results == []
      ensures |picked| == |results| && (maxResults >= 0 ==> |results| <= maxResults)
      ensures forall k :: 0 <= k < |results| ==>
        && picked[k] < |contentStore| && contentStore[picked[k]] == results[k]
        && Searchable(results[k]) && Overlap(query, results[k]) > 0
      ensures forall k, l :: 0 <= k < l < |results| ==>
        || Overlap(query, results[k]) > Overlap(query, results[l])
        || (Overlap(query, results[k]) == Overlap(query, results[l]) && picked[k] < picked[l])
    {
      RetrievedIsRanked(contentStore, query, maxResults);
      picked := Indices(Retrieved(contentStore, query, maxResults));
      if query == "" || contentStore == [] {
        if query == "" {
          assert Text.Lower(query) == [];
          assert Text.Tokens([], []) == [];
          assert Text.Words(Text.Lower(query)) == {};
          NoCandidatesForEmptyQuery(contentStore, query);
        }
        return [], picked;
      }
      var queryWords := Text.Words(Text.Lower(query));
      var scored: seq<Scored> := [];
      var i := 0;
      while i < |contentStore|
        invariant 0 <= i <= |contentStore|
        invariant scored == Candidates(contentStore[..i], ScoreFor(query))
      {
        var content := contentStore[i];
        assert contentStore[..i + 1][..i] == contentStore[..i];
        if Searchable(content) {
          var overlap := |queryWords * Text.Words(Text.Lower(content.text))|;
          if overlap > 0 {
            scored := scored + [Scored(overlap, i, content)];
          }
        }
        i := i + 1;
      }
      assert contentStore[..i] == contentStore;
      var ranked := SortByScore(scored);
      results := Contents(SliceTo(ranked, maxResults));
    }
  }

  // ===== The manager =====

  /** The statistics `load_sources` returns. */
  datatype LoadStats = LoadStats(totalSources: nat, loadedSuccessfully: nat, failed: nat, errors: seq<string>)

  /** The first loader that accepts `source`, if any. */
  function FirstLoader(loaders: seq<Loader>, source: string): (l: Option<Loader>)
    ensures l.Some? ==> l.value in loaders && CanLoad(l.value, source)
    ensures l.None? ==> forall x :: x in loaders ==> !CanLoad(x, source)
  {
    if loaders == [] then None
    else if CanLoad(loaders[0], source) then Some(loaders[0])
    else FirstLoader(loaders[1..], source)
  }

  /** The value as a list: empty or a single element. */
  function AsSeq<T>(o: Option<T>): (s: seq<T>)
    ensures o.None? <==> s == []
    ensures o.Some? ==> s == [o.value]
  {
    if o.Some? then [o.value] else []
  }

  /** The content records and statistics of loading `sources` in order. */
  datatype LoadReport = LoadReport(contents: seq<Content>, stats: LoadStats)

  /** What loading one source adds: its record, if any, and its error line, if any. */
  function LoadOne(loaders: seq<Loader>, source: string, load: (Loader, string) -> LoadOutcome)
    : (r: (Option<Content>, Option<string>))
    ensures r.0.None? ==> r.1.Some?
  {
    match FirstLoader(loaders, source)
    case None => (None, Some(source + ": No suitable loader found"))
    case Some(loader) =>
      match load(loader, source)
      case LoadRaised(e) => (None, Some(source + ": " + e))
      case Loaded(c) => (Some(c), if c.error != "" then Some(source + ": " + c.error) else None)
  }

  /**
   * The report of loading `sources`: every source counts once, as loaded or
   * failed, with one error line per failure, and at most one record each.
   */
  function Report(loaders: seq<Loader>, sources: seq<string>, load: (Loader, string) -> LoadOutcome)
    : (rep: LoadReport)
    ensures rep.stats.totalSources == |sources|
    ensures rep.stats.loadedSuccessfully + rep.stats.failed == rep.stats.totalSources
    ensures |rep.stats.errors| == rep.stats.failed
    ensures rep.stats.loadedSuccessfully <= |rep.contents| <= |sources|
  {
    if sources == [] then LoadReport([], LoadStats(0, 0, 0, []))
    else
      var n := |sources| - 1;
      var before := Report(loaders, sources[..n], load);
      var (record, error) := LoadOne(loaders, sources[n], load);
      var contents := before.contents + AsSeq(record);
      var errors := before.stats.errors + AsSeq(error);
      var success := before.stats.loadedSuccessfully + (if error.None? then 1 else 0);
      LoadReport(contents, LoadStats(|sources|, success, |sources| - success, errors))
  }

  /** Loading one more source extends the report by what that source adds. */
  lemma ReportStep(loaders: seq<Loader>, sources: seq<string>, load: (Loader, string) -> LoadOutcome, i: nat)
    requires i < |sources|
    ensures Report(loaders, sources[..i + 1], load).contents
      == Report(loaders, sources[..i], load).contents + AsSeq(LoadOne(loaders, sources[i], load).0)
    ensures Report(loaders, sources[..i + 1], load).stats.errors
      == Report(loaders, sources[..i], load).stats.errors + AsSeq(LoadOne(loaders, sources[i], load).1)
    ensures Report(loaders, sources[..i + 1], load).stats.loadedSuccessfully
      == Report(loaders, sources[..i], load).stats.loadedSuccessfully
         + (if LoadOne(loaders, sources[i], load).1.None? then 1 else 0)
  {
    assert sources[..i + 1][..i] == sources[..i];
    assert sources[..i + 1][i] == sources[i];
  }

  /** One "Knowledge Source i (source):" block. */
  function SourceName(c: Content): string {
    if c.source.Some? then c.source.value else "Unknown"
  }

  function KnowledgePart(number: nat, c: Content): string {
    "Knowledge Source " + Text.NatToString(number) + " (" + SourceName(c) + "):\n" + c.text
  }

  /** The block for one retrieved entry: none when it has no text. */
  function KnowledgeBlock(number: nat, c: Content): (block: seq<string>)
    ensures block == [] <==> c.text == ""
  {
    if c.text != "" then [KnowledgePart(number, c)] else []
  }

  /** The blocks for `relevant`, numbered from `number`, skipping entries without text. */
  function KnowledgeParts(relevant: seq<Content>, number: nat): (parts: seq<string>)
    ensures |parts| <= |relevant|
  {
    if relevant == [] then []
    else KnowledgeBlock(number, relevant[0]) + KnowledgeParts(relevant[1..], number + 1)
  }

  /**
   * One step of the formatting loop: the blocks made so far, then entry
   * `i`'s block, then the blocks after it, are still all the blocks.
   */
  lemma KnowledgePartsStep(relevant: seq<Content>, i: nat, parts: seq<string>)
    requires i < |relevant|
    requires parts + KnowledgeParts(relevant[i..], i + 1) == KnowledgeParts(relevant, 1)
    ensures (parts + KnowledgeBlock(i + 1, relevant[i])) + KnowledgeParts(relevant[i + 1..], i + 2)
      == KnowledgeParts(relevant, 1)
  {
    assert relevant[i..][1..] == relevant[i + 1..];
    assert relevant[i..][0] == relevant[i];
    var head := KnowledgeBlock(i + 1, relevant[i]);
    var rest := KnowledgeParts(relevant[i + 1..], i + 2);
    assert KnowledgeParts(relevant[i..], i + 1) == head + rest;
    assert (parts + head) + rest == parts + (head + rest);
  }

  /** When every entry has text, there is one block per entry, numbered consecutively. */
  lemma {:induction false} KnowledgePartsNumbered(relevant: seq<Content>, number: nat)
    requires forall k :: 0 <= k < |relevant| ==> relevant[k].text != ""
    ensures var parts := KnowledgeParts(relevant, number);
      |parts| == |relevant| && forall k :: 0 <= k < |parts| ==> parts[k] == KnowledgePart(number + k, relevant[k])
  {
    if relevant != [] {
      KnowledgePartsNumbered(relevant[1..], number + 1);
      var parts := KnowledgeParts(relevant, number);
      assert parts == [KnowledgePart(number, relevant[0])] + KnowledgeParts(relevant[1..], number + 1);
    }
  }

  /** One entry of the knowledge summary. */
  function SummaryLine(c: Content): string {
    match c.kind
    case Some("file") => "File: " + SourceName(c) + " (" + Text.NatToString(c.size) + " chars)"
    case Some("directory") => "Directory: " + SourceName(c) + " (" + Text.NatToString(c.fileCount) + " files)"
    case Some("url") => "URL: " + SourceName(c)
    case _ => "Source: " + SourceName(c)
  }

  /** The summary entries of the error-free records, in load order. */
  function SummaryLines(cs: seq<Content>): (lines: seq<string>)
    ensures |lines| <= |cs|
    ensures lines == [] <==> forall k :: 0 <= k < |cs| ==> cs[k].error != ""
  {
    if cs == [] then []
    else
      var n := |cs| - 1;
      SummaryLines(cs[..n]) + (if cs[n].error != "" then [] else [SummaryLine(cs[n])])
  }

  function SummaryText(cs: seq<Content>): string {
    var lines := SummaryLines(cs);
    if lines == [] then "" else "Available Knowledge: " + Text.Join(lines, ", ")
  }

  /** Every summary entry names the record's source. */
  lemma SummaryLineNamesSource(c: Content)
    ensures Text.Contains(SummaryLine(c), SourceName(c))
  {
    var name := SourceName(c);
    Text.ContainsSelf(name);
    match c.kind
    case Some("file") =>
      Text.ContainsInContext("File: ", name, " (" + Text.NatToString(c.size) + " chars)", name);
      assert "File: " + name + (" (" + Text.NatToString(c.size) + " chars)") == SummaryLine(c);
    case Some("directory") =>
      Text.ContainsInContext("Directory: ", name, " (" + Text.NatToString(c.fileCount) + " files)", name);
      assert "Directory: " + name + (" (" + Text.NatToString(c.fileCount) + " files)") == SummaryLine(c);
    case Some("url") =>
      Text.ContainsInContext("URL: ", name, "", name);
      assert "URL: " + name + "" == SummaryLine(c);
    case _ =>
      Text.ContainsInContext("Source: ", name, "", name);
      assert "Source: " + name + "" == SummaryLine(c);
  }

  /** Every record loaded without error has its entry in the summary. */
  lemma {:induction false} SummaryListsEveryRecord(cs: seq<Content>, k: nat)
    requires k < |cs| && cs[k].error == ""
    ensures SummaryLine(cs[k]) in SummaryLines(cs)
  {
    var n := |cs| - 1;
    if k < n {
      SummaryListsEveryRecord(cs[..n], k);
      assert cs[..n][k] == cs[k];
    }
  }

  /** The summary names the source of every record loaded without error. */
  lemma SummaryNamesEverySource(cs: seq<Content>, k: nat)
    requires k < |cs| && cs[k].error == ""
    ensures Text.Contains(SummaryText(cs), SourceName(cs[k]))
  {
    var lines := SummaryLines(cs);
    SummaryListsEveryRecord(cs, k);
    var j :| 0 <= j < |lines| && lines[j] == SummaryLine(cs[k]);
    SummaryLineNamesSource(cs[k]);
    Text.JoinContainsParts(lines, ", ", j);
    var joined := Text.Join(lines, ", ");
    Text.ContainsTransitive(joined, lines[j], SourceName(cs[k]));
    Text.ContainsInContext("Available Knowledge: ", joined, "", SourceName(cs[k]));
    assert "Available Knowledge: " + joined + "" == SummaryText(cs);
  }

  class KnowledgeManager {
    var loaders: seq<Loader>
    var retriever: SimpleRetriever?
    var sources: seq<string>
    var loadedContent: seq<Content>

    constructor ()
      ensures loaders == [] && retriever == null && sources == [] && loadedContent == []
    {
      loaders := [];
      retriever := null;
      sources := [];
      loadedContent := [];
    }

    method AddLoader(loader: Loader)
      modifies this`loaders
      ensures loaders == old(loaders) + [loader]
    {
      loaders := loaders + [loader];
    }

    method SetRetriever(r: SimpleRetriever)
      modifies this`retriever
      ensures retriever == r
    {
      retriever := r;
    }

    /** The inner loop of `load_sources`: the first loader that accepts `source`. */
    method ChooseLoader(source: string) returns (chosen: Option<Loader>)
      ensures chosen == FirstLoader(loaders, source)
    {
      var j := 0;
      while j < |loaders|
        invariant 0 <= j <= |loaders|
        invariant FirstLoader(loaders[j..], source) == FirstLoader(loaders, source)
      {
        assert loaders[j..][1..] == loaders[j + 1..];
        if CanLoad(loaders[j], source) {
          return Some(loaders[j]);
        }
        j := j + 1;
      }
      return None;
    }

    /**
     * The body of `load_sources` for one source: the chosen loader's record,
     * if any, is kept and given to the retriever; the error line, if any, is
     * returned. The retriever's store stays the `base` it started from
     * followed by the kept records.
     */
    method LoadSource(source: string, load: (Loader, string) -> LoadOutcome, ghost base: seq<Content>)
      returns (error: Option<string>)
      requires retriever != null ==> retriever.contentStore == base + loadedContent
      modifies this`loadedContent, retriever
      ensures error == LoadOne(loaders, source, load).1
      ensures loadedContent == old(loadedContent) + AsSeq(LoadOne(loaders, source, load).0)
      ensures retriever != null ==> retriever.contentStore == base + loadedContent
    {
      var chosen := ChooseLoader(source);
      match chosen {
        case None =>
          error := Some(source + ": No suitable loader found");
        case Some(loader) =>
          match load(loader, source) {
            case LoadRaised(e) =>
              error := Some(source + ": " + e);
            case Loaded(content) =>
              if retriever != null {
                retriever.AddContent(content);
                assert (base + loadedContent) + [content] == base + (loadedContent + [content]);
              }
              loadedContent := loadedContent + [content];
              if content.error != "" {
                error := Some(source + ": " + content.error);
              } else {
                error := None;
              }
          }
      }
    }

    /**
     * `load_sources`: forgets the previous records, then hands each source
     * to the first loader that accepts it. Every record is also given to
     * the retriever, whose earlier entries stay. `load` stands for reading
     * the file, directory or URL.
     */
    method LoadSources(srcs: seq<string>, load: (Loader, string) -> LoadOutcome) returns (stats: LoadStats)
      modifies this`sources, this`loadedContent, retriever
      ensures sources == srcs
      ensures var rep := Report(loaders, srcs, load); loadedContent == rep.contents && stats == rep.stats
      ensures stats.totalSources == |srcs| && stats.loadedSuccessfully + stats.failed == |srcs|
      ensures |stats.errors| == stats.failed
      ensures retriever != null ==> retriever.contentStore == old(retriever.contentStore) + loadedContent
    {
      sources := srcs;
      loadedContent := [];
      ghost var base := if retriever != null then retriever.contentStore else [];
      ghost var ls := loaders;
      var success := 0;
      var errors: seq<string> := [];
      var i := 0;
      while i < |srcs|
        invariant 0 <= i <= |srcs|
        invariant sources == srcs && loaders == ls && retriever == old(retriever)
        invariant loadedContent == Report(ls, srcs[..i], load).contents
        invariant errors == Report(ls, srcs[..i], load).stats.errors
        invariant success == Report(ls, srcs[..i], load).stats.loadedSuccessfully
        invariant retriever != null ==> retriever.contentStore == base + loadedContent
      {
        ReportStep(ls, srcs, load, i);
        var error := LoadSource(srcs[i], load, base);
        errors := errors + AsSeq(error);
        if error.None? {
          success := success + 1;
        }
        i := i + 1;
      }
      assert srcs[..i] == srcs;
      stats := LoadStats(|srcs|, success, |srcs| - success, errors);
    }

    /**
     * `retrieve_for_query`: "" when there is no retriever or nothing has been
     * loaded; otherwise one numbered block per retrieved entry, separated by
     * blank lines.
     */
    method RetrieveForQuery(query: string, maxResults: int) returns (text: string)
      ensures retriever == null || loadedContent == [] ==> text == ""
      ensures retriever != null && loadedContent != [] ==>
        var relevant := RetrievedContents(retriever.contentStore, query, maxResults);
        && text == Text.Join(KnowledgeParts(relevant, 1), "\n\n")
        && (relevant == [] <==> text == "")
    {
      if retriever == null || loadedContent == [] {
        return "";
      }
      var relevant, picked := retriever.Retrieve(query, maxResults);
      if relevant == [] {
        return "";
      }
      text := KnowledgeText(relevant);
      KnowledgeTextEmptyIffNothing(relevant);
    }

    /**
     * `get_all_content_summary`: one entry per record loaded without error,
     * after "Available Knowledge: ", or "" when there is none.
     */
    method GetAllContentSummary() returns (summary: string)
      ensures summary == SummaryText(loadedContent)
      ensures summary == "" <==> forall k :: 0 <= k < |loadedContent| ==> loadedContent[k].error != ""
    {
      if loadedContent == [] {
        return "";
      }
      var lines: seq<string> := [];
      var i := 0;
      while i < |loadedContent|
        invariant 0 <= i <= |loadedContent|
        invariant lines == SummaryLines(loadedContent[..i])
      {
        assert loadedContent[..i + 1][..i] == loadedContent[..i];
        var content := loadedContent[i];
        if content.error == "" {
          lines := lines + [SummaryLine(content)];
        }
        i := i + 1;
      }
      assert loadedContent[..i] == loadedContent;
      summary := if lines == [] then "" else "Available Knowledge: " + Text.Join(lines, ", ");
    }
  }
}

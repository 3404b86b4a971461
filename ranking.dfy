/** The rank normaliser of ranking.py: a paper's benchmark lists (obtained
    once through the table extractor and the language-model gateway, then
    kept in a per-method cache file) become rank records, with the paper's
    own method and "ours" dropped and the other methods ranked 2, 3, ...
    within each benchmark. */
module Ranking {
  import opened Text
  import Content

  datatype Option<T> = None | Some(value: T)

  /** The exceptions that leave the modelled code. */
  datatype Error =
    | ValueError(message: string)
    | KeyError(key: string)
    | FileNotFoundError(path: string)
    | ZeroDivisionError

  /** A value, or the exception raised instead of returning one. */
  datatype Outcome<T> = Ok(value: T) | Raised(error: Error)

  /** One comparison the gateway found: a title and the compared methods,
      best first. A paper's benchmarks are these, in the order of the
      mapping the gateway returned. */
  datatype Benchmark = Benchmark(title: string, methods: seq<string>)

  // ---------------------------------------------------------------------
  // The cache (ranking.py, class Cache)
  // ---------------------------------------------------------------------

  /** How the cache key treats one character of a method name. */
  function KeyChar(c: char): char {
    if c == ' ' then '_' else LowerChar(c)
  }

  /** The cache key of a method: lower-cased, spaces turned into
      underscores. */
  function CacheKey(name: string): (key: string)
    ensures |key| == |name|
    ensures forall i :: 0 <= i < |key| ==> key[i] != ' ' && !('A' <= key[i] <= 'Z')
  {
    ReplaceChar(Lower(name), ' ', '_')
  }

  /** Two method names share a cache file exactly when they agree
      character by character up to case and space-versus-underscore. */
  lemma CacheKeyCollides(a: string, b: string)
    ensures CacheKey(a) == CacheKey(b) <==> |a| == |b| && forall i :: 0 <= i < |a| ==> KeyChar(a[i]) == KeyChar(b[i])
  {
    if |a| == |b| && forall i :: 0 <= i < |a| ==> KeyChar(a[i]) == KeyChar(b[i]) {
      assert forall i :: 0 <= i < |a| ==> CacheKey(a)[i] == CacheKey(b)[i];
    }
    if CacheKey(a) == CacheKey(b) {
      forall i | 0 <= i < |a|
        ensures KeyChar(a[i]) == KeyChar(b[i])
      {
        assert CacheKey(a)[i] == KeyChar(a[i]) && CacheKey(b)[i] == KeyChar(b[i]);
      }
    }
  }

  /** A cache key is its own key. */
  lemma CacheKeyIdempotent(name: string)
    ensures CacheKey(CacheKey(name)) == CacheKey(name)
  {
    var k := CacheKey(name);
    assert forall i :: 0 <= i < |k| ==> CacheKey(k)[i] == k[i];
  }

  /** The cache file of a method. */
  function CachePath(name: string): string {
    ".cache/" + CacheKey(name) + ".json"
  }

  /** What a cache file holds. */
  datatype CacheEntry = CacheEntry(benchmarks: seq<Benchmark>, cost: real, simpleExtract: bool)

  /** The `.cache` directory: the cache files present, by path. */
  class CacheDir {
    var files: map<string, CacheEntry>

    constructor (files: map<string, CacheEntry>)
      ensures this.files == files
    {
      this.files := files;
    }
  }

  /** The cache of one method: a file in the cache directory. */
  class Cache {
    const file: string
    const dir: CacheDir

    constructor (name: string, dir: CacheDir)
      ensures file == CachePath(name) && this.dir == dir
    {
      file := CachePath(name);
      this.dir := dir;
    }

    /** `is_cached`: whether this method's file is in the directory. */
    predicate IsCached()
      reads dir
      ensures IsCached() <==> file in dir.files
    {
      file in dir.files
    }

    /** Reads the cache file; a missing file raises. */
    method LoadCache() returns (r: Outcome<CacheEntry>)
      ensures r.Ok? <==> IsCached()
      ensures r.Ok? ==> r.value == dir.files[file]
      ensures r.Raised? ==> r.error == FileNotFoundError(file)
    {
      if file in dir.files {
        r := Ok(dir.files[file]);
      } else {
        r := Raised(FileNotFoundError(file));
      }
    }

    /** Writes the cache file, replacing any earlier one; an empty
        benchmark mapping is written too. */
    method DumpCache(benchmarks: seq<Benchmark>, cost: real, simpleExtract: bool)
      modifies dir
      ensures dir.files == old(dir.files)[file := CacheEntry(benchmarks, cost, simpleExtract)]
      ensures IsCached()
    {
      dir.files := dir.files[file := CacheEntry(benchmarks, cost, simpleExtract)];
    }
  }

  /** A cache file written and then read back yields what was written. */
  method DumpLoadRoundTrip(c: Cache, benchmarks: seq<Benchmark>, cost: real, simpleExtract: bool)
      returns (r: Outcome<CacheEntry>)
    modifies c.dir
    ensures r == Ok(CacheEntry(benchmarks, cost, simpleExtract))
  {
    c.DumpCache(benchmarks, cost, simpleExtract);
    r := c.LoadCache();
  }

  // ---------------------------------------------------------------------
  // Extraction with fallback (PaperRanking.extract_benchmarks)
  // ---------------------------------------------------------------------

  /** A call of the language-model gateway: the method, the extracted
      content, how many comparisons to ask for, the input cost ceiling in
      dollars and the output token limit. */
  datatype Request = Request(name: string, content: string, numComparisons: int, inputCostLimit: real, outputLimit: int)

  /** The gateway's answer: the benchmarks found (empty when it found none
      or could not parse its own answer) and the cost, or the exception it
      raised (cost ceiling exceeded, service failure). */
  datatype Reply = Reply(benchmarks: seq<Benchmark>, cost: real) | Failure(error: Error)

  /** The content each pass sends: the first cuts the document at the
      back matter and takes blocks within 400 of their caption, the second
      reads the whole document and takes blocks within 600. */
  datatype Contents = Contents(cut: string, full: string)

  function ContentsOf(pages: seq<seq<Content.Block>>): Contents {
    Contents(Content.Extract(pages, true, 400.0), Content.Extract(pages, false, 600.0))
  }

  /** The first, cheap pass: a ceiling of 0.01 dollars, 300 output tokens. */
  function FirstRequest(name: string, contents: Contents, numComparisons: int): Request {
    Request(name, contents.cut, numComparisons, 0.01, 300)
  }

  /** The second, wider pass: a ceiling of 0.02 dollars, 500 output tokens. */
  function SecondRequest(name: string, contents: Contents, numComparisons: int): Request {
    Request(name, contents.full, numComparisons, 0.02, 500)
  }

  /** The two passes: the cheap one reads the document cut at the back
      matter with blocks within 400 of their caption, under a 0.01 dollar
      ceiling and 300 output tokens; the wide one reads the whole document
      with blocks within 600, under 0.02 dollars and 500 tokens. */
  lemma PassRequests(name: string, pages: seq<seq<Content.Block>>, n: int)
    ensures var first := FirstRequest(name, ContentsOf(pages), n);
      && first == Request(name, Content.Extract(pages, true, 400.0), n, 0.01, 300)
    ensures var second := SecondRequest(name, ContentsOf(pages), n);
      && second == Request(name, Content.Extract(pages, false, 600.0), n, 0.02, 500)
  {
  }

  /** The benchmarks, cost and extraction mode `extract_benchmarks` settles
      on, given the cache file's content if there is one, or the exception
      it raises. */
  function Extraction(cached: Option<CacheEntry>, name: string, contents: Contents,
                      numComparisons: int, gateway: Request -> Reply): (r: Outcome<CacheEntry>)
    ensures cached.Some? ==> r == Ok(cached.value)
    ensures cached.None? && r.Ok? ==> r.value.benchmarks != []
  {
    if cached.Some? then Ok(cached.value)
    else
      match gateway(FirstRequest(name, contents, numComparisons))
      case Failure(e) => Raised(e)
      case Reply(b1, c1) =>
        if b1 != [] then Ok(CacheEntry(b1, c1, true))
        else
          match gateway(SecondRequest(name, contents, numComparisons))
          case Failure(e) => Raised(e)
          case Reply(b2, c2) =>
            if b2 != [] then Ok(CacheEntry(b2, c2, false))
            else Raised(ValueError("No benchmarks found for " + name))
  }

  /** A cache hit makes no gateway call: the outcome does not depend on
      the gateway or on the document at all. */
  lemma CacheHitNoExtraction(e: CacheEntry, name: string, p1: Contents, p2: Contents,
                             n: int, g1: Request -> Reply, g2: Request -> Reply)
    ensures Extraction(Some(e), name, p1, n, g1) == Extraction(Some(e), name, p2, n, g2) == Ok(e)
  {
  }

  /** Without a cache file: the extraction succeeds only with a non-empty
      benchmark mapping, in the simple mode exactly when the first pass
      found one, and then the second pass is never made (the outcome is
      the same whatever the gateway would answer to it). */
  lemma ExtractionPasses(name: string, contents: Contents, n: int, g: Request -> Reply, h: Request -> Reply)
    requires g(FirstRequest(name, contents, n)) == h(FirstRequest(name, contents, n))
    ensures var r := Extraction(None, name, contents, n, g);
      var first := g(FirstRequest(name, contents, n));
      && (r.Ok? ==> r.value.benchmarks != [])
      && (r.Ok? ==> (r.value.simpleExtract <==> first.Reply? && first.benchmarks != []))
      && (first.Reply? && first.benchmarks != [] ==> r == Extraction(None, name, contents, n, h))
  {
  }

  /** An exception from the gateway ends the extraction: a failing first
      pass is not followed by the second one. */
  lemma GatewayFailurePropagates(name: string, contents: Contents, n: int, g: Request -> Reply)
    requires g(FirstRequest(name, contents, n)).Failure?
    ensures Extraction(None, name, contents, n, g) == Raised(g(FirstRequest(name, contents, n)).error)
  {
  }

  /** Two empty passes raise, naming the method. */
  lemma BothPassesEmpty(name: string, contents: Contents, n: int, g: Request -> Reply)
    requires g(FirstRequest(name, contents, n)).Reply? && g(FirstRequest(name, contents, n)).benchmarks == []
    requires g(SecondRequest(name, contents, n)).Reply? && g(SecondRequest(name, contents, n)).benchmarks == []
    ensures Extraction(None, name, contents, n, g) == Raised(ValueError("No benchmarks found for " + name))
  {
  }

  // ---------------------------------------------------------------------
  // Ranking one paper (PaperRanking.get_ranking)
  // ---------------------------------------------------------------------

  /** One ranked competitor. */
  datatype RankEntry = RankEntry(name: string, rank: int)

  /** A listed method is kept unless the paper's own method occurs in it
      (ignoring case) or it is "ours". */
  predicate Keep(own: string, m: string)
    ensures Lower(m) == Lower(own) ==> !Keep(own, m)
    ensures own == [] ==> !Keep(own, m)
  {
    !Contains(Lower(m), Lower(own)) && Lower(m) != "ours"
  }

  /** The methods of one benchmark that are ranked, in their listed order. */
  function Survivors(own: string, ms: seq<string>): (r: seq<string>)
    ensures |r| <= |ms|
    ensures forall m :: m in r ==> m in ms && Keep(own, m)
  {
    if ms == [] then []
    else (if Keep(own, ms[0]) then [ms[0]] else []) + Survivors(own, ms[1..])
  }

  /** A method is ranked exactly when it is listed and kept. */
  lemma {:induction false} SurvivorsExact(own: string, ms: seq<string>)
    ensures forall m :: m in Survivors(own, ms) <==> m in ms && Keep(own, m)
  {
    if ms != [] {
      SurvivorsExact(own, ms[1..]);
      assert ms == [ms[0]] + ms[1..];
    }
  }

  /** Filtering keeps the listed order: it commutes with concatenation. */
  lemma {:induction false} SurvivorsAppend(own: string, a: seq<string>, b: seq<string>)
    ensures Survivors(own, a + b) == Survivors(own, a) + Survivors(own, b)
  {
    if a == [] {
      assert a + b == b;
    } else {
      var head := if Keep(own, a[0]) then [a[0]] else [];
      assert (a + b)[0] == a[0] && (a + b)[1..] == a[1..] + b;
      assert Survivors(own, a + b) == head + Survivors(own, a[1..] + b);
      assert Survivors(own, a) == head + Survivors(own, a[1..]);
      SurvivorsAppend(own, a[1..], b);
      AppendAssoc(head, Survivors(own, a[1..]), Survivors(own, b));
    }
  }

  /** The entries `enumerate(ms, start)` yields. */
  function Ranked(ms: seq<string>, start: int): (r: seq<RankEntry>)
    ensures |r| == |ms|
  {
    if ms == [] then [] else [RankEntry(ms[0], start)] + Ranked(ms[1..], start + 1)
  }

  /** Enumeration numbers without gaps or repeats: the `k`-th entry is the
      `k`-th method with rank `start + k`. */
  lemma {:induction false} RankedAt(ms: seq<string>, start: int, k: nat)
    requires k < |ms|
    ensures Ranked(ms, start)[k] == RankEntry(ms[k], start + k)
  {
    if k > 0 {
      RankedAt(ms[1..], start + 1, k - 1);
    }
  }

  lemma {:induction false} RankedSnoc(ms: seq<string>, m: string, start: int)
    ensures Ranked(ms + [m], start) == Ranked(ms, start) + [RankEntry(m, start + |ms|)]
  {
    if ms == [] {
      assert ms + [m] == [m];
    } else {
      assert (ms + [m])[1..] == ms[1..] + [m];
      RankedSnoc(ms[1..], m, start + 1);
    }
  }

  /** A paper's rank entries: benchmark by benchmark, the surviving methods
      ranked from 2. */
  function RankingOf(own: string, bs: seq<Benchmark>): (r: seq<RankEntry>)
    ensures |r| == SurvivorCount(own, bs)
  {
    if bs == [] then []
    else RankingOf(own, bs[..|bs| - 1]) + Ranked(Survivors(own, bs[|bs| - 1].methods), 2)
  }

  /** One more benchmark appends its ranked survivors. */
  lemma RankingOfStep(own: string, bs: seq<Benchmark>, b: nat)
    requires b < |bs|
    ensures RankingOf(own, bs[..b + 1]) == RankingOf(own, bs[..b]) + Ranked(Survivors(own, bs[b].methods), 2)
  {
    assert bs[..b + 1][..b] == bs[..b];
  }

  /** The entries follow benchmark order: the ranking of a concatenation is
      the concatenation of the rankings. */
  lemma {:induction false} RankingOfAppend(own: string, a: seq<Benchmark>, b: seq<Benchmark>)
    ensures RankingOf(own, a + b) == RankingOf(own, a) + RankingOf(own, b)
    decreases |b|
  {
    if b == [] {
      assert a + b == a;
    } else {
      var last := b[|b| - 1];
      assert (a + b)[..|a + b| - 1] == a + b[..|b| - 1];
      RankingOfAppend(own, a, b[..|b| - 1]);
      var rb := RankingOf(own, b[..|b| - 1]);
      var rl := Ranked(Survivors(own, last.methods), 2);
      assert (RankingOf(own, a) + rb) + rl == RankingOf(own, a) + (rb + rl);
    }
  }

  /** One benchmark on its own: its surviving methods, ranked 2, 3, ... */
  lemma OneBenchmark(own: string, b: Benchmark, k: nat)
    requires k < |Survivors(own, b.methods)|
    ensures |RankingOf(own, [b])| == |Survivors(own, b.methods)|
    ensures RankingOf(own, [b])[k] == RankEntry(Survivors(own, b.methods)[k], k + 2)
  {
    assert [b][..0] == [];
    RankedAt(Survivors(own, b.methods), 2, k);
  }

  /** Number of surviving methods, summed over the benchmarks. */
  function SurvivorCount(own: string, bs: seq<Benchmark>): nat {
    if bs == [] then 0 else SurvivorCount(own, bs[..|bs| - 1]) + |Survivors(own, bs[|bs| - 1].methods)|
  }

  /** A paper yields one entry per surviving method, and every entry is a
      kept method with a rank of at least 2. */
  lemma {:induction false} RankingOfEntries(own: string, bs: seq<Benchmark>)
    ensures |RankingOf(own, bs)| == SurvivorCount(own, bs)
    ensures forall e :: e in RankingOf(own, bs) ==> e.rank >= 2 && Keep(own, e.name)
  {
    if bs != [] {
      RankingOfEntries(own, bs[..|bs| - 1]);
      var s := Survivors(own, bs[|bs| - 1].methods);
      SurvivorsExact(own, bs[|bs| - 1].methods);
      forall e | e in Ranked(s, 2)
        ensures e.rank >= 2 && Keep(own, e.name)
      {
        var k :| 0 <= k < |Ranked(s, 2)| && Ranked(s, 2)[k] == e;
        RankedAt(s, 2, k);
      }
    }
  }

  // ---------------------------------------------------------------------
  // The paper
  // ---------------------------------------------------------------------

  /** A paper under study: its own method, where to find it, its year, and
      the benchmarks extracted for it. */
  class PaperRanking {
    const name: string
    const url: string
    const year: Option<int>
    const title: Option<string>
    const numComparisons: int
    const cache: Cache
    var benchmarks: seq<Benchmark>
    var cost: real
    var simpleExtract: bool

    /** The fields `__init__` sets before it extracts. */
    constructor (name: string, url: string, year: Option<int>, title: Option<string>, numComparisons: int, dir: CacheDir)
      ensures this.name == name && this.url == url && this.year == year
      ensures this.title == title && this.numComparisons == numComparisons
      ensures cache.file == CachePath(name) && cache.dir == dir
      ensures benchmarks == [] && cost == 0.0 && !simpleExtract
    {
      this.name := name;
      this.url := url;
      this.year := year;
      this.title := title;
      this.numComparisons := numComparisons;
      cache := new Cache(name, dir);
      benchmarks, cost, simpleExtract := [], 0.0, false;
    }

    /** `extract_benchmarks`: load from the cache, or run the cheap pass and,
        when it finds nothing, the wide pass; write the cache only after a
        fresh extraction that found something. `pages` is the document the
        paper's URL renders to. */
    method ExtractBenchmarks(pages: seq<seq<Content.Block>>, gateway: Request -> Reply) returns (r: Outcome<()>)
      modifies this, cache.dir
      ensures var spec := Extraction(if old(cache.IsCached()) then Some(old(cache.dir.files[cache.file])) else None,
                                     name, ContentsOf(pages), numComparisons, gateway);
        && r == (if spec.Ok? then Ok(()) else Raised(spec.error))
        && (spec.Ok? ==> benchmarks == spec.value.benchmarks && cost == spec.value.cost && simpleExtract == spec.value.simpleExtract)
        && cache.dir.files == (if spec.Ok? && !old(cache.IsCached()) then old(cache.dir.files)[cache.file := spec.value]
                              else old(cache.dir.files))
    {
      if cache.IsCached() {
        var loaded := cache.LoadCache();
        benchmarks, cost, simpleExtract := loaded.value.benchmarks, loaded.value.cost, loaded.value.simpleExtract;
        return Ok(());
      }
      ghost var contents := ContentsOf(pages);
      simpleExtract := true;
      var content := Content.ExtractTablesAndLegends(pages, true, 400.0);
      assert Request(name, content, numComparisons, 0.01, 300) == FirstRequest(name, contents, numComparisons);
      var reply := gateway(Request(name, content, numComparisons, 0.01, 300));
      if reply.Failure? {
        return Raised(reply.error);
      }
      benchmarks, cost := reply.benchmarks, reply.cost;
      if benchmarks == [] {
        simpleExtract := false;
        content := Content.ExtractTablesAndLegends(pages, false, 600.0);
        assert Request(name, content, numComparisons, 0.02, 500) == SecondRequest(name, contents, numComparisons);
        reply := gateway(Request(name, content, numComparisons, 0.02, 500));
        if reply.Failure? {
          return Raised(reply.error);
        }
        benchmarks, cost := reply.benchmarks, reply.cost;
      }
      if benchmarks == [] {
        return Raised(ValueError("No benchmarks found for " + name));
      }
      cache.DumpCache(benchmarks, cost, simpleExtract);
      r := Ok(());
    }

    /** `get_ranking`: the paper's rank entries, benchmark by benchmark. */
    method GetRanking() returns (r: Outcome<seq<RankEntry>>)
      ensures r == if benchmarks == [] then Raised(ValueError("No benchmarks found for this paper"))
                   else Ok(RankingOf(name, benchmarks))
    {
      if benchmarks == [] {
        return Raised(ValueError("No benchmarks found for this paper"));
      }
      var bs, own := benchmarks, name;
      var ranking: seq<RankEntry> := [];
      for b := 0 to |bs|
        invariant ranking == RankingOf(own, bs[..b])
      {
        var others := Survivors(own, bs[b].methods);
        ghost var before := ranking;
        for k := 0 to |others|
          invariant ranking == before + Ranked(others[..k], 2)
        {
          RankedSnoc(others[..k], others[k], 2);
          assert others[..k + 1] == others[..k] + [others[k]];
          ranking := ranking + [RankEntry(others[k], k + 2)];
        }
        assert others[..|others|] == others;
        RankingOfStep(own, bs, b);
      }
      assert bs[..|bs|] == bs;
      r := Ok(ranking);
    }
  }

  /** `PaperRanking(...)`: building a paper extracts its benchmarks, and an
      exception from the extraction means no paper is built. */
  method NewPaperRanking(name: string, url: string, year: Option<int>, title: Option<string>, numComparisons: int,
                         dir: CacheDir, pages: seq<seq<Content.Block>>, gateway: Request -> Reply)
      returns (r: Outcome<PaperRanking>)
    modifies dir
    ensures var spec := Extraction(if CachePath(name) in old(dir.files) then Some(old(dir.files)[CachePath(name)]) else None,
                                   name, ContentsOf(pages), numComparisons, gateway);
      && r.Ok? == spec.Ok?
      && (r.Raised? ==> r.error == spec.error)
      && (r.Ok? ==> r.value.benchmarks == spec.value.benchmarks && r.value.cost == spec.value.cost
                    && r.value.simpleExtract == spec.value.simpleExtract)
      && dir.files == (if spec.Ok? && CachePath(name) !in old(dir.files) then old(dir.files)[CachePath(name) := spec.value]
                       else old(dir.files))
    ensures r.Ok? ==> && fresh(r.value)
                      && r.value.name == name && r.value.url == url && r.value.year == year
                      && r.value.title == title && r.value.numComparisons == numComparisons
                      && r.value.cache.file == CachePath(name) && r.value.cache.dir == dir
  {
    var paper := new PaperRanking(name, url, year, title, numComparisons, dir);
    var done := paper.ExtractBenchmarks(pages, gateway);
    if done.Raised? {
      return Raised(done.error);
    }
    r := Ok(paper);
  }

  // ---------------------------------------------------------------------
  // All papers (get_rankings)
  // ---------------------------------------------------------------------

  /** One row of the rankings table. */
  datatype Record = Record(paper: string, year: int, name: string, rank: int)

  /** The year column: -1 when the paper has no year or year 0. The column
      never holds 0, and a paper dated -1 cannot be told from an undated one. */
  function YearOf(year: Option<int>): (y: int)
    ensures year.None? ==> y == -1
    ensures year.Some? ==> y == (if year.value == 0 then -1 else year.value)
    ensures y != 0
    ensures y == -1 <==> year.None? || year.value == 0 || year.value == -1
  {
    match year
    case None => -1
    case Some(v) => if v != 0 then v else -1
  }

  /** A paper's rank entries as records. */
  function Tagged(paper: string, year: int, entries: seq<RankEntry>): (r: seq<Record>)
    ensures |r| == |entries|
  {
    if entries == [] then []
    else Tagged(paper, year, entries[..|entries| - 1])
         + [Record(paper, year, entries[|entries| - 1].name, entries[|entries| - 1].rank)]
  }

  lemma {:induction false} TaggedAt(paper: string, year: int, entries: seq<RankEntry>, k: nat)
    requires k < |entries|
    ensures Tagged(paper, year, entries)[k] == Record(paper, year, entries[k].name, entries[k].rank)
  {
    if k < |entries| - 1 {
      TaggedAt(paper, year, entries[..|entries| - 1], k);
    }
  }

  /** What `get_rankings` reads of a paper. */
  datatype PaperData = PaperData(name: string, year: Option<int>, benchmarks: seq<Benchmark>)

  function Snapshot(papers: seq<PaperRanking>): (r: seq<PaperData>)
    reads papers
    ensures |r| == |papers|
  {
    seq(|papers|, i reads papers requires 0 <= i < |papers| => PaperData(papers[i].name, papers[i].year, papers[i].benchmarks))
  }

  /** The records gathered from the papers, or the first paper's exception. */
  function Collected(papers: seq<PaperData>): (r: Outcome<seq<Record>>)
    ensures r.Raised? ==> r.error == ValueError("No benchmarks found for this paper")
  {
    if papers == [] then Ok([])
    else
      var p := papers[|papers| - 1];
      match Collected(papers[..|papers| - 1])
      case Raised(e) => Raised(e)
      case Ok(rs) =>
        if p.benchmarks == [] then Raised(ValueError("No benchmarks found for this paper"))
        else Ok(rs + Tagged(p.name, YearOf(p.year), RankingOf(p.name, p.benchmarks)))
  }

  /** The method column with every space removed. */
  function RemoveSpaces(rs: seq<Record>): (r: seq<Record>)
    ensures |r| == |rs|
    ensures forall i :: 0 <= i < |rs| ==>
      r[i] == rs[i].(name := RemoveChar(rs[i].name, ' ')) && ' ' !in r[i].name
  {
    seq(|rs|, i requires 0 <= i < |rs| => rs[i].(name := RemoveChar(rs[i].name, ' ')))
  }

  /** What `get_rankings` returns: the records of all papers with spaces
      removed from method names, or the exception raised. A table with no
      records has no method column, so indexing it raises KeyError. */
  function RankingsOf(papers: seq<PaperData>): (r: Outcome<seq<Record>>)
    ensures r.Raised? ==> r.error == KeyError("method") || r.error == ValueError("No benchmarks found for this paper")
    ensures r.Ok? ==> r.value != [] && forall i :: 0 <= i < |r.value| ==> ' ' !in r.value[i].name
  {
    match Collected(papers)
    case Raised(e) => Raised(e)
    case Ok(rs) => if rs == [] then Raised(KeyError("method")) else Ok(RemoveSpaces(rs))
  }

  /** Number of records all papers yield. */
  function RecordCount(papers: seq<PaperData>): nat {
    if papers == [] then 0
    else RecordCount(papers[..|papers| - 1]) + SurvivorCount(papers[|papers| - 1].name, papers[|papers| - 1].benchmarks)
  }

  lemma {:induction false} TaggedRanks(paper: string, year: int, entries: seq<RankEntry>)
    requires forall e :: e in entries ==> e.rank >= 2
    ensures forall r :: r in Tagged(paper, year, entries) ==> r.rank >= 2
  {
    if entries != [] {
      TaggedRanks(paper, year, entries[..|entries| - 1]);
      assert entries[|entries| - 1] in entries;
      assert forall e :: e in entries[..|entries| - 1] ==> e in entries;
    }
  }

  predicate AllHaveBenchmarks(papers: seq<PaperData>) {
    forall i :: 0 <= i < |papers| ==> papers[i].benchmarks != []
  }

  /** Gathering the records fails exactly when some paper has no
      benchmarks. */
  lemma {:induction false} CollectedOk(papers: seq<PaperData>)
    ensures Collected(papers).Ok? <==> AllHaveBenchmarks(papers)
  {
    if papers != [] {
      var init := papers[..|papers| - 1];
      var p := papers[|papers| - 1];
      CollectedOk(init);
      assert Collected(papers).Ok? <==> Collected(init).Ok? && p.benchmarks != [];
      assert AllHaveBenchmarks(papers) <==> AllHaveBenchmarks(init) && p.benchmarks != [] by {
        assert forall i :: 0 <= i < |init| ==> init[i] == papers[i];
      }
    }
  }

  /** Gathered records: one per surviving method, each with a rank of at
      least 2. */
  lemma {:induction false} CollectedCount(papers: seq<PaperData>)
    requires Collected(papers).Ok?
    ensures |Collected(papers).value| == RecordCount(papers)
    ensures forall r :: r in Collected(papers).value ==> r.rank >= 2
  {
    if papers != [] {
      var init := papers[..|papers| - 1];
      var p := papers[|papers| - 1];
      var c0 := Collected(init);
      assert c0.Ok? && p.benchmarks != [];
      CollectedCount(init);
      var entries := RankingOf(p.name, p.benchmarks);
      RankingOfEntries(p.name, p.benchmarks);
      TaggedRanks(p.name, YearOf(p.year), entries);
      var t := Tagged(p.name, YearOf(p.year), entries);
      assert Collected(papers) == Ok(c0.value + t);
      assert forall r :: r in c0.value + t ==> r in c0.value || r in t;
    }
  }

  /** `get_rankings` raises exactly when some paper has no benchmarks or no
      paper has a surviving method; otherwise it yields one record per
      surviving method, each with a rank of at least 2 and no space in its
      method. */
  lemma RankingsOutcome(papers: seq<PaperData>)
    ensures var r := RankingsOf(papers);
      && (r.Ok? <==> AllHaveBenchmarks(papers) && RecordCount(papers) > 0)
      && (r.Ok? ==> |r.value| == RecordCount(papers) && forall x :: x in r.value ==> ' ' !in x.name && x.rank >= 2)
  {
    CollectedOk(papers);
    var c := Collected(papers);
    if c.Ok? {
      CollectedCount(papers);
      if c.value != [] {
        forall x | x in RemoveSpaces(c.value)
          ensures x.rank >= 2
        {
          var k :| 0 <= k < |c.value| && RemoveSpaces(c.value)[k] == x;
          assert c.value[k] in c.value;
        }
      }
    }
  }

  /** `get_rankings`: every paper's rank entries, tagged with the paper's
      method and year, then the spaces removed from the method names. */
  method GetRankings(papers: seq<PaperRanking>) returns (r: Outcome<seq<Record>>)
    ensures r == RankingsOf(Snapshot(papers))
  {
    ghost var data := Snapshot(papers);
    var rankings: seq<Record> := [];
    for i := 0 to |papers|
      invariant Collected(data[..i]) == Ok(rankings)
    {
      var paper := papers[i];
      var ranking := paper.GetRanking();
      if ranking.Raised? {
        CollectedRaises(data, i);
        return Raised(ranking.error);
      }
      var tagged := TagEntries(paper.name, YearOf(paper.year), ranking.value);
      CollectedStep(data, i, rankings);
      rankings := rankings + tagged;
    }
    assert data[..|papers|] == data;
    if rankings == [] {
      return Raised(KeyError("method"));
    }
    r := Ok(RemoveSpaces(rankings));
  }

  /** The rows one paper adds to the ranking table, entry by entry. */
  method TagEntries(paper: string, year: int, entries: seq<RankEntry>) returns (rs: seq<Record>)
    ensures rs == Tagged(paper, year, entries)
  {
    rs := [];
    for k := 0 to |entries|
      invariant rs == Tagged(paper, year, entries[..k])
    {
      assert entries[..k + 1][..k] == entries[..k];
      rs := rs + [Record(paper, year, entries[k].name, entries[k].rank)];
    }
    assert entries[..|entries|] == entries;
  }

  /** One more paper with benchmarks extends the gathered records by its own. */
  lemma CollectedStep(papers: seq<PaperData>, i: nat, rs: seq<Record>)
    requires i < |papers| && papers[i].benchmarks != []
    requires Collected(papers[..i]) == Ok(rs)
    ensures var p := papers[i];
      Collected(papers[..i + 1]) == Ok(rs + Tagged(p.name, YearOf(p.year), RankingOf(p.name, p.benchmarks)))
  {
    assert papers[..i + 1][..i] == papers[..i];
  }

  /** Once a paper raises, so does the collection over any longer prefix. */
  lemma {:induction false} CollectedRaises(papers: seq<PaperData>, i: nat)
    requires i < |papers| && papers[i].benchmarks == []
    requires Collected(papers[..i]).Ok?
    ensures Collected(papers) == Raised(ValueError("No benchmarks found for this paper"))
    decreases |papers|
  {
    if i < |papers| - 1 {
      var init := papers[..|papers| - 1];
      assert init[..i] == papers[..i];
      CollectedRaises(init, i);
    } else {
      assert papers[..|papers| - 1] == papers[..i];
    }
  }
}

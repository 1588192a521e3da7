/** The bookkeeping of the `record` command around the browser session: the
    scenario name check, the closed-browser test that ends polling, the
    optional URL filter over the captured traffic, the saved record and the
    request summary (top domains and top paths). */
module Record {
  import opened Wrappers
  import opened Strings

  // ---------------------------------------------------------------------------
  // Scenario name and polling

  datatype ScenarioError = ScenarioRequired | ScenarioEmpty

  /** The scenario name: the command-line value when it is non-empty, else
      (on a terminal) the prompted answer, already stripped; off a terminal
      the name is required. */
  function ResolveScenario(given: string, interactive: bool, prompted: string): (r: Result<string, ScenarioError>)
    ensures r.Success? ==> r.value != ""
    ensures r.Success? ==> r.value == given || (given == "" && r.value == prompted)
    ensures given != "" ==> r == Success(given)
    ensures given == "" && !interactive ==> r == Failure(ScenarioRequired)
    ensures given == "" && interactive ==> (r.Failure? <==> prompted == "")
  {
    if given != "" then Success(given)
    else if !interactive then Failure(ScenarioRequired)
    else if prompted == "" then Failure(ScenarioEmpty)
    else Success(prompted)
  }

  /** Only the prompted answer is stripped: a blank name given on the command
      line is accepted as it is. */
  lemma BlankGivenScenarioAccepted(interactive: bool, prompted: string)
    ensures ResolveScenario(" ", interactive, prompted) == Success(" ")
  {
  }

  const ClosedPhrases: seq<string> := ["target closed", "browser has been closed", "browser closed", "connection closed"]

  /** Polling ends when the lower-cased error text contains one of the
      closed-browser phrases; any other error keeps it going. */
  predicate StopPolling(errorMessage: string) {
    exists i :: 0 <= i < |ClosedPhrases| && Contains(Lower(errorMessage), ClosedPhrases[i])
  }

  /** The test ignores case: a message and its lower-cased form agree. */
  lemma StopPollingIgnoresCase(errorMessage: string)
    ensures StopPolling(Lower(errorMessage)) <==> StopPolling(errorMessage)
  {
    LowerIdempotent(errorMessage);
  }

  /** The test in terms of the four phrases. */
  lemma StopPollingPhrases(errorMessage: string)
    ensures StopPolling(errorMessage) <==>
              var m := Lower(errorMessage);
              Contains(m, "target closed") || Contains(m, "browser has been closed")
              || Contains(m, "browser closed") || Contains(m, "connection closed")
  {
    var m := Lower(errorMessage);
    if Contains(m, "target closed") { assert Contains(m, ClosedPhrases[0]); }
    if Contains(m, "browser has been closed") { assert Contains(m, ClosedPhrases[1]); }
    if Contains(m, "browser closed") { assert Contains(m, ClosedPhrases[2]); }
    if Contains(m, "connection closed") { assert Contains(m, ClosedPhrases[3]); }
  }

  // ---------------------------------------------------------------------------
  // Captured traffic, filter and saved record

  datatype Kind = Request | Response

  /** One captured entry: its `type` and the `url` of its `data`. */
  datatype Capture = Capture(kind: Kind, url: string)

  predicate UrlMatches(c: Capture, needle: string) {
    Contains(Lower(c.url), Lower(needle))
  }

  /** The entries whose URL contains the needle, ignoring case, in order. */
  function Matching(captures: seq<Capture>, needle: string): (r: seq<Capture>)
    ensures |r| <= |captures|
  {
    if |captures| == 0 then []
    else
      var n := |captures| - 1;
      Matching(captures[..n], needle) + (if UrlMatches(captures[n], needle) then [captures[n]] else [])
  }

  /** Exactly the matching entries are kept. */
  lemma {:induction false} MatchingMembers(captures: seq<Capture>, needle: string)
    ensures forall c :: c in Matching(captures, needle) <==> c in captures && UrlMatches(c, needle)
  {
    if |captures| > 0 {
      var n := |captures| - 1;
      assert captures == captures[..n] + [captures[n]];
      MatchingMembers(captures[..n], needle);
    }
  }

  /** The filter keeps the capture order: it distributes over concatenation. */
  lemma {:induction false} MatchingAppend(a: seq<Capture>, b: seq<Capture>, needle: string)
    ensures Matching(a + b, needle) == Matching(a, needle) + Matching(b, needle)
  {
    if |b| == 0 {
      assert a + b == a;
    } else {
      var n := |b| - 1;
      assert (a + b)[..|a| + n] == a + b[..n];
      MatchingAppend(a, b[..n], needle);
    }
  }

  /** `--filter`: no filter (or an empty one) leaves the list as it is. */
  function ApplyFilter(captures: seq<Capture>, filter: Option<string>): (r: seq<Capture>)
    ensures filter.None? || filter.value == "" ==> r == captures
    ensures filter.Some? && filter.value != "" ==> r == Matching(captures, filter.value)
  {
    match filter
    case Some(f) => if f != "" then Matching(captures, f) else captures
    case None => captures
  }

  /** An upper-case filter matches exactly what its lower-case form matches. */
  lemma FilterIgnoresCase(captures: seq<Capture>, f: string)
    ensures Matching(captures, Lower(f)) == Matching(captures, f)
  {
    LowerIdempotent(f);
  }

  datatype SavedRecord = SavedRecord(
    scenario: string, timestamp: string, workspaceUrl: string, totalRequests: nat, requests: seq<Capture>)

  /** The record written to the output file. */
  function Output(scenario: string, timestamp: string, workspaceUrl: string,
                  captures: seq<Capture>, filter: Option<string>): (out: SavedRecord)
    ensures out.totalRequests == |out.requests|
    ensures out.requests == ApplyFilter(captures, filter)
    ensures out.totalRequests <= |captures|
  {
    var kept := ApplyFilter(captures, filter);
    SavedRecord(scenario, timestamp, workspaceUrl, |kept|, kept)
  }

  // ---------------------------------------------------------------------------
  // Tallies

  /** One counter of the `urls` or `domains` dictionary. Dictionaries keep
      insertion order, so a tally is a list in first-appearance order. */
  datatype Tally = Tally(key: string, count: nat)

  /** `d[k] = d.get(k, 0) + 1`. */
  function Bump(t: seq<Tally>, k: string): (r: seq<Tally>)
    ensures |r| == |t| || |r| == |t| + 1
  {
    if |t| == 0 then [Tally(k, 1)]
    else if t[0].key == k then [Tally(k, t[0].count + 1)] + t[1..]
    else [t[0]] + Bump(t[1..], k)
  }

  /** `d.get(k, 0)`. */
  function CountOf(t: seq<Tally>, k: string): nat {
    if |t| == 0 then 0
    else if t[0].key == k then t[0].count
    else CountOf(t[1..], k)
  }

  function Total(t: seq<Tally>): nat {
    if |t| == 0 then 0 else t[0].count + Total(t[1..])
  }

  predicate DistinctKeys(t: seq<Tally>) {
    forall i, j :: 0 <= i < j < |t| ==> Keys(t)[i] != Keys(t)[j]
  }

  predicate Positive(t: seq<Tally>) {
    forall i :: 0 <= i < |t| ==> t[i].count > 0
  }

  /** The counting loop over the keys, in order. */
  function Tallies(keys: seq<string>): seq<Tally> {
    if |keys| == 0 then []
    else Bump(Tallies(keys[..|keys| - 1]), keys[|keys| - 1])
  }

  lemma {:induction false} BumpCounts(t: seq<Tally>, k: string, x: string)
    ensures CountOf(Bump(t, k), x) == CountOf(t, x) + (if x == k then 1 else 0)
    ensures Total(Bump(t, k)) == Total(t) + 1
  {
    if |t| > 0 && t[0].key != k {
      BumpCounts(t[1..], k, x);
    }
  }

  /** The keys of a tally, in order. */
  function Keys(t: seq<Tally>): (ks: seq<string>)
    ensures |ks| == |t|
  {
    if |t| == 0 then [] else [t[0].key] + Keys(t[1..])
  }

  /** A bump adds its key at the end the first time it is seen and leaves
      the key list alone afterwards. */
  lemma {:induction false} BumpKeys(t: seq<Tally>, k: string)
    ensures Keys(Bump(t, k)) == if k in Keys(t) then Keys(t) else Keys(t) + [k]
    ensures Positive(t) ==> Positive(Bump(t, k))
  {
    if |t| > 0 {
      assert Keys(t) == [t[0].key] + Keys(t[1..]);
      if t[0].key != k {
        var rest := Bump(t[1..], k);
        BumpKeys(t[1..], k);
        assert ([t[0]] + rest)[1..] == rest;
        assert Keys(Bump(t, k)) == [t[0].key] + Keys(rest);
        assert k in Keys(t) <==> k in Keys(t[1..]);
        assert [t[0].key] + (Keys(t[1..]) + [k]) == Keys(t) + [k];
      } else {
        assert Bump(t, k)[1..] == t[1..];
        assert Keys(Bump(t, k)) == Keys(t);
      }
    }
  }

  /** Each tally counts exactly the occurrences of its key, the counts sum to
      the number of keys, each key appears once and every counter is positive. */
  lemma {:induction false} TalliesCount(keys: seq<string>)
    ensures forall x :: CountOf(Tallies(keys), x) == multiset(keys)[x]
    ensures Total(Tallies(keys)) == |keys|
    ensures DistinctKeys(Tallies(keys)) && Positive(Tallies(keys))
    ensures forall x :: x in Keys(Tallies(keys)) <==> x in keys
  {
    if |keys| > 0 {
      var n := |keys| - 1;
      var earlier := keys[..n];
      assert keys == earlier + [keys[n]];
      TalliesCount(earlier);
      forall x
        ensures CountOf(Tallies(keys), x) == multiset(keys)[x]
      {
        BumpCounts(Tallies(earlier), keys[n], x);
      }
      BumpCounts(Tallies(earlier), keys[n], keys[n]);
      BumpKeys(Tallies(earlier), keys[n]);
    }
  }

  // ---------------------------------------------------------------------------
  // Top lists

  /** Non-increasing counts: the order `sorted(..., key=count, reverse=True)` gives. */
  predicate ByCountDescending(t: seq<Tally>) {
    forall i, j :: 0 <= i < j < |t| ==> t[i].count >= t[j].count
  }

  /** Stable insertion: a new entry goes before the first entry it does not
      count below. */
  function InsertByCount(p: Tally, t: seq<Tally>): (r: seq<Tally>)
    ensures multiset(r) == multiset(t) + multiset{p}
  {
    if |t| == 0 then [p]
    else if p.count >= t[0].count then [p] + t
    else
      assert t == [t[0]] + t[1..];
      [t[0]] + InsertByCount(p, t[1..])
  }

  function SortByCount(t: seq<Tally>): (r: seq<Tally>)
    ensures multiset(r) == multiset(t)
  {
    if |t| == 0 then []
    else
      assert t == [t[0]] + t[1..];
      assert multiset(t) == multiset{t[0]} + multiset(t[1..]);
      InsertByCount(t[0], SortByCount(t[1..]))
  }

  lemma {:induction false} InsertByCountSorted(p: Tally, t: seq<Tally>)
    requires ByCountDescending(t)
    ensures ByCountDescending(InsertByCount(p, t))
  {
    if |t| > 0 && p.count < t[0].count {
      InsertByCountSorted(p, t[1..]);
      var rest := InsertByCount(p, t[1..]);
      forall j | 0 <= j < |rest|
        ensures t[0].count >= rest[j].count
      {
        assert rest[j] in multiset(rest);
        if rest[j] != p {
          assert rest[j] in multiset(t[1..]);
          var k :| 0 <= k < |t[1..]| && t[1..][k] == rest[j];
          assert t[k + 1] == rest[j];
        }
      }
    }
  }

  lemma {:induction false} SortByCountSorted(t: seq<Tally>)
    ensures ByCountDescending(SortByCount(t))
  {
    if |t| > 0 {
      SortByCountSorted(t[1..]);
      InsertByCountSorted(t[0], SortByCount(t[1..]));
    }
  }

  /** The first `n` entries of the descending order. */
  function Top(t: seq<Tally>, n: nat): (r: seq<Tally>)
    ensures |r| <= n && |r| <= |t|
    ensures |r| == if |t| <= n then |t| else n
  {
    var sorted := SortByCount(t);
    assert |sorted| == |multiset(sorted)| == |multiset(t)| == |t|;
    if |sorted| <= n then sorted else sorted[..n]
  }

  /** The top list is in descending order, drawn from the tally, and nothing
      left out counts more than anything kept. */
  lemma TopIsTop(t: seq<Tally>, n: nat)
    ensures ByCountDescending(Top(t, n))
    ensures forall q :: q in Top(t, n) ==> q in t
    ensures forall p, q :: p in t && p !in Top(t, n) && q in Top(t, n) ==> p.count <= q.count
  {
    var sorted := SortByCount(t);
    SortByCountSorted(t);
    var r := Top(t, n);
    assert r == sorted[..|r|];
    forall q | q in r
      ensures q in t
    {
      assert q in multiset(sorted);
    }
    forall p, q | p in t && p !in r && q in r
      ensures p.count <= q.count
    {
      assert p in multiset(sorted);
      var j :| 0 <= j < |sorted| && sorted[j] == p;
      var i :| 0 <= i < |r| && r[i] == q;
      assert j >= |r|;
    }
  }

  // ---------------------------------------------------------------------------
  // Summary

  /** A parsed URL: `urlparse(url).netloc` and `.path`. */
  datatype ParsedUrl = ParsedUrl(netloc: string, path: string)

  /** How many captured entries are requests. */
  function RequestCount(captures: seq<Capture>): nat {
    if |captures| == 0 then 0
    else
      var n := |captures| - 1;
      RequestCount(captures[..n]) + (if captures[n].kind == Request then 1 else 0)
  }

  /** The parsed URLs of the request entries, in capture order. */
  function RequestUrls(captures: seq<Capture>, parse: string -> ParsedUrl): (r: seq<ParsedUrl>)
    ensures |r| == RequestCount(captures)
  {
    if |captures| == 0 then []
    else
      var n := |captures| - 1;
      var earlier := RequestUrls(captures[..n], parse);
      assert RequestCount(captures) == RequestCount(captures[..n]) + (if captures[n].kind == Request then 1 else 0);
      earlier + (if captures[n].kind == Request then [parse(captures[n].url)] else [])
  }

  /** The request entry at position `i` contributes the parsed URL at the
      position given by the number of request entries before it. */
  lemma {:induction false} RequestUrlsAt(captures: seq<Capture>, parse: string -> ParsedUrl, i: nat)
    requires i < |captures| && captures[i].kind == Request
    ensures RequestCount(captures[..i]) < |RequestUrls(captures, parse)|
    ensures RequestUrls(captures, parse)[RequestCount(captures[..i])] == parse(captures[i].url)
    decreases |captures|
  {
    var n := |captures| - 1;
    var earlier := captures[..n];
    var r := RequestUrls(captures, parse);
    assert r[..|RequestUrls(earlier, parse)|] == RequestUrls(earlier, parse);
    if i < n {
      assert earlier[..i] == captures[..i];
      RequestUrlsAt(earlier, parse, i);
    } else {
      assert captures[..i] == earlier;
    }
  }

  /** Every parsed URL comes from a request entry: the one with exactly `k`
      request entries before it. */
  lemma {:induction false} RequestUrlsFrom(captures: seq<Capture>, parse: string -> ParsedUrl, k: nat)
    requires k < |RequestUrls(captures, parse)|
    ensures exists i :: 0 <= i < |captures| && captures[i].kind == Request
              && RequestCount(captures[..i]) == k
              && RequestUrls(captures, parse)[k] == parse(captures[i].url)
    decreases |captures|
  {
    var n := |captures| - 1;
    var earlier := captures[..n];
    var r := RequestUrls(captures, parse);
    assert r[..|RequestUrls(earlier, parse)|] == RequestUrls(earlier, parse);
    if k < |RequestUrls(earlier, parse)| {
      RequestUrlsFrom(earlier, parse, k);
      var i :| 0 <= i < n && earlier[i].kind == Request
               && RequestCount(earlier[..i]) == k
               && RequestUrls(earlier, parse)[k] == parse(earlier[i].url);
      assert earlier[..i] == captures[..i];
      assert captures[i] == earlier[i];
    } else {
      assert captures[..n] == earlier;
      assert captures[n].kind == Request && RequestCount(captures[..n]) == k;
    }
  }

  function Domains(urls: seq<ParsedUrl>): (r: seq<string>)
    ensures |r| == |urls|
  {
    seq(|urls|, i requires 0 <= i < |urls| => urls[i].netloc)
  }

  function Paths(urls: seq<ParsedUrl>): (r: seq<string>)
    ensures |r| == |urls|
  {
    seq(|urls|, i requires 0 <= i < |urls| => urls[i].path)
  }

  datatype Summary = Summary(topDomains: seq<Tally>, topPaths: seq<Tally>)

  /** `--summary`: the ten most frequent domains and twenty most frequent
      paths among the request entries. */
  function Summarize(captures: seq<Capture>, parse: string -> ParsedUrl): (s: Summary)
    ensures |s.topDomains| <= 10 && |s.topPaths| <= 20
    ensures var urls := RequestUrls(captures, parse);
            && |s.topDomains| == (if |Tallies(Domains(urls))| <= 10 then |Tallies(Domains(urls))| else 10)
            && |s.topPaths| == (if |Tallies(Paths(urls))| <= 20 then |Tallies(Paths(urls))| else 20)
  {
    var urls := RequestUrls(captures, parse);
    Summary(Top(Tallies(Domains(urls)), 10), Top(Tallies(Paths(urls)), 20))
  }

  /** The domain and path counters each sum to the number of request entries;
      responses are not counted. */
  lemma SummaryCountsRequests(captures: seq<Capture>, parse: string -> ParsedUrl)
    ensures var urls := RequestUrls(captures, parse);
            Total(Tallies(Domains(urls))) == RequestCount(captures)
            && Total(Tallies(Paths(urls))) == RequestCount(captures)
  {
    var urls := RequestUrls(captures, parse);
    TalliesCount(Domains(urls));
    TalliesCount(Paths(urls));
  }

  /** The summary's top lists are in descending count order. */
  lemma SummaryOrdered(captures: seq<Capture>, parse: string -> ParsedUrl)
    ensures ByCountDescending(Summarize(captures, parse).topDomains)
    ensures ByCountDescending(Summarize(captures, parse).topPaths)
  {
    var urls := RequestUrls(captures, parse);
    TopIsTop(Tallies(Domains(urls)), 10);
    TopIsTop(Tallies(Paths(urls)), 20);
  }
}

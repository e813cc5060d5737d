/**
  The collector's three entry points: query building, one rate-governor acquisition per call,
  retried searches, conversion, and for the latest posts the de-duplication by id and the cap.
  The search client is a function from a request and an attempt number to what that attempt does.
*/
module Collector {
  import opened Wrappers
  import opened Strings
  import opened XPosts
  import opened Conversion
  import opened RateGovernor
  import opened Retry

  /** `XApiSettings`, without the credentials. */
  datatype Settings = Settings(
    maxPostsPerRequest: Int32,
    rateLimitPerMinute: Int32,
    maxRetries: Int32,
    retryDelayMilliseconds: Int32,
    monitoredAccounts: seq<string>,
    monitoredCashtags: seq<string>,
    monitoredKeywords: seq<string>)

  /** The configuration defaults: 100 posts per request, 450 requests a minute, 3 tries, 1000 ms. */
  function DefaultSettings(): Settings {
    Settings(100, 450, 3, 1000, [], [], [])
  }

  /**
    Under the default settings a search runs at most three times, always ends by returning or
    throwing, and sleeps 1000 ms then 2000 ms between attempts; an exception escapes only after
    all three attempts.
  */
  lemma DefaultSearchBudget(api: SearchApi, req: SearchRequest)
    ensures var o := Search(DefaultSettings(), api, req);
      && 1 <= o.invocations <= 3
      && !o.result.Default?
      && o.delays == Backoff(1000, o.invocations - 1)
      && (o.result.Propagated? ==> o.invocations == 3 && o.delays == [1000, 2000])
  {
    var action := SearchAction(api, req);
    if action(0).Returned? {
      RetryFirstSuccess(3, 1000, action, 0);
    } else if action(1).Returned? {
      RetryFirstSuccess(3, 1000, action, 1);
    } else if action(2).Returned? {
      RetryFirstSuccess(3, 1000, action, 2);
    } else {
      RetryExhausted(3, 1000, action);
      assert Backoff(1000, 2) == [1000, 2000];
    }
  }

  /** The default settings monitor nothing, so the latest-posts call searches nothing and returns no posts. */
  lemma DefaultsCollectNothing(maxPosts: int, api: SearchApi)
    ensures GatherLatest(DefaultSettings(), maxPosts, api) == Trace(Success([]), [], 0)
    ensures LatestPosts(DefaultSettings(), maxPosts, api) == Success([])
  {
  }

  /** A search: the query text and the page size. */
  datatype SearchRequest = SearchRequest(query: string, pageSize: int)

  /** The search client: what the `i`-th attempt of a request does. */
  type SearchApi = (SearchRequest, nat) -> Attempt<seq<RawTweet>>

  /** The retried action for one request. */
  function SearchAction(api: SearchApi, req: SearchRequest): nat -> Attempt<seq<RawTweet>> {
    (i: nat) => api(req, i)
  }

  /** One retried search under the configured retry policy. */
  function Search(s: Settings, api: SearchApi, req: SearchRequest): RetryOutcome<seq<RawTweet>> {
    RetryAll(s.maxRetries as int, s.retryDelayMilliseconds as int, SearchAction(api, req))
  }

  function Min(a: int, b: int): int {
    if a < b then a else b
  }

  // ---------------------------------------------------------------------------------------------
  // Queries

  /** `from:<account>`, followed by ` (<c1> OR <c2> ...)` when cashtags are monitored. */
  function AccountQuery(account: string, cashtags: seq<string>): string {
    "from:" + account + (if |cashtags| > 0 then " (" + Join(cashtags, " OR ") + ")" else "")
  }

  /** The cashtag-and-keyword query, issued only when there is something to search for. */
  function CombinedQuery(cashtags: seq<string>, keywords: seq<string>): Option<string> {
    if |cashtags| > 0 || |keywords| > 0 then Some(Join(cashtags + keywords, " OR ")) else None
  }

  /** One optional qualifier ` <marker><value>`: the text it adds, and the term it reads back as. */
  function Qualifier(marker: string, v: Option<string>): string {
    if v.Some? then " " + marker + v.value else ""
  }

  function QualifierTerm(marker: string, v: Option<string>): seq<string> {
    if v.Some? then [marker + v.value] else []
  }

  /** The optional ` since:<date>` and ` until:<date>` qualifiers, dates already formatted. */
  function DateQualifiers(since: Option<string>, until: Option<string>): string {
    Qualifier("since:", since) + Qualifier("until:", until)
  }

  function AuthorQuery(username: string, since: Option<string>, until: Option<string>): string {
    "from:" + username + DateQualifiers(since, until)
  }

  function CashtagsQuery(cashtags: seq<string>, since: Option<string>, until: Option<string>): string {
    Join(cashtags, " OR ") + DateQualifiers(since, until)
  }

  /** The terms ` since:<date>` and ` until:<date>` add to a query, as `String.Split()` would see them. */
  function DateTerms(since: Option<string>, until: Option<string>): seq<string> {
    QualifierTerm("since:", since) + QualifierTerm("until:", until)
  }

  /** Appending a space and a whitespace-free term adds exactly that term to the pieces. */
  lemma AppendTerm(a: string, t: string)
    requires SepFree(t, IsWhiteSpace)
    ensures Split(a + " " + t, IsWhiteSpace) == Split(a, IsWhiteSpace) + [t]
  {
    assert a + " " + t == a + [' '] + t;
    SplitAtSeparator(a, ' ', t, IsWhiteSpace);
    SplitSepFree(t, IsWhiteSpace);
  }

  /** A marker followed by a whitespace-free value is whitespace-free. */
  lemma MarkedSepFree(marker: string, v: string)
    requires SepFree(marker, IsWhiteSpace) && SepFree(v, IsWhiteSpace)
    ensures SepFree(marker + v, IsWhiteSpace)
  {
    assert forall i :: 0 <= i < |marker + v| ==> (marker + v)[i] == if i < |marker| then marker[i] else v[i - |marker|];
  }

  /**
    Date qualifiers with whitespace-free dates read back as separate terms after those of the
    query they qualify: `since:<date>` first, then `until:<date>`.
  */
  lemma ConcatAssoc<T>(a: seq<T>, b: seq<T>, c: seq<T>)
    ensures a + (b + c) == (a + b) + c
  {
  }

  /** An optional qualifier with a whitespace-free marker and value adds exactly its term. */
  lemma QualifierTerms(a: string, marker: string, v: Option<string>)
    requires SepFree(marker, IsWhiteSpace)
    requires v.Some? ==> SepFree(v.value, IsWhiteSpace)
    ensures Split(a + Qualifier(marker, v), IsWhiteSpace) == Split(a, IsWhiteSpace) + QualifierTerm(marker, v)
  {
    if v.Some? {
      MarkedSepFree(marker, v.value);
      AppendTerm(a, marker + v.value);
      assert a + Qualifier(marker, v) == a + " " + (marker + v.value);
    } else {
      assert a + "" == a;
      assert Split(a, IsWhiteSpace) + [] == Split(a, IsWhiteSpace);
    }
  }

  /**
    Date qualifiers with whitespace-free dates read back as separate terms after those of the
    query they qualify: `since:<date>` first, then `until:<date>`.
  */
  lemma QualifiedTerms(head: string, since: Option<string>, until: Option<string>)
    requires since.Some? ==> SepFree(since.value, IsWhiteSpace)
    requires until.Some? ==> SepFree(until.value, IsWhiteSpace)
    ensures Split(head + DateQualifiers(since, until), IsWhiteSpace) == Split(head, IsWhiteSpace) + DateTerms(since, until)
  {
    var a := head + Qualifier("since:", since);
    ConcatAssoc(head, Qualifier("since:", since), Qualifier("until:", until));
    QualifierTerms(head, "since:", since);
    QualifierTerms(a, "until:", until);
    ConcatAssoc(Split(head, IsWhiteSpace), QualifierTerm("since:", since), QualifierTerm("until:", until));
  }

  /**
    An author query for a whitespace-free user name and dates splits into `from:<user>` followed
    by the date terms, so the search sees exactly the author and the range asked for.
  */
  lemma AuthorQueryTerms(username: string, since: Option<string>, until: Option<string>)
    requires SepFree(username, IsWhiteSpace)
    requires since.Some? ==> SepFree(since.value, IsWhiteSpace)
    requires until.Some? ==> SepFree(until.value, IsWhiteSpace)
    ensures Split(AuthorQuery(username, since, until), IsWhiteSpace) == ["from:" + username] + DateTerms(since, until)
  {
    MarkedSepFree("from:", username);
    SplitSepFree("from:" + username, IsWhiteSpace);
    QualifiedTerms("from:" + username, since, until);
  }

  /**
    A cashtag query keeps the ` OR ` alternatives of the cashtags and adds the date terms after
    them.
  */
  lemma CashtagsQueryTerms(cashtags: seq<string>, since: Option<string>, until: Option<string>)
    requires since.Some? ==> SepFree(since.value, IsWhiteSpace)
    requires until.Some? ==> SepFree(until.value, IsWhiteSpace)
    ensures Split(CashtagsQuery(cashtags, since, until), IsWhiteSpace)
         == Split(Join(cashtags, " OR "), IsWhiteSpace) + DateTerms(since, until)
  {
    QualifiedTerms(Join(cashtags, " OR "), since, until);
  }

  /**
    The combined query is absent exactly when there are neither cashtags nor keywords; with both
    it is the cashtag alternatives, ` OR `, then the keyword alternatives.
  */
  lemma CombinedQueryShape(cashtags: seq<string>, keywords: seq<string>)
    ensures CombinedQuery(cashtags, keywords) == None <==> cashtags == [] && keywords == []
    ensures |cashtags| > 0 && |keywords| > 0 ==>
      CombinedQuery(cashtags, keywords) == Some(Join(cashtags, " OR ") + " OR " + Join(keywords, " OR "))
    ensures keywords == [] ==> CombinedQuery(cashtags, keywords) == if cashtags == [] then None
      else Some(Join(cashtags, " OR "))
  {
    if |cashtags| > 0 && |keywords| > 0 {
      JoinAppend(cashtags, keywords, " OR ");
    }
    assert cashtags + [] == cashtags;
  }

  // ---------------------------------------------------------------------------------------------
  // DistinctBy(p => p.Id) and Take(n)

  function Ids(ps: seq<XPost>): set<string> {
    set p | p in ps :: p.id
  }

  /** Where the id first occurs. */
  function FirstIndex(ps: seq<XPost>, id: string): (k: nat)
    requires id in Ids(ps)
    ensures k < |ps| && ps[k].id == id
    ensures forall j :: 0 <= j < k ==> ps[j].id != id
  {
    if ps[0].id == id then 0
    else
      assert id in Ids(ps[1..]) by {
        var p :| p in ps && p.id == id;
        var j :| 0 <= j < |ps| && ps[j] == p;
        assert ps[1..][j - 1] == p;
      }
      1 + FirstIndex(ps[1..], id)
  }

  /** `DistinctBy(p => p.Id)`: keeps the first post of every id, in order. */
  function DistinctById(ps: seq<XPost>): seq<XPost> {
    if ps == [] then []
    else
      var init := ps[..|ps| - 1];
      var r := DistinctById(init);
      if ps[|ps| - 1].id in Ids(init) then r else r + [ps[|ps| - 1]]
  }

  /** `Take(n)`: the first `n` elements, none when `n <= 0`. */
  function Take<T>(xs: seq<T>, n: int): (r: seq<T>)
    ensures |r| == Min(if n < 0 then 0 else n, |xs|)
    ensures r == xs[..|r|]
  {
    if n <= 0 then [] else if n >= |xs| then xs else xs[..n]
  }

  lemma IdsAppend(init: seq<XPost>, last: XPost)
    ensures Ids(init + [last]) == Ids(init) + {last.id}
  {
    var ps := init + [last];
    forall id | id in Ids(ps) ensures id in Ids(init) + {last.id} {
      var p :| p in ps && p.id == id;
      if p != last {
        var j :| 0 <= j < |ps| && ps[j] == p;
        assert init[j] == p;
      }
    }
    forall id | id in Ids(init) ensures id in Ids(ps) {
      var p :| p in init && p.id == id;
      assert p in ps;
    }
    assert last in ps;
  }

  lemma FirstIndexExtend(init: seq<XPost>, last: XPost, id: string)
    requires id in Ids(init)
    ensures id in Ids(init + [last]) && FirstIndex(init + [last], id) == FirstIndex(init, id)
  {
    IdsAppend(init, last);
    var ps := init + [last];
    var k' := FirstIndex(init, id);
    assert ps[k'] == init[k'];
    assert forall j :: 0 <= j < k' ==> ps[j] == init[j];
  }

  lemma FirstIndexLast(init: seq<XPost>, last: XPost)
    requires last.id !in Ids(init)
    ensures last.id in Ids(init + [last]) && FirstIndex(init + [last], last.id) == |init|
  {
    IdsAppend(init, last);
    var ps := init + [last];
    assert forall j :: 0 <= j < |init| ==> ps[j] == init[j] && init[j] in init;
  }

  /** Every id of the input survives de-duplication, and no other. */
  lemma {:induction false} DistinctIds(ps: seq<XPost>)
    ensures Ids(DistinctById(ps)) == Ids(ps)
    ensures |DistinctById(ps)| <= |ps|
  {
    if ps != [] {
      var init, last := ps[..|ps| - 1], ps[|ps| - 1];
      assert ps == init + [last];
      DistinctIds(init);
      IdsAppend(init, last);
      IdsAppend(DistinctById(init), last);
    }
  }

  /** Each kept post is the first post of its id in the input. */
  lemma {:induction false} DistinctKeepsFirst(ps: seq<XPost>)
    ensures forall k :: 0 <= k < |DistinctById(ps)| ==>
      DistinctById(ps)[k].id in Ids(ps) && DistinctById(ps)[k] == ps[FirstIndex(ps, DistinctById(ps)[k].id)]
  {
    if ps != [] {
      var init, last := ps[..|ps| - 1], ps[|ps| - 1];
      assert ps == init + [last];
      var r0, r := DistinctById(init), DistinctById(ps);
      DistinctKeepsFirst(init);
      forall k | 0 <= k < |r| ensures r[k].id in Ids(ps) && r[k] == ps[FirstIndex(ps, r[k].id)] {
        if k < |r0| {
          assert r[k] == r0[k];
          FirstIndexExtend(init, last, r0[k].id);
          assert init[FirstIndex(init, r0[k].id)] == ps[FirstIndex(init, r0[k].id)];
        } else {
          FirstIndexLast(init, last);
        }
      }
    }
  }

  /** Post `a`'s id first occurs in `ps` before post `b`'s. */
  ghost predicate FirstBefore(ps: seq<XPost>, a: XPost, b: XPost) {
    a.id in Ids(ps) && b.id in Ids(ps) && FirstIndex(ps, a.id) < FirstIndex(ps, b.id)
  }

  lemma FirstBeforeExtend(init: seq<XPost>, last: XPost, a: XPost, b: XPost)
    requires FirstBefore(init, a, b)
    ensures FirstBefore(init + [last], a, b)
  {
    FirstIndexExtend(init, last, a.id);
    FirstIndexExtend(init, last, b.id);
  }

  lemma FirstBeforeLast(init: seq<XPost>, last: XPost, a: XPost)
    requires a.id in Ids(init) && last.id !in Ids(init)
    ensures FirstBefore(init + [last], a, last)
  {
    FirstIndexExtend(init, last, a.id);
    FirstIndexLast(init, last);
  }

  /** Kept posts appear in the order of their ids' first occurrences. */
  lemma {:induction false} DistinctKeepsOrder(ps: seq<XPost>)
    ensures forall k1, k2 :: 0 <= k1 < k2 < |DistinctById(ps)| ==> FirstBefore(ps, DistinctById(ps)[k1], DistinctById(ps)[k2])
  {
    if ps != [] {
      var init, last := ps[..|ps| - 1], ps[|ps| - 1];
      assert ps == init + [last];
      var r0, r := DistinctById(init), DistinctById(ps);
      DistinctKeepsOrder(init);
      DistinctKeepsFirst(init);
      forall k1, k2 | 0 <= k1 < k2 < |r| ensures FirstBefore(ps, r[k1], r[k2]) {
        assert r[k1] == r0[k1];
        if k2 < |r0| {
          assert r[k2] == r0[k2];
          FirstBeforeExtend(init, last, r0[k1], r0[k2]);
        } else {
          FirstBeforeLast(init, last, r0[k1]);
        }
      }
    }
  }

  /** What `DistinctById` promises about its result `r`. */
  ghost predicate FirstOccurrences(ps: seq<XPost>, r: seq<XPost>) {
    && Ids(r) == Ids(ps)
    && |r| <= |ps|
    && (forall k :: 0 <= k < |r| ==> r[k].id in Ids(ps) && r[k] == ps[FirstIndex(ps, r[k].id)])
    && (forall k1, k2 :: 0 <= k1 < k2 < |r| ==> FirstBefore(ps, r[k1], r[k2]))
  }

  /**
    De-duplication keeps every id of the input exactly once, each by its first post, in the order
    of first occurrence: the ids of the result are pairwise distinct.
  */
  lemma DistinctByIdSpec(ps: seq<XPost>)
    ensures FirstOccurrences(ps, DistinctById(ps))
    ensures forall k1, k2 :: 0 <= k1 < k2 < |DistinctById(ps)| ==> DistinctById(ps)[k1].id != DistinctById(ps)[k2].id
  {
    DistinctIds(ps);
    DistinctKeepsFirst(ps);
    DistinctKeepsOrder(ps);
  }

  /** `DistinctBy(Id)` then `Take(n)`: distinct ids, at most `n` posts, each its id's first post, in order. */
  lemma DistinctTakeSpec(ps: seq<XPost>, n: int)
    ensures var r := Take(DistinctById(ps), n);
      && |r| == Min(MaxZero(n), |DistinctById(ps)|)
      && |r| <= (if n < 0 then 0 else n)
      && (forall k1, k2 :: 0 <= k1 < k2 < |r| ==> r[k1].id != r[k2].id)
      && (forall k :: 0 <= k < |r| ==> r[k].id in Ids(ps) && r[k] == ps[FirstIndex(ps, r[k].id)])
      && (forall k1, k2 :: 0 <= k1 < k2 < |r| ==> FirstBefore(ps, r[k1], r[k2]))
  {
    DistinctByIdSpec(ps);
    var d := DistinctById(ps);
    var r := Take(d, n);
    assert forall k :: 0 <= k < |r| ==> r[k] == d[k];
  }

  /**
    A post id found by two queries is kept, by the first query's post, and every kept post with
    that id is that post.
  */
  lemma DuplicateKeptOnce(ps: seq<XPost>, qs: seq<XPost>, p: XPost, q: XPost)
    requires p in ps && q in qs && p.id == q.id && forall x :: x in ps && x.id == p.id ==> x == p
    ensures p in DistinctById(ps + qs)
    ensures forall k :: 0 <= k < |DistinctById(ps + qs)| && DistinctById(ps + qs)[k].id == q.id ==>
      DistinctById(ps + qs)[k] == p
  {
    var all := ps + qs;
    var r := DistinctById(all);
    DistinctIds(all);
    DistinctKeepsFirst(all);
    assert p in all;
    var f := FirstIndex(all, p.id);
    var j :| 0 <= j < |ps| && ps[j] == p;
    assert all[j] == p;
    assert all[f] == ps[f] && ps[f] in ps;
    assert p.id in Ids(r);
    var x :| x in r && x.id == p.id;
  }

  // ---------------------------------------------------------------------------------------------
  // CollectLatestPostsAsync as a function of the settings and the search client

  /** Posts gathered so far (or the exception that ended the call), delays slept, searches issued. */
  datatype Trace = Trace(posts: Result<seq<XPost>, ApiError>, delays: seq<int>, calls: nat)

  /** One retried search added to the trace: its tweets are converted and appended; `default` adds nothing. */
  function Absorb(tr: Trace, o: RetryOutcome<seq<RawTweet>>): Trace
    requires tr.posts.Success?
  {
    var posts := match o.result
      case Succeeded(ts) => Success(tr.posts.value + ConvertAll(ts))
      case Default => Success(tr.posts.value)
      case Propagated(e) => Failure(e);
    Trace(posts, tr.delays + o.delays, tr.calls + o.invocations)
  }

  /** The per-account searches, in account order; the first escaping exception ends them. */
  function AccountsTrace(s: Settings, pageSize: int, api: SearchApi, accounts: seq<string>): Trace
    decreases |accounts|
  {
    if accounts == [] then Trace(Success([]), [], 0)
    else
      var tr := AccountsTrace(s, pageSize, api, accounts[..|accounts| - 1]);
      if tr.posts.Failure? then tr
      else Absorb(tr, Search(s, api, SearchRequest(AccountQuery(accounts[|accounts| - 1], s.monitoredCashtags), pageSize)))
  }

  /** The per-account searches followed by the combined cashtag-and-keyword search. */
  function GatherLatest(s: Settings, maxPosts: int, api: SearchApi): Trace {
    var pageSize := Min(maxPosts, s.maxPostsPerRequest as int);
    var tr := AccountsTrace(s, pageSize, api, s.monitoredAccounts);
    if tr.posts.Failure? then tr
    else match CombinedQuery(s.monitoredCashtags, s.monitoredKeywords)
      case None => tr
      case Some(q) => Absorb(tr, Search(s, api, SearchRequest(q, pageSize)))
  }

  /** `GatherLatest` by cases, without looking into the searches. */
  lemma GatherLatestUnfold(s: Settings, maxPosts: int, api: SearchApi)
    ensures var pageSize := Min(maxPosts, s.maxPostsPerRequest as int);
      var tr := AccountsTrace(s, pageSize, api, s.monitoredAccounts);
      GatherLatest(s, maxPosts, api)
        == if tr.posts.Failure? || (|s.monitoredCashtags| == 0 && |s.monitoredKeywords| == 0) then tr
           else Absorb(tr, Search(s, api, SearchRequest(Join(s.monitoredCashtags + s.monitoredKeywords, " OR "), pageSize)))
  {
  }

  /** The result of `CollectLatestPostsAsync(maxPosts)`. */
  function LatestPosts(s: Settings, maxPosts: int, api: SearchApi): Result<seq<XPost>, ApiError> {
    match GatherLatest(s, maxPosts, api).posts
    case Failure(e) => Failure(e)
    case Success(ps) => Success(Take(DistinctById(ps), maxPosts))
  }

  /** The result of a single-query collection (`CollectPostsByAuthorAsync`, `CollectPostsByCashtagsAsync`). */
  function QueryPosts(s: Settings, api: SearchApi, query: string): Result<seq<XPost>, ApiError> {
    match Search(s, api, SearchRequest(query, s.maxPostsPerRequest as int)).result
    case Succeeded(ts) => Success(ConvertAll(ts))
    case Default => Success([])
    case Propagated(e) => Failure(e)
  }

  lemma AccountsFailureStep(s: Settings, pageSize: int, api: SearchApi, accounts: seq<string>)
    requires accounts != [] && AccountsTrace(s, pageSize, api, accounts[..|accounts| - 1]).posts.Failure?
    ensures AccountsTrace(s, pageSize, api, accounts) == AccountsTrace(s, pageSize, api, accounts[..|accounts| - 1])
  {
  }

  /** Once an exception escapes, the remaining accounts are not searched. */
  lemma {:induction false} AccountsFailureSticks(s: Settings, pageSize: int, api: SearchApi, accounts: seq<string>, n: nat)
    requires n <= |accounts|
    requires AccountsTrace(s, pageSize, api, accounts[..n]).posts.Failure?
    ensures AccountsTrace(s, pageSize, api, accounts) == AccountsTrace(s, pageSize, api, accounts[..n])
    decreases |accounts| - n
  {
    if n < |accounts| {
      var longer := accounts[..n + 1];
      assert longer[..|longer| - 1] == accounts[..n];
      AccountsFailureStep(s, pageSize, api, longer);
      AccountsFailureSticks(s, pageSize, api, accounts, n + 1);
    } else {
      assert accounts[..n] == accounts;
    }
  }

  /**
    The latest-posts result: ids pairwise distinct, at most `maxPosts` posts, each the first post
    of its id among everything gathered, in the order those first posts were gathered.
  */
  lemma LatestPostsSpec(s: Settings, maxPosts: int, api: SearchApi)
    requires LatestPosts(s, maxPosts, api).Success?
    ensures var gathered := GatherLatest(s, maxPosts, api).posts.value;
      var r := LatestPosts(s, maxPosts, api).value;
      && |r| == Min(MaxZero(maxPosts), |DistinctById(gathered)|)
      && |r| <= (if maxPosts < 0 then 0 else maxPosts)
      && (forall k1, k2 :: 0 <= k1 < k2 < |r| ==> r[k1].id != r[k2].id)
      && (forall k :: 0 <= k < |r| ==> r[k].id in Ids(gathered) && r[k] == gathered[FirstIndex(gathered, r[k].id)])
      && (forall k1, k2 :: 0 <= k1 < k2 < |r| ==> FirstBefore(gathered, r[k1], r[k2]))
  {
    DistinctTakeSpec(GatherLatest(s, maxPosts, api).posts.value, maxPosts);
  }

  function MaxZero(n: int): nat {
    if n < 0 then 0 else n
  }

  lemma MulStep(n: nat, m: nat)
    ensures (n + 1) * m == n * m + m
  {
  }

  /** One retried search issues at most `max(MaxRetries, 0)` attempts. */
  lemma SearchCallsBound(s: Settings, api: SearchApi, req: SearchRequest)
    ensures Search(s, api, req).invocations <= MaxZero(s.maxRetries as int)
  {
    RetryShape(s.maxRetries as int, s.retryDelayMilliseconds as int, SearchAction(api, req));
  }

  lemma AccountsStepCalls(s: Settings, pageSize: int, api: SearchApi, accounts: seq<string>)
    requires accounts != []
    ensures AccountsTrace(s, pageSize, api, accounts).calls
         <= AccountsTrace(s, pageSize, api, accounts[..|accounts| - 1]).calls
          + Search(s, api, SearchRequest(AccountQuery(accounts[|accounts| - 1], s.monitoredCashtags), pageSize)).invocations
  {
  }

  lemma {:induction false} AccountsCallsBound(s: Settings, pageSize: int, api: SearchApi, accounts: seq<string>)
    ensures AccountsTrace(s, pageSize, api, accounts).calls <= |accounts| * MaxZero(s.maxRetries as int)
    decreases |accounts|
  {
    if accounts != [] {
      var init := accounts[..|accounts| - 1];
      var m := MaxZero(s.maxRetries as int);
      var n: nat := |init|;
      AccountsCallsBound(s, pageSize, api, init);
      AccountsStepCalls(s, pageSize, api, accounts);
      SearchCallsBound(s, api, SearchRequest(AccountQuery(accounts[|accounts| - 1], s.monitoredCashtags), pageSize));
      ghost var t, t0 := AccountsTrace(s, pageSize, api, accounts).calls, AccountsTrace(s, pageSize, api, init).calls;
      ghost var o := Search(s, api, SearchRequest(AccountQuery(accounts[|accounts| - 1], s.monitoredCashtags), pageSize)).invocations;
      assert t <= t0 + o && t0 <= n * m && o <= m;
      MulStep(n, m);
      assert |accounts| == n + 1;
      assert t <= (n + 1) * m;
    }
  }

  /**
    One invocation issues at most `(accounts + 1) * MaxRetries` searches, although the rate governor
    counts it as a single request.
  */
  lemma LatestCallsBound(s: Settings, maxPosts: int, api: SearchApi)
    ensures GatherLatest(s, maxPosts, api).calls <= (|s.monitoredAccounts| + 1) * MaxZero(s.maxRetries as int)
  {
    var pageSize := Min(maxPosts, s.maxPostsPerRequest as int);
    var n, m := |s.monitoredAccounts|, MaxZero(s.maxRetries as int);
    var tr := AccountsTrace(s, pageSize, api, s.monitoredAccounts);
    AccountsCallsBound(s, pageSize, api, s.monitoredAccounts);
    GatherLatestUnfold(s, maxPosts, api);
    if !(tr.posts.Failure? || (|s.monitoredCashtags| == 0 && |s.monitoredKeywords| == 0)) {
      var req := SearchRequest(Join(s.monitoredCashtags + s.monitoredKeywords, " OR "), pageSize);
      SearchCallsBound(s, api, req);
      assert GatherLatest(s, maxPosts, api).calls == tr.calls + Search(s, api, req).invocations;
    }
    MulStep(n, m);
  }

  /** A search client whose first attempt always returns. */
  ghost predicate FirstAttemptsSucceed(api: SearchApi) {
    forall req :: api(req, 0).Returned?
  }

  lemma {:induction false} AccountsCallsWhenAllSucceed(s: Settings, pageSize: int, api: SearchApi, accounts: seq<string>)
    requires s.maxRetries >= 1 && FirstAttemptsSucceed(api)
    ensures AccountsTrace(s, pageSize, api, accounts).posts.Success?
    ensures AccountsTrace(s, pageSize, api, accounts).calls == |accounts|
    decreases |accounts|
  {
    if accounts != [] {
      AccountsCallsWhenAllSucceed(s, pageSize, api, accounts[..|accounts| - 1]);
      var req := SearchRequest(AccountQuery(accounts[|accounts| - 1], s.monitoredCashtags), pageSize);
      RetryFirstSuccess(s.maxRetries as int, s.retryDelayMilliseconds as int, SearchAction(api, req), 0);
    }
  }

  /**
    With a client that always answers, one invocation issues one search per monitored account
    plus the combined search, while the governor counts one request.
  */
  lemma LatestCallsWhenAllSucceed(s: Settings, maxPosts: int, api: SearchApi)
    requires s.maxRetries >= 1 && FirstAttemptsSucceed(api)
    ensures GatherLatest(s, maxPosts, api).calls
         == |s.monitoredAccounts| + (if |s.monitoredCashtags| > 0 || |s.monitoredKeywords| > 0 then 1 else 0)
  {
    var pageSize := Min(maxPosts, s.maxPostsPerRequest as int);
    AccountsCallsWhenAllSucceed(s, pageSize, api, s.monitoredAccounts);
    var q := CombinedQuery(s.monitoredCashtags, s.monitoredKeywords);
    if q.Some? {
      RetryFirstSuccess(s.maxRetries as int, s.retryDelayMilliseconds as int, SearchAction(api, SearchRequest(q.value, pageSize)), 0);
    }
  }

  /** The converted posts of a request's first answer (none when that attempt throws). */
  function FirstAnswer(api: SearchApi, req: SearchRequest): seq<XPost> {
    match api(req, 0)
    case Returned(ts) => ConvertAll(ts)
    case Threw(_) => []
  }

  /** The first answers to the per-account queries, concatenated in account order. */
  function FirstAnswers(s: Settings, pageSize: int, api: SearchApi, accounts: seq<string>): seq<XPost>
    decreases |accounts|
  {
    if accounts == [] then []
    else
      var req := SearchRequest(AccountQuery(accounts[|accounts| - 1], s.monitoredCashtags), pageSize);
      FirstAnswers(s, pageSize, api, accounts[..|accounts| - 1]) + FirstAnswer(api, req)
  }

  /** With a client that always answers, the account loop gathers each account's answer, in account order. */
  lemma {:induction false} AccountsPostsWhenAllSucceed(s: Settings, pageSize: int, api: SearchApi, accounts: seq<string>)
    requires s.maxRetries >= 1 && FirstAttemptsSucceed(api)
    ensures AccountsTrace(s, pageSize, api, accounts).posts == Success(FirstAnswers(s, pageSize, api, accounts))
    decreases |accounts|
  {
    if accounts != [] {
      AccountsPostsWhenAllSucceed(s, pageSize, api, accounts[..|accounts| - 1]);
      var req := SearchRequest(AccountQuery(accounts[|accounts| - 1], s.monitoredCashtags), pageSize);
      RetryFirstSuccess(s.maxRetries as int, s.retryDelayMilliseconds as int, SearchAction(api, req), 0);
    }
  }

  /**
    With a client that always answers, the posts gathered for the latest-posts call are the
    per-account answers in account order, followed by the combined query's answer when there is
    something to search for.
  */
  lemma LatestGatheredWhenAllSucceed(s: Settings, maxPosts: int, api: SearchApi)
    requires s.maxRetries >= 1 && FirstAttemptsSucceed(api)
    ensures var pageSize := Min(maxPosts, s.maxPostsPerRequest as int);
      GatherLatest(s, maxPosts, api).posts == Success(FirstAnswers(s, pageSize, api, s.monitoredAccounts)
        + if |s.monitoredCashtags| == 0 && |s.monitoredKeywords| == 0 then []
          else FirstAnswer(api, SearchRequest(Join(s.monitoredCashtags + s.monitoredKeywords, " OR "), pageSize)))
  {
    var pageSize := Min(maxPosts, s.maxPostsPerRequest as int);
    AccountsPostsWhenAllSucceed(s, pageSize, api, s.monitoredAccounts);
    var q := CombinedQuery(s.monitoredCashtags, s.monitoredKeywords);
    if q.Some? {
      RetryFirstSuccess(s.maxRetries as int, s.retryDelayMilliseconds as int, SearchAction(api, SearchRequest(q.value, pageSize)), 0);
    } else {
      var a := FirstAnswers(s, pageSize, api, s.monitoredAccounts);
      assert a + [] == a;
    }
  }

  // ---------------------------------------------------------------------------------------------

  /** One retried search whose converted tweets are appended to the posts gathered so far. */
  method SearchAndAbsorb(s: Settings, api: SearchApi, req: SearchRequest, tr: Trace) returns (tr': Trace)
    requires tr.posts.Success?
    ensures tr' == Absorb(tr, Search(s, api, req))
  {
    var out := ExecuteWithRetry(s.maxRetries as int, s.retryDelayMilliseconds as int, SearchAction(api, req));
    var posts := tr.posts.value;
    match out.result {
      case Propagated(e) =>
        tr' := Trace(Failure(e), tr.delays + out.delays, tr.calls + out.invocations);
      case Succeeded(tweets) =>
        tr' := Trace(Success(posts + ConvertAll(tweets)), tr.delays + out.delays, tr.calls + out.invocations);
      case Default =>
        tr' := Trace(Success(posts), tr.delays + out.delays, tr.calls + out.invocations);
    }
  }

  /** The per-account loop: one search per account, stopped by the first exception that escapes. */
  method SearchAccounts(s: Settings, pageSize: int, api: SearchApi, accounts: seq<string>) returns (tr: Trace)
    ensures tr == AccountsTrace(s, pageSize, api, accounts)
    ensures tr.posts.Success? ==> tr.calls <= |accounts| * MaxZero(s.maxRetries as int)
  {
    tr := Trace(Success([]), [], 0);
    var i := 0;
    while i < |accounts| && tr.posts.Success?
      invariant 0 <= i <= |accounts|
      invariant tr == AccountsTrace(s, pageSize, api, accounts[..i])
    {
      var query := "from:" + accounts[i];
      if |s.monitoredCashtags| > 0 {
        query := query + " (" + Join(s.monitoredCashtags, " OR ") + ")";
      }
      assert query == AccountQuery(accounts[i], s.monitoredCashtags);
      assert accounts[..i + 1][..i] == accounts[..i];
      tr := SearchAndAbsorb(s, api, SearchRequest(query, pageSize), tr);
      i := i + 1;
    }
    if i < |accounts| {
      AccountsFailureSticks(s, pageSize, api, accounts, i);
    } else {
      assert accounts[..i] == accounts;
    }
    AccountsCallsBound(s, pageSize, api, accounts);
  }

  /** The searches of one `CollectLatestPostsAsync` call: the page size is the smaller of the two limits. */
  method Gather(s: Settings, maxPosts: Int32, api: SearchApi) returns (tr: Trace)
    ensures tr == GatherLatest(s, maxPosts as int, api)
  {
    var pageSize := if maxPosts < s.maxPostsPerRequest then maxPosts else s.maxPostsPerRequest;
    assert pageSize as int == Min(maxPosts as int, s.maxPostsPerRequest as int);
    tr := SearchAccounts(s, pageSize as int, api, s.monitoredAccounts);
    GatherLatestUnfold(s, maxPosts as int, api);
    if tr.posts.Success? && (|s.monitoredCashtags| > 0 || |s.monitoredKeywords| > 0) {
      var query := Join(s.monitoredCashtags + s.monitoredKeywords, " OR ");
      tr := SearchAndAbsorb(s, api, SearchRequest(query, pageSize as int), tr);
    }
  }

  /** `XPostCollector`: the settings and the rate governor it owns. */
  class XPostCollector {
    const settings: Settings
    const governor: Governor

    ghost predicate Valid()
      reads this, governor
    {
      governor.Valid() && governor.rateLimitPerMinute == settings.rateLimitPerMinute
    }

    constructor (s: Settings)
      ensures Valid() && settings == s && fresh(governor)
      ensures governor.State() == Window(0, MinValueTicks)
    {
      settings := s;
      governor := new Governor(s.rateLimitPerMinute);
    }

    /**
      `CollectLatestPostsAsync(maxPosts)`: one acquisition at `now` (the clock reads
      `nowAfterWait` after any wait), then the searches; returns the result, the rate wait, the
      backoff delays and the number of searches issued.
    */
    method CollectLatestPosts(maxPosts: Int32, now: int, nowAfterWait: int, api: SearchApi)
      returns (result: Result<seq<XPost>, ApiError>, rateWait: int, backoffs: seq<int>, calls: nat)
      requires Valid()
      modifies governor
      ensures Valid()
      ensures var g := AcquireStep(old(governor.State()), settings.rateLimitPerMinute as int, now, nowAfterWait);
        governor.State() == g.window && rateWait == g.wait
      ensures result == LatestPosts(settings, maxPosts as int, api)
      ensures backoffs == GatherLatest(settings, maxPosts as int, api).delays
      ensures calls == GatherLatest(settings, maxPosts as int, api).calls
    {
      rateWait := governor.Acquire(now, nowAfterWait);

      var tr := Gather(settings, maxPosts, api);
      backoffs, calls := tr.delays, tr.calls;
      result := match tr.posts
        case Failure(e) => Failure(e)
        case Success(posts) => Success(Take(DistinctById(posts), maxPosts as int));
    }

    /** `CollectPostsByAuthorAsync(username, startTime, endTime)`, dates already formatted. */
    method CollectPostsByAuthor(username: string, since: Option<string>, until: Option<string>,
                                now: int, nowAfterWait: int, api: SearchApi)
      returns (result: Result<seq<XPost>, ApiError>, rateWait: int, backoffs: seq<int>)
      requires Valid()
      modifies governor
      ensures Valid()
      ensures var g := AcquireStep(old(governor.State()), settings.rateLimitPerMinute as int, now, nowAfterWait);
        governor.State() == g.window && rateWait == g.wait
      ensures result == QueryPosts(settings, api, AuthorQuery(username, since, until))
      ensures backoffs == Search(settings, api, SearchRequest(AuthorQuery(username, since, until), settings.maxPostsPerRequest as int)).delays
    {
      rateWait := governor.Acquire(now, nowAfterWait);
      var query := AuthorQuery(username, since, until);
      var out := ExecuteWithRetry(settings.maxRetries as int, settings.retryDelayMilliseconds as int,
                                  SearchAction(api, SearchRequest(query, settings.maxPostsPerRequest as int)));
      backoffs := out.delays;
      result := match out.result
        case Succeeded(tweets) => Success(ConvertAll(tweets))
        case Default => Success([])
        case Propagated(e) => Failure(e);
    }

    /** `CollectPostsByCashtagsAsync(cashtags, startTime, endTime)`, dates already formatted. */
    method CollectPostsByCashtags(cashtags: seq<string>, since: Option<string>, until: Option<string>,
                                  now: int, nowAfterWait: int, api: SearchApi)
      returns (result: Result<seq<XPost>, ApiError>, rateWait: int, backoffs: seq<int>)
      requires Valid()
      modifies governor
      ensures Valid()
      ensures var g := AcquireStep(old(governor.State()), settings.rateLimitPerMinute as int, now, nowAfterWait);
        governor.State() == g.window && rateWait == g.wait
      ensures result == QueryPosts(settings, api, CashtagsQuery(cashtags, since, until))
      ensures backoffs == Search(settings, api, SearchRequest(CashtagsQuery(cashtags, since, until), settings.maxPostsPerRequest as int)).delays
    {
      rateWait := governor.Acquire(now, nowAfterWait);
      var query := CashtagsQuery(cashtags, since, until);
      var out := ExecuteWithRetry(settings.maxRetries as int, settings.retryDelayMilliseconds as int,
                                  SearchAction(api, SearchRequest(query, settings.maxPostsPerRequest as int)));
      backoffs := out.delays;
      result := match out.result
        case Succeeded(tweets) => Success(ConvertAll(tweets))
        case Default => Success([])
        case Propagated(e) => Failure(e);
    }
  }
}

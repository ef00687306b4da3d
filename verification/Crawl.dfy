/**
 One bounded breadth-first crawl of an origin.

 Pages are identified by their canonical address. What the network answers, when
 page and crawl contexts end, and whether the sink accepts a batch are all
 decided by the environment, request by request.
 */
module Crawl {
  import opened Wrappers
  import Retry

  type Url = string

  /** What one request comes to: a terminal failure, a redirect off the origin or within it, or a parsed page. */
  datatype Answer =
    | Failed(category: Retry.Category, retryAfter: int)
    | Away(origin: string)
    | Hop(next: Url)
    | Parsed(internal: seq<Url>, candidates: seq<string>)

  /** The environment; every choice is a function of how many requests or pages came before. */
  datatype Env = Env(answer: (nat, Url) -> Answer, timedOut: nat -> bool, canceled: nat -> bool, sinkFails: nat -> bool)

  datatype Config = Config(maxDepth: nat, maxPages: nat, redirectLimit: nat)

  predicate ValidConfig(c: Config) { c.maxPages > 0 && c.redirectLimit > 0 }

  // ---- One page -------------------------------------------------------------------

  datatype Page = Page(parsed: bool, failure: Retry.Category, retryAfter: int,
    internal: seq<Url>, candidates: seq<string>)

  /** A chain of same-origin redirects answered one after the other, never to an address seen before. */
  ghost predicate Chain(env: Env, n: nat, path: seq<Url>, initial: Url, visited: set<Url>) {
    && path != [] && path[0] == initial
    && (forall i, j :: 0 <= i && j == i + 1 && j < |path| ==> env.answer(n + i, path[i]) == Hop(path[j]))
    && (forall i :: 0 < i < |path| ==> path[i] !in visited)
    && (forall i, j :: 0 <= i < j < |path| ==> path[i] != path[j])
  }

  /** What the last answer of a chain makes of the page. */
  function PageOf(a: Answer): Page {
    match a
    case Failed(category, retryAfter) => Page(false, category, retryAfter, [], [])
    case Away(origin) => Page(false, Retry.NoFailure, 0, [], [origin])
    case Hop(_) => Page(false, Retry.MalformedOrigin, 0, [], [])
    case Parsed(internal, candidates) => Page(true, Retry.NoFailure, 0, internal, candidates)
  }

  predicate Commits(a: Answer) { a.Away? || a.Parsed? }

  /** A fetch followed a chain to its end, and only a successful end marks the chain as visited. */
  ghost predicate Fetched(env: Env, c: Config, n: nat, n': nat, initial: Url, visited: set<Url>, visited': set<Url>,
                          page: Page) {
    exists path :: FetchedAlong(env, c, n, n', initial, visited, visited', page, path)
  }

  ghost predicate FetchedAlong(env: Env, c: Config, n: nat, n': nat, initial: Url, visited: set<Url>,
                               visited': set<Url>, page: Page, path: seq<Url>) {
    && Chain(env, n, path, initial, visited) && n' == n + |path| && |path| <= c.redirectLimit + 1
    && var last := env.answer(n + |path| - 1, path[|path| - 1]);
       && page == PageOf(last)
       && (last.Hop? ==> |path| == c.redirectLimit + 1 || last.next in path || last.next in visited)
       && visited' == if Commits(last) then visited + ToSet(path) else visited
  }

  method FetchPage(env: Env, c: Config, n: nat, initial: Url,
                   visited: set<Url>) returns (page: Page, visited': set<Url>, n': nat)
    ensures Fetched(env, c, n, n', initial, visited, visited', page)
  {
    var current, redirects, hops := initial, 0, {initial};
    ghost var path := [initial];
    while true
      invariant Chain(env, n, path, initial, visited) && |path| == redirects + 1 && redirects <= c.redirectLimit
      invariant path[|path| - 1] == current && hops == ToSet(path)
      decreases c.redirectLimit - redirects
    {
      n' := n + redirects;
      var response := env.answer(n', current);
      n' := n' + 1;
      if response.Hop? {
        if redirects < c.redirectLimit && response.next !in hops && response.next !in visited {
          assert ToSet(path + [response.next]) == ToSet(path) + {response.next} by { ToSetAppend(path, response.next); }
          assert response.next !in path by { NotIn(path, response.next); }
          redirects, current, hops := redirects + 1, response.next, hops + {response.next};
          path := path + [current];
          continue;
        }
        assert response.next in ToSet(path) ==> response.next in path;
        page, visited' := PageOf(response), visited;
      } else {
        page, visited' := PageOf(response), if Commits(response) then visited + hops else visited;
      }
      assert FetchedAlong(env, c, n, n', initial, visited, visited', page, path);
      return;
    }
  }

  lemma NotIn(path: seq<Url>, x: Url)
    requires x !in ToSet(path)
    ensures x !in path
  {
  }

  /** A failed fetch never enlarges the visited set; a fetch uses at most one request more than the redirect limit. */
  lemma FetchBounds(env: Env, c: Config, n: nat, n': nat, initial: Url, visited: set<Url>, visited': set<Url>,
                    page: Page)
    requires Fetched(env, c, n, n', initial, visited, visited', page)
    ensures n < n' <= n + c.redirectLimit + 1 && visited <= visited'
    ensures page.failure != Retry.NoFailure ==>
      visited' == visited && page.internal == [] && page.candidates == [] && !page.parsed
    ensures page.parsed ==> initial in visited'
  {
    var path :| FetchedAlong(env, c, n, n', initial, visited, visited', page, path);
    assert path[0] in ToSet(path);
  }

  ghost predicate Distinct(xs: seq<string>) { forall i, j :: 0 <= i < j < |xs| ==> xs[i] != xs[j] }

  /** The extractor lists each candidate origin of a page once. */
  ghost predicate CleanLists(env: Env) {
    forall k, u :: env.answer(k, u).Parsed? ==> Distinct(env.answer(k, u).candidates)
  }

  lemma FetchedListsAreClean(env: Env, c: Config, n: nat, n': nat, initial: Url, visited: set<Url>, visited': set<Url>,
                             page: Page)
    requires CleanLists(env) && Fetched(env, c, n, n', initial, visited, visited', page)
    ensures Distinct(page.candidates)
  {
    var path :| FetchedAlong(env, c, n, n', initial, visited, visited', page, path);
    hide Chain;
  }

  /** A page is tried again once after a transient failure, unless the server asked to wait. */
  predicate TriesAgain(p: Page) { Retry.Transient(p.failure) && p.retryAfter <= 0 }

  ghost predicate Tried(env: Env, c: Config, n: nat, n': nat, initial: Url, visited: set<Url>, visited': set<Url>,
                        page: Page) {
    exists first, v, m ::
      && Fetched(env, c, n, m, initial, visited, v, first)
      && (if TriesAgain(first) then Fetched(env, c, m, n', initial, v, visited', page)
          else page == first && visited' == v && n' == m)
  }

  method TryPage(env: Env, c: Config, n: nat, initial: Url,
                 visited: set<Url>) returns (page: Page, visited': set<Url>, n': nat)
    ensures Tried(env, c, n, n', initial, visited, visited', page)
  {
    hide Fetched;
    page, visited', n' := FetchPage(env, c, n, initial, visited);
    ghost var first, v, m := page, visited', n';
    var attempt := 1;
    while Retry.Transient(page.failure) && attempt < Retry.MAX_ATTEMPTS && page.retryAfter <= 0
      invariant 1 <= attempt <= 2
      invariant if attempt == 1 then page == first && visited' == v && n' == m
                else TriesAgain(first) && Fetched(env, c, m, n', initial, v, visited', page)
    {
      page, visited', n' := FetchPage(env, c, n', initial, visited');
      attempt := attempt + 1;
    }
    assert Fetched(env, c, n, m, initial, visited, v, first);
  }

  lemma TriedBounds(env: Env, c: Config, n: nat, n': nat, initial: Url, visited: set<Url>, visited': set<Url>,
                    page: Page)
    requires Tried(env, c, n, n', initial, visited, visited', page)
    ensures n < n' <= n + 2 * (c.redirectLimit + 1) && visited <= visited'
    ensures page.failure != Retry.NoFailure ==>
      visited' == visited && page.internal == [] && page.candidates == [] && !page.parsed
    ensures CleanLists(env) ==> Distinct(page.candidates)
  {
    hide Fetched, CleanLists, Distinct;
    var first, v, m :| && Fetched(env, c, n, m, initial, visited, v, first)
                       && (if TriesAgain(first) then Fetched(env, c, m, n', initial, v, visited', page)
                           else page == first && visited' == v && n' == m);
    FetchBounds(env, c, n, m, initial, visited, v, first);
    if TriesAgain(first) {
      FetchBounds(env, c, m, n', initial, v, visited', page);
      if CleanLists(env) { FetchedListsAreClean(env, c, m, n', initial, v, visited', page); }
    } else if CleanLists(env) {
      FetchedListsAreClean(env, c, n, m, initial, visited, v, first);
    }
  }

  // ---- The frontier ------------------------------------------------------------------

  datatype Entry = Entry(url: Url, depth: nat)

  /** The crawl's working state. */
  datatype State = State(frontier: seq<Entry>, queued: set<Url>, visited: set<Url>, seen: set<string>, fetches: nat,
                         pagesAttempted: nat, pagesParsed: nat, discovered: nat, exhausted: bool,
                         failure: Retry.Category, retryAfter: int)

  /** One attempted entry: its requests, what they made of it, and whether its page context was still alive. */
  datatype Attempt = Attempt(entry: Entry, page: Page, alive: bool, from: nat, to: nat,
    before: set<Url>, after: set<Url>)

  predicate Counted(a: Attempt) { a.alive && a.page.parsed }

  /**
   What happened so far: everything enqueued, how much of it was taken off again and how much of
   that skipped, and every attempt.
   */
  datatype Trace = Trace(enqueued: seq<Entry>, popped: nat, skipped: nat, attempts: seq<Attempt>)

  function Urls(es: seq<Entry>): set<Url> { set i | 0 <= i < |es| :: es[i].url }

  function Attempted(attempts: seq<Attempt>): set<Url> { set i | 0 <= i < |attempts| :: attempts[i].entry.url }

  /** The same-origin links of the pages counted as parsed. */
  function Links(attempts: seq<Attempt>): set<Url> {
    if attempts == [] then {}
    else
      var last := attempts[|attempts| - 1];
      Links(attempts[..|attempts| - 1]) + if Counted(last) then ToSet(last.page.internal) else {}
  }

  /** The candidates of the attempts whose context was alive. */
  function Candidates(attempts: seq<Attempt>): set<string> {
    if attempts == [] then {}
    else
      var last := attempts[|attempts| - 1];
      Candidates(attempts[..|attempts| - 1]) + if last.alive then ToSet(last.page.candidates) else {}
  }

  function CountParsed(attempts: seq<Attempt>): nat {
    if attempts == [] then 0
    else CountParsed(attempts[..|attempts| - 1]) + if Counted(attempts[|attempts| - 1]) then 1 else 0
  }

  /** The attempts are what the environment answered, one after the other. */
  ghost predicate Answered(env: Env, c: Config, attempts: seq<Attempt>, fetches: nat, visited: set<Url>) {
    && (forall i :: 0 <= i < |attempts| ==> IsAttempt(env, c, attempts[i]))
    && (forall i, j :: 0 <= i && j == i + 1 && j < |attempts| ==>
          attempts[j].from == attempts[i].to && attempts[j].before == attempts[i].after)
    && (if attempts == [] then fetches == 0 && visited == {}
        else attempts[0].from == 0 && attempts[0].before == {}
             && attempts[|attempts| - 1].to == fetches && attempts[|attempts| - 1].after == visited)
  }

  ghost predicate IsAttempt(env: Env, c: Config, a: Attempt) {
    Tried(env, c, a.from, a.to, a.entry.url, a.before, a.after, a.page) && a.alive == !env.timedOut(a.to)
  }

  /**
   Each address is enqueued once, in breadth-first order and within the depth limit; the frontier
   is what was not yet taken off.
   */
  ghost predicate Frontier(c: Config, frontier: seq<Entry>, queued: set<Url>, enqueued: seq<Entry>, popped: nat) {
    && popped <= |enqueued| && frontier == enqueued[popped..] && queued == Urls(enqueued)
    && (forall i, j :: 0 <= i < j < |enqueued| ==>
          enqueued[i].url != enqueued[j].url && enqueued[i].depth <= enqueued[j].depth)
    && (forall i :: 0 <= i < |enqueued| ==>
          enqueued[i].depth <= c.maxDepth && enqueued[i].depth <= Horizon(enqueued, popped))
  }

  /** No entry is deeper than one below the last one taken off. */
  function Horizon(enqueued: seq<Entry>, popped: nat): nat
    requires popped <= |enqueued|
  {
    if popped == 0 then 0 else enqueued[popped - 1].depth + 1
  }

  /** Everything taken off was attempted or skipped as visited; attempts are in order of depth. */
  ghost predicate Taken(visited: set<Url>, enqueued: seq<Entry>, popped: nat, skipped: nat, attempts: seq<Attempt>) {
    && popped <= |enqueued| && popped == |attempts| + skipped
    && (forall i :: 0 <= i < popped ==> enqueued[i].url in visited + Attempted(attempts))
    && (forall i, j :: 0 <= i < j < |attempts| ==> attempts[i].entry.depth <= attempts[j].entry.depth)
    && (forall i :: 0 <= i < |attempts| ==> attempts[i].entry.depth < Horizon(enqueued, popped))
  }

  /** Budgets and counters. */
  ghost predicate Counters(c: Config, s: State, attempts: seq<Attempt>) {
    && s.pagesAttempted == |attempts| <= c.maxPages && s.fetches <= 2 * (c.redirectLimit + 1) * s.pagesAttempted
    && s.discovered == |s.seen| && s.seen == Candidates(attempts) && s.pagesParsed == CountParsed(attempts)
  }

  /** An enqueued entry is the root or a link one deeper than the counted page it is on. */
  ghost predicate Sourced(e: Entry, root: Url, attempts: seq<Attempt>) {
    || e == Entry(root, 0)
    || exists k :: 0 <= k < |attempts| && LinkedFrom(e, attempts[k])
  }

  predicate LinkedFrom(e: Entry, a: Attempt) {
    Counted(a) && e.url in ToSet(a.page.internal) && e.depth == a.entry.depth + 1
  }

  /** Only links of counted pages are enqueued, and all of them are, unless visited already or cut off by a budget. */
  ghost predicate Followed(root: Url, enqueued: seq<Entry>, attempts: seq<Attempt>, exhausted: bool,
                           reached: set<Url>) {
    && (forall i :: 0 <= i < |enqueued| ==> Sourced(enqueued[i], root, attempts))
    && (exhausted || Links(attempts) <= reached)
  }

  /** The reported failure: none exactly when no page failed, and transient when any was; the longest wait asked for. */
  ghost predicate Blamed(failure: Retry.Category, retryAfter: int, attempts: seq<Attempt>) {
    && (failure == Retry.NoFailure <==> forall i :: 0 <= i < |attempts| ==> attempts[i].page.failure == Retry.NoFailure)
    && (forall i :: 0 <= i < |attempts| && Retry.Transient(attempts[i].page.failure) ==> Retry.Transient(failure))
    && (forall i :: 0 <= i < |attempts| && attempts[i].page.failure != Retry.NoFailure ==>
          attempts[i].page.retryAfter <= retryAfter)
  }

  function Blame(failure: Retry.Category, page: Page): Retry.Category {
    if page.failure != Retry.NoFailure && (failure == Retry.NoFailure || Retry.Transient(page.failure))
    then page.failure else failure
  }

  function Wait(retryAfter: int, page: Page): int {
    if page.failure != Retry.NoFailure then Max(retryAfter, page.retryAfter) else retryAfter
  }

  lemma BlamedNext(failure: Retry.Category, retryAfter: int, attempts: seq<Attempt>, a: Attempt)
    requires Blamed(failure, retryAfter, attempts)
    ensures Blamed(Blame(failure, a.page), Wait(retryAfter, a.page), attempts + [a])
  {
    var all := attempts + [a];
    assert all[|attempts|] == a && forall i :: 0 <= i < |attempts| ==> all[i] == attempts[i];
  }

  ghost predicate Inv(env: Env, c: Config, root: Url, s: State, h: Trace) {
    && Blamed(s.failure, s.retryAfter, h.attempts)
    && Answered(env, c, h.attempts, s.fetches, s.visited)
    && Frontier(c, s.frontier, s.queued, h.enqueued, h.popped)
    && Taken(s.visited, h.enqueued, h.popped, h.skipped, h.attempts)
    && Counters(c, s, h.attempts)
    && Followed(root, h.enqueued, h.attempts, s.exhausted, s.visited + s.queued)
  }

  // ---- Steps of the loop -------------------------------------------------------------------

  lemma UrlsAppend(es: seq<Entry>, e: Entry)
    ensures Urls(es + [e]) == Urls(es) + {e.url}
  {
    var all := es + [e];
    forall u | u in Urls(es) + {e.url} ensures u in Urls(all) {
      if u in Urls(es) {
        var i :| 0 <= i < |es| && es[i].url == u;
        assert all[i].url == u;
      } else {
        assert all[|es|].url == u;
      }
    }
  }

  lemma AttemptedAppend(attempts: seq<Attempt>, a: Attempt)
    ensures Attempted(attempts + [a]) == Attempted(attempts) + {a.entry.url}
  {
    var all := attempts + [a];
    forall u | u in Attempted(attempts) + {a.entry.url} ensures u in Attempted(all) {
      if u in Attempted(attempts) {
        var i :| 0 <= i < |attempts| && attempts[i].entry.url == u;
        assert all[i].entry.url == u;
      } else {
        assert all[|attempts|].entry.url == u;
      }
    }
  }

  lemma TotalsAppend(attempts: seq<Attempt>, a: Attempt)
    ensures Links(attempts + [a]) == Links(attempts) + if Counted(a) then ToSet(a.page.internal) else {}
    ensures Candidates(attempts + [a]) == Candidates(attempts) + if a.alive then ToSet(a.page.candidates) else {}
    ensures CountParsed(attempts + [a]) == CountParsed(attempts) + if Counted(a) then 1 else 0
  {
    assert (attempts + [a])[..|attempts|] == attempts;
  }

  /** Taking an entry off the frontier. */
  lemma PopKeeps(c: Config, frontier: seq<Entry>, queued: set<Url>, enqueued: seq<Entry>, popped: nat)
    requires Frontier(c, frontier, queued, enqueued, popped) && frontier != []
    ensures popped < |enqueued| && enqueued[popped] == frontier[0] && frontier[0].depth <= c.maxDepth
    ensures Frontier(c, frontier[1..], queued, enqueued, popped + 1)
    ensures Horizon(enqueued, popped) <= Horizon(enqueued, popped + 1) == frontier[0].depth + 1
  {
    hide Urls;
    assert enqueued[popped..][1..] == enqueued[popped + 1..];
    assert frontier[0] == enqueued[popped];
  }

  /** An entry that was reached by a redirect meanwhile is skipped. */
  lemma SkipKeeps(env: Env, c: Config, root: Url, s: State, h: Trace)
    requires Inv(env, c, root, s, h) && s.frontier != [] && s.frontier[0].url in s.visited
    ensures Inv(env, c, root, s.(frontier := s.frontier[1..]), h.(popped := h.popped + 1, skipped := h.skipped + 1))
  {
    hide Frontier, Answered, Attempted, Followed, Links, Candidates, CountParsed, Blamed;
    PopKeeps(c, s.frontier, s.queued, h.enqueued, h.popped);
    hide Horizon;
  }

  lemma AnsweredNext(env: Env, c: Config, attempts: seq<Attempt>, fetches: nat, visited: set<Url>, a: Attempt)
    requires Answered(env, c, attempts, fetches, visited) && IsAttempt(env, c, a) &&
      a.from == fetches && a.before == visited
    ensures Answered(env, c, attempts + [a], a.to, a.after)
  {
    hide IsAttempt;
  }

  lemma TakenNext(visited: set<Url>, enqueued: seq<Entry>, popped: nat, skipped: nat, attempts: seq<Attempt>,
                  a: Attempt)
    requires Taken(visited, enqueued, popped, skipped, attempts) && popped < |enqueued|
    requires a.entry == enqueued[popped] && visited <= a.after && Horizon(enqueued, popped) <= a.entry.depth + 1
    ensures Taken(a.after, enqueued, popped + 1, skipped, attempts + [a])
  {
    AttemptedAppend(attempts, a);
    hide Attempted;
  }

  lemma CountersNext(c: Config, s: State, s': State, attempts: seq<Attempt>, a: Attempt)
    requires Counters(c, s, attempts) && s.pagesAttempted < c.maxPages && a.to <= s.fetches + 2 * (c.redirectLimit + 1)
    requires s'.pagesAttempted == s.pagesAttempted + 1 && s'.fetches == a.to && s'.discovered == |s'.seen|
    requires s'.seen == s.seen + (if a.alive then ToSet(a.page.candidates) else {})
    requires s'.pagesParsed == s.pagesParsed + (if Counted(a) then 1 else 0)
    ensures Counters(c, s', attempts + [a])
  {
    TotalsAppend(attempts, a);
    hide Candidates, CountParsed, ToSet;
    var n, k := s.pagesAttempted, 2 * (c.redirectLimit + 1);
    assert k * (n + 1) == k * n + k;
  }

  lemma SourcedMore(e: Entry, root: Url, attempts: seq<Attempt>, a: Attempt)
    requires Sourced(e, root, attempts)
    ensures Sourced(e, root, attempts + [a])
  {
    if e != Entry(root, 0) {
      var k :| 0 <= k < |attempts| && LinkedFrom(e, attempts[k]);
      assert (attempts + [a])[k] == attempts[k];
    }
  }

  /** After an attempt its links are still owed; `owed` says whether they are. */
  lemma FollowedNext(root: Url, enqueued: seq<Entry>, attempts: seq<Attempt>, exhausted: bool, reached: set<Url>,
                     a: Attempt, reached': set<Url>, exhausted': bool)
    requires Followed(root, enqueued, attempts, exhausted, reached) && reached <= reached' && (exhausted ==> exhausted')
    requires exhausted' || !Counted(a) || ToSet(a.page.internal) <= reached'
    ensures Followed(root, enqueued, attempts + [a], exhausted', reached')
  {
    TotalsAppend(attempts, a);
    hide Links, ToSet, Sourced;
    forall i | 0 <= i < |enqueued| ensures Sourced(enqueued[i], root, attempts + [a]) {
      SourcedMore(enqueued[i], root, attempts, a);
    }
  }

  /** Appending a new link at the end keeps the frontier in breadth-first order. */
  lemma EnqueueKeeps(c: Config, frontier: seq<Entry>, queued: set<Url>, enqueued: seq<Entry>, popped: nat, e: Entry)
    requires Frontier(c, frontier, queued, enqueued, popped) && e.url !in queued && popped > 0
    requires e.depth == Horizon(enqueued, popped) <= c.maxDepth
    ensures Frontier(c, frontier + [e], queued + {e.url}, enqueued + [e], popped)
    ensures Horizon(enqueued + [e], popped) == Horizon(enqueued, popped)
  {
    UrlsAppend(enqueued, e);
    assert (enqueued + [e])[popped..] == enqueued[popped..] + [e];
    forall i | 0 <= i < |enqueued| ensures enqueued[i].url != e.url { assert enqueued[i].url in Urls(enqueued); }
    hide Urls;
  }

  // ---- Candidates and links of one page ------------------------------------------------

  function Fresh(candidates: seq<string>, seen: set<string>): seq<string> {
    if candidates == [] then []
    else
      var k := |candidates| - 1;
      var before := Fresh(candidates[..k], seen);
      if candidates[k] in seen then before else before + [candidates[k]]
  }

  /** The candidates not seen before, in order; `seen` grows only after the sink took them. */
  method FreshCandidates(candidates: seq<string>, seen: set<string>) returns (batch: seq<string>)
    ensures batch == Fresh(candidates, seen)
  {
    batch := [];
    for i := 0 to |candidates|
      invariant batch == Fresh(candidates[..i], seen)
    {
      assert candidates[..i + 1][..i] == candidates[..i];
      if candidates[i] !in seen { batch := batch + [candidates[i]]; }
    }
    assert candidates[..|candidates|] == candidates;
  }

  lemma LastIsNew(candidates: seq<string>, k: nat)
    requires Distinct(candidates) && |candidates| == k + 1
    ensures Distinct(candidates[..k]) && candidates[k] !in ToSet(candidates[..k])
    ensures ToSet(candidates) == ToSet(candidates[..k]) + {candidates[k]}
  {
    ToSetAppend(candidates[..k], candidates[k]);
    assert candidates[..k] + [candidates[k]] == candidates;
  }

  /** Each new origin is handed over once, and nothing else is. */
  lemma {:induction false} FreshCounts(candidates: seq<string>, seen: set<string>)
    requires Distinct(candidates)
    ensures seen + ToSet(Fresh(candidates, seen)) == seen + ToSet(candidates)
    ensures |seen + ToSet(candidates)| == |seen| + |Fresh(candidates, seen)|
  {
    hide Distinct, ToSet;
    if candidates == [] {
      NothingFresh(seen);
      assert seen + {} == seen;
    } else {
      var k := |candidates| - 1;
      var x, before := candidates[k], candidates[..k];
      LastIsNew(candidates, k);
      FreshCounts(before, seen);
      ToSetAppend(Fresh(before, seen), x);
      if x in seen {
        assert seen + ToSet(candidates) == seen + ToSet(before);
      } else {
        assert seen + ToSet(candidates) == seen + ToSet(before) + {x};
      }
    }
  }

  /** The links of a parsed page, followed in order. */
  function Follow(c: Config, s: State, links: seq<Url>, depth: nat): State {
    if links == [] then s
    else
      var k := |links| - 1;
      var t, url := Follow(c, s, links[..k], depth), links[k];
      if url in t.visited || url in t.queued then t
      else if depth > c.maxDepth then t.(exhausted := true)
      else t.(queued := t.queued + {url}, frontier := t.frontier + [Entry(url, depth)])
  }

  method FollowLinks(c: Config, s: State, links: seq<Url>, depth: nat) returns (t: State)
    ensures t == Follow(c, s, links, depth)
  {
    t := s;
    for i := 0 to |links|
      invariant t == Follow(c, s, links[..i], depth)
    {
      assert links[..i + 1][..i] == links[..i];
      if links[i] in t.visited || links[i] in t.queued { continue; }
      if depth > c.maxDepth {
        t := t.(exhausted := true);
        continue;
      }
      t := t.(queued := t.queued + {links[i]}, frontier := t.frontier + [Entry(links[i], depth)]);
    }
    assert links[..|links|] == links;
  }

  lemma {:induction false} FollowFrame(c: Config, s: State, links: seq<Url>, depth: nat)
    ensures var t := Follow(c, s, links, depth);
            t == s.(frontier := t.frontier, queued := t.queued, exhausted := t.exhausted) &&
              s.queued <= t.queued && (s.exhausted ==> t.exhausted)
  {
    if links != [] { FollowFrame(c, s, links[..|links| - 1], depth); }
  }

  /** Following reaches every link or records that a budget cut it off. */
  lemma {:induction false} FollowReaches(c: Config, s: State, links: seq<Url>, depth: nat)
    ensures var t := Follow(c, s, links, depth); t.exhausted || ToSet(links) <= t.visited + t.queued
  {
    if links != [] {
      var k := |links| - 1;
      FollowReaches(c, s, links[..k], depth);
      FollowFrame(c, s, links[..k], depth);
      assert links == links[..k] + [links[k]];
      ToSetAppend(links[..k], links[k]);
      hide ToSet;
    }
  }

  /** Following keeps the frontier in order and enqueues nothing but links of the page just counted. */
  lemma {:induction false} FollowKeeps(c: Config, root: Url, s: State, links: seq<Url>, depth: nat,
                                       enqueued: seq<Entry>, popped: nat, attempts: seq<Attempt>)
    returns (enqueued': seq<Entry>)
    requires Frontier(c, s.frontier, s.queued, enqueued, popped) && popped > 0 && depth == Horizon(enqueued, popped)
    requires attempts != [] && Counted(attempts[|attempts| - 1]) && attempts[|attempts| - 1].entry.depth + 1 == depth
    requires ToSet(links) <= ToSet(attempts[|attempts| - 1].page.internal)
    requires forall i :: 0 <= i < |enqueued| ==> Sourced(enqueued[i], root, attempts)
    ensures var t := Follow(c, s, links, depth);
            && Frontier(c, t.frontier, t.queued, enqueued', popped) && Horizon(enqueued', popped) == depth
    ensures enqueued <= enqueued' && forall i :: 0 <= i < |enqueued'| ==> Sourced(enqueued'[i], root, attempts)
  {
    hide Frontier, Sourced;
    enqueued' := enqueued;
    if links != [] {
      var k := |links| - 1;
      assert links == links[..k] + [links[k]];
      ToSetAppend(links[..k], links[k]);
      enqueued' := FollowKeeps(c, root, s, links[..k], depth, enqueued, popped, attempts);
      var t, e := Follow(c, s, links[..k], depth), Entry(links[k], depth);
      if !(e.url in t.visited || e.url in t.queued) && depth <= c.maxDepth {
        EnqueueKeeps(c, t.frontier, t.queued, enqueued', popped, e);
        assert LinkedFrom(e, attempts[|attempts| - 1]);
        assert Sourced(e, root, attempts) by { IsSourced(e, root, attempts, |attempts| - 1); }
        enqueued' := enqueued' + [e];
      }
    }
  }

  lemma IsSourced(e: Entry, root: Url, attempts: seq<Attempt>, k: nat)
    requires k < |attempts| && LinkedFrom(e, attempts[k])
    ensures Sourced(e, root, attempts)
  {
  }

  // ---- The crawl ------------------------------------------------------------------------

  datatype Report = Report(state: State, remaining: nat, error: bool)

  predicate Complete(r: Report) { !r.error && !r.state.exhausted && r.state.failure == Retry.NoFailure }

  /** The crawl's budget of requests. */
  function RequestBudget(c: Config): nat { 2 * (c.redirectLimit + 1) * c.maxPages }

  lemma InvMeansBudget(env: Env, c: Config, root: Url, s: State, h: Trace)
    requires Inv(env, c, root, s, h)
    ensures s.fetches <= RequestBudget(c)
  {
    hide Answered, Frontier, Taken, Followed, Blamed, Candidates, CountParsed;
    var k := 2 * (c.redirectLimit + 1);
    assert k * s.pagesAttempted <= k * c.maxPages;
  }

  /** A finished crawl conserves its frontier; a complete one reached every link of every counted page. */
  ghost predicate Ended(r: Report, h: Trace) {
    && |h.enqueued| == r.state.pagesAttempted + h.skipped + r.remaining
    && (Complete(r) ==> r.remaining == 0 && Links(h.attempts) <= r.state.visited + Attempted(h.attempts))
  }

  lemma EmptyFrontierEnds(env: Env, c: Config, root: Url, s: State, h: Trace)
    requires Inv(env, c, root, s, h) && s.frontier == []
    ensures Ended(Report(s, 0, false), h)
  {
    hide Answered, Blamed, Links, Attempted, Candidates, CountParsed;
    assert h.popped == |h.enqueued|;
    forall u | u in s.queued ensures u in s.visited + Attempted(h.attempts) {
      assert u in Urls(h.enqueued);
      var i :| 0 <= i < |h.enqueued| && h.enqueued[i].url == u;
    }
  }

  lemma CutShortEnds(env: Env, c: Config, root: Url, s: State, h: Trace)
    requires Inv(env, c, root, s, h)
    ensures |h.enqueued| == s.pagesAttempted + h.skipped + |s.frontier|
  {
    hide Answered, Blamed, Links, Attempted, Candidates, CountParsed, Followed;
  }

  // ---- One attempted entry ---------------------------------------------------------------

  /** The state after an attempt, before the links of a counted page are followed. */
  function After(s: State, a: Attempt): State
    requires s.frontier != []
  {
    s.(frontier := s.frontier[1..], visited := a.after, fetches := a.to, pagesAttempted := s.pagesAttempted + 1,
       failure := Blame(s.failure, a.page), retryAfter := Wait(s.retryAfter, a.page),
       seen := s.seen + (if a.alive then ToSet(a.page.candidates) else {}),
       discovered := s.discovered + (if a.alive then |Fresh(a.page.candidates, s.seen)| else 0),
       pagesParsed := s.pagesParsed + (if Counted(a) then 1 else 0))
  }

  /** The attempt is the frontier's first entry, fetched from where the crawl stands. */
  ghost predicate NextAttempt(env: Env, c: Config, s: State, a: Attempt) {
    && s.frontier != [] && a.entry == s.frontier[0] && s.pagesAttempted < c.maxPages
    && IsAttempt(env, c, a) && a.from == s.fetches && a.before == s.visited
  }

  /** Everything but the debt of following the page's links. */
  lemma AttemptKeeps(env: Env, c: Config, root: Url, s: State, h: Trace, a: Attempt)
    requires Inv(env, c, root, s, h) && NextAttempt(env, c, s, a) && CleanLists(env)
    ensures var t, attempts := After(s, a), h.attempts + [a];
            && Answered(env, c, attempts, t.fetches, t.visited)
            && Frontier(c, t.frontier, t.queued, h.enqueued, h.popped + 1) &&
                 Horizon(h.enqueued, h.popped + 1) == a.entry.depth + 1
            && Taken(t.visited, h.enqueued, h.popped + 1, h.skipped, attempts)
            && Counters(c, t, attempts) && Blamed(t.failure, t.retryAfter, attempts)
    ensures s.visited <= a.after && (a.page.failure != Retry.NoFailure ==> !a.page.parsed)
  {
    hide Answered, Frontier, Taken, Blamed, Followed, Tried, Blame, Wait, CleanLists, Fresh, Candidates, CountParsed,
         Distinct, ToSet, Horizon;
    TriedBounds(env, c, a.from, a.to, a.entry.url, a.before, a.after, a.page);
    if a.alive { FreshCounts(a.page.candidates, s.seen); }
    var t := After(s, a);
    PopKeeps(c, s.frontier, s.queued, h.enqueued, h.popped);
    AnsweredNext(env, c, h.attempts, s.fetches, s.visited, a);
    TakenNext(s.visited, h.enqueued, h.popped, h.skipped, h.attempts, a);
    assert s.discovered == |s.seen|;
    assert t.seen == s.seen ==> t.discovered == |t.seen|;
    CountersNext(c, s, t, h.attempts, a);
    BlamedNext(s.failure, s.retryAfter, h.attempts, a);
  }

  /** An attempt that is not counted as parsed owes nothing more. */
  lemma UncountedKeeps(env: Env, c: Config, root: Url, s: State, h: Trace, a: Attempt)
    requires Inv(env, c, root, s, h) && NextAttempt(env, c, s, a) && CleanLists(env) && !Counted(a)
    ensures Inv(env, c, root, After(s, a), h.(popped := h.popped + 1, attempts := h.attempts + [a]))
  {
    AttemptKeeps(env, c, root, s, h, a);
    hide Answered, Frontier, Taken, Blamed, Counters, NextAttempt, CleanLists, Followed;
    FollowedNext(root, h.enqueued, h.attempts, s.exhausted, s.visited + s.queued, a, a.after + s.queued, s.exhausted);
  }

  /** A counted page's links are followed. */
  lemma CountedKeeps(env: Env, c: Config, root: Url, s: State, h: Trace, a: Attempt) returns (h': Trace)
    requires Inv(env, c, root, s, h) && NextAttempt(env, c, s, a) && CleanLists(env) && Counted(a)
    ensures Inv(env, c, root, Follow(c, After(s, a), a.page.internal, a.entry.depth + 1), h')
    ensures h'.attempts == h.attempts + [a] && h'.skipped == h.skipped &&
      h'.popped == h.popped + 1 && h.enqueued <= h'.enqueued
  {
    hide Answered, Frontier, Taken, Blamed, IsAttempt, CleanLists, Follow, Horizon, Candidates, CountParsed, Links,
         Sourced, ToSet, Blame, Wait, Fresh;
    AttemptKeeps(env, c, root, s, h, a);
    var t, attempts := After(s, a), h.attempts + [a];
    var u := Follow(c, t, a.page.internal, a.entry.depth + 1);
    FollowedNext(root, h.enqueued, h.attempts, s.exhausted, s.visited + s.queued, a, a.after + s.queued, true);
    var enqueued := FollowKeeps(c, root, t, a.page.internal, a.entry.depth + 1, h.enqueued, h.popped + 1, attempts);
    FollowFrame(c, t, a.page.internal, a.entry.depth + 1);
    FollowReaches(c, t, a.page.internal, a.entry.depth + 1);
    LinksReached(root, h, s, a, u);
    h' := Trace(enqueued, h.popped + 1, h.skipped, attempts);
    TakenGrows(t.visited, h.enqueued, enqueued, h.popped + 1, h.skipped, attempts);
  }

  lemma LinksReached(root: Url, h: Trace, s: State, a: Attempt, u: State)
    requires Followed(root, h.enqueued, h.attempts, s.exhausted, s.visited + s.queued)
    requires s.visited <= u.visited && s.queued <= u.queued && (s.exhausted ==> u.exhausted)
    requires u.exhausted || ToSet(a.page.internal) <= u.visited + u.queued
    ensures u.exhausted || Links(h.attempts + [a]) <= u.visited + u.queued
  {
    TotalsAppend(h.attempts, a);
    hide Links, ToSet, Sourced;
  }

  lemma TakenGrows(visited: set<Url>, enqueued: seq<Entry>, enqueued': seq<Entry>, popped: nat, skipped: nat,
                   attempts: seq<Attempt>)
    requires Taken(visited, enqueued, popped, skipped, attempts) && enqueued <= enqueued'
    ensures Taken(visited, enqueued', popped, skipped, attempts)
  {
    hide Attempted;
    assert forall i :: 0 <= i < popped ==> enqueued'[i] == enqueued[i];
  }

  lemma StartHolds(env: Env, c: Config, root: Url)
    ensures Inv(env, c, root, State([Entry(root, 0)], {root}, {}, {}, 0, 0, 0, 0, false, Retry.NoFailure, 0),
      Trace([Entry(root, 0)], 0, 0, []))
  {
    assert Urls([Entry(root, 0)]) == {root} by {
      UrlsAppend([], Entry(root, 0));
      assert [] + [Entry(root, 0)] == [Entry(root, 0)];
    }
  }

  lemma IsNext(env: Env, c: Config, s: State, a: Attempt)
    requires s.frontier != [] && a.entry == s.frontier[0] && s.pagesAttempted < c.maxPages &&
      a.from == s.fetches && a.before == s.visited
    requires Tried(env, c, a.from, a.to, a.entry.url, a.before, a.after, a.page) && a.alive == !env.timedOut(a.to)
    ensures NextAttempt(env, c, s, a)
  {
  }

  /** What an attempt's page can hold, and that its requests stay within the budget. */
  lemma AttemptFacts(env: Env, c: Config, root: Url, s: State, h: Trace, a: Attempt)
    requires Inv(env, c, root, s, h) && NextAttempt(env, c, s, a) && CleanLists(env)
    ensures a.to <= RequestBudget(c)
    ensures s.seen + ToSet(Fresh(a.page.candidates, s.seen)) == s.seen + ToSet(a.page.candidates)
    ensures a.page.failure != Retry.NoFailure ==>
      !a.page.parsed && ToSet(a.page.candidates) == {} && Fresh(a.page.candidates, s.seen) == []
  {
    hide Answered, Frontier, Taken, Followed, Blamed, Candidates, CountParsed, Tried, CleanLists, Distinct, Fresh,
         ToSet, RequestBudget;
    TriedBounds(env, c, a.from, a.to, a.entry.url, a.before, a.after, a.page);
    FreshCounts(a.page.candidates, s.seen);
    NothingFresh(s.seen);
    OneMorePage(c, s.pagesAttempted, s.fetches, a.to);
  }

  lemma OneMorePage(c: Config, attempted: nat, fetches: nat, to: nat)
    requires attempted < c.maxPages && fetches <= 2 * (c.redirectLimit + 1) * attempted &&
      to <= fetches + 2 * (c.redirectLimit + 1)
    ensures to <= RequestBudget(c)
  {
    var k := 2 * (c.redirectLimit + 1);
    assert k * (attempted + 1) == k * attempted + k;
    assert k * (attempted + 1) <= k * c.maxPages;
  }

  lemma NothingFresh(seen: set<string>)
    ensures Fresh([], seen) == [] && ToSet<string>([]) == {}
  {
  }

  /** Running out of pages leaves the entry in hand on the frontier. */
  lemma ExhaustKeeps(env: Env, c: Config, root: Url, s: State, h: Trace)
    requires Inv(env, c, root, s, h)
    ensures Inv(env, c, root, s.(exhausted := true), h) && Ended(Report(s.(exhausted := true), |s.frontier|, false), h)
  {
    hide Answered, Frontier, Taken, Blamed, Candidates, CountParsed, Links, Sourced, Attempted;
    CutShortEnds(env, c, root, s, h);
  }

  /** A crawl that was asked to wait reports a failure. */
  lemma WaitEnds(env: Env, c: Config, root: Url, s: State, h: Trace)
    requires Inv(env, c, root, s, h) && s.failure != Retry.NoFailure
    ensures Ended(Report(s, |s.frontier|, false), h)
  {
    CutShortEnds(env, c, root, s, h);
  }

  lemma AttemptsAdvance(env: Env, c: Config, s: State, a: Attempt)
    requires NextAttempt(env, c, s, a)
    ensures After(s, a).pagesAttempted == s.pagesAttempted + 1 <= c.maxPages
    ensures Follow(c, After(s, a), a.page.internal, a.entry.depth + 1).pagesAttempted == s.pagesAttempted + 1
  {
    FollowFrame(c, After(s, a), a.page.internal, a.entry.depth + 1);
  }

  /**
   The crawl loop. It ends with an error when its context is canceled or the sink refuses a
   batch; otherwise its report and the trace of what happened satisfy everything above.
   */
  method Crawl(env: Env, c: Config, root: Url) returns (r: Report, ghost h: Trace)
    requires ValidConfig(c) && CleanLists(env)
    ensures r.state.fetches <= RequestBudget(c)
    ensures !r.error ==> Inv(env, c, root, r.state, h) && Ended(r, h)
  {
    hide Inv, NextAttempt, Follow, Fresh, ToSet, CleanLists, RequestBudget, Ended, Tried;
    var s := State([Entry(root, 0)], {root}, {}, {}, 0, 0, 0, 0, false, Retry.NoFailure, 0);
    h := Trace([Entry(root, 0)], 0, 0, []);
    StartHolds(env, c, root);
    while s.frontier != []
      invariant Inv(env, c, root, s, h)
      decreases c.maxPages - s.pagesAttempted, |s.frontier|
    {
      var entry := s.frontier[0];
      if entry.url in s.visited {
        SkipKeeps(env, c, root, s, h);
        s := s.(frontier := s.frontier[1..]);
        h := h.(popped := h.popped + 1, skipped := h.skipped + 1);
        continue;
      }
      if s.pagesAttempted >= c.maxPages {
        InvMeansBudget(env, c, root, s, h);
        ExhaustKeeps(env, c, root, s, h);
        r := Report(s.(exhausted := true), |s.frontier|, false);
        return;
      }
      var page, visited, n := TryPage(env, c, s.fetches, entry.url, s.visited);
      ghost var start, a := s, Attempt(entry, page, !env.timedOut(n), s.fetches, n, s.visited, visited);
      IsNext(env, c, start, a);
      AttemptFacts(env, c, root, start, h, a);
      AttemptsAdvance(env, c, start, a);
      s := s.(frontier := s.frontier[1..], pagesAttempted := s.pagesAttempted + 1, visited := visited, fetches := n,
              failure := Blame(s.failure, page), retryAfter := Wait(s.retryAfter, page));
      if env.canceled(s.pagesAttempted) {
        r := Report(s, |s.frontier|, true);
        return;
      }
      if Retry.Transient(page.failure) && page.retryAfter > 0 {
        UncountedKeeps(env, c, root, start, h, a);
        assert s == After(start, a);
        h := h.(popped := h.popped + 1, attempts := h.attempts + [a]);
        WaitEnds(env, c, root, s, h);
        r := Report(s, |s.frontier|, false);
        return;
      }
      if env.timedOut(n) {
        UncountedKeeps(env, c, root, start, h, a);
        assert s == After(start, a);
        h := h.(popped := h.popped + 1, attempts := h.attempts + [a]);
        continue;
      }
      if page.parsed { s := s.(pagesParsed := s.pagesParsed + 1); }
      var batch := FreshCandidates(page.candidates, s.seen);
      if batch != [] && env.sinkFails(s.pagesAttempted) {
        r := Report(s, |s.frontier|, true);
        return;
      }
      s := s.(seen := s.seen + ToSet(batch), discovered := s.discovered + |batch|);
      assert s == After(start, a);
      if !page.parsed {
        UncountedKeeps(env, c, root, start, h, a);
        h := h.(popped := h.popped + 1, attempts := h.attempts + [a]);
        continue;
      }
      h := CountedKeeps(env, c, root, start, h, a);
      s := FollowLinks(c, s, page.internal, entry.depth + 1);
    }
    InvMeansBudget(env, c, root, s, h);
    EmptyFrontierEnds(env, c, root, s, h);
    r := Report(s, 0, false);
  }
}

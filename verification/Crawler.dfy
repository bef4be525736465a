/**
  The web crawler of packages/components/src/utils.ts: a depth-first search that keeps the
  visited pages, as normalized URLs, in one shared list.
 */
module Crawler {
  import opened Common

  /** A parsed URL; `port` is "" when it is the default one. */
  datatype Url = Url(protocol: string, hostname: string, port: string, pathname: string, search: string)

  function NormalizeURL(u: Url): string {
    var port := if u.port != "" then ":" + u.port else "";
    var hostPath := u.hostname + port + u.pathname + u.search;
    if |hostPath| > 0 && hostPath[|hostPath| - 1] == '/' then hostPath[..|hostPath| - 1] else hostPath
  }

  /** A path with and without its trailing slash is one page, whatever protocol the link uses. */
  lemma TrailingSlashSamePage(base: Url, u: Url, protocol: string)
    requires u.search == "" && (u.pathname == "" || u.pathname[|u.pathname| - 1] != '/')
    requires u.pathname == "" ==> u.port == "" && u.hostname != "" && u.hostname[|u.hostname| - 1] != '/'
    ensures PageOf(base, u) == PageOf(base, u.(pathname := u.pathname + "/", protocol := protocol))
  {
    var port := if u.port != "" then ":" + u.port else "";
    var hostPath := u.hostname + port + u.pathname + u.search;
    assert u.hostname + port + (u.pathname + "/") + u.search == hostPath + "/";
    assert (hostPath + "/")[..|hostPath|] == hostPath;
  }

  /** The name under which a page is listed. */
  function PageOf(base: Url, u: Url): string {
    base.protocol + "//" + NormalizeURL(u)
  }

  /** Host, port, path and query, one after the other. */
  function HostAndPath(u: Url): string {
    u.hostname + (if u.port == "" then "" else ":" + u.port) + u.pathname + u.search
  }

  predicate Slashed(s: string) {
    s != "" && s[|s| - 1] == '/'
  }

  /** Two URLs are one page exactly if host, port, path and query are the same text, up to one slash at its end. */
  lemma SamePageExactly(base: Url, u: Url, v: Url)
    ensures var a, b := HostAndPath(u), HostAndPath(v);
            PageOf(base, u) == PageOf(base, v)
            <==> a == b || (a == b + "/" && !Slashed(b)) || (b == a + "/" && !Slashed(a))
  {
    var a, b := HostAndPath(u), HostAndPath(v);
    NameOf(base, u);
    NameOf(base, v);
    SamePrefix(base.protocol + "//", Cut(a), Cut(b));
    SameCut(a, b);
  }

  lemma SameCut(a: string, b: string)
    ensures Cut(a) == Cut(b) <==> a == b || (a == b + "/" && !Slashed(b)) || (b == a + "/" && !Slashed(a))
  {
    assert Slashed(a) ==> a == a[..|a| - 1] + "/";
    assert Slashed(b) ==> b == b[..|b| - 1] + "/";
    assert a == b + "/" ==> a[..|a| - 1] == b;
    assert b == a + "/" ==> b[..|b| - 1] == a;
  }

  /** Text without a slash at its end. */
  function Cut(s: string): string {
    if Slashed(s) then s[..|s| - 1] else s
  }

  /** The name under which a page is listed: protocol of the start URL, and host, port, path and query without a slash at the end. */
  lemma NameOf(base: Url, u: Url)
    ensures PageOf(base, u) == (base.protocol + "//") + Cut(HostAndPath(u))
    ensures !Slashed(u.search) && u.search != "" ==>
              PageOf(base, u) == (base.protocol + "//") + (u.hostname + (if u.port == "" then "" else ":" + u.port) + u.pathname + u.search)
  {
    var t := HostAndPath(u);
    assert u.search != "" ==> t[|t| - 1] == u.search[|u.search| - 1];
  }

  lemma SamePrefix(p: string, a: string, b: string)
    ensures p + a == p + b <==> a == b
  {
    assert (p + a)[|p|..] == a && (p + b)[|p|..] == b;
  }

  /** Pages that differ in their query are different pages, unless the query ends in a slash. */
  lemma QueriesApart(base: Url, u: Url, search: string)
    requires u.search != search && !Slashed(u.search) && !Slashed(search)
    ensures PageOf(base, u) != PageOf(base, u.(search := search))
  {
    var p := u.hostname + (if u.port == "" then "" else ":" + u.port) + u.pathname;
    SamePageExactly(base, u, u.(search := search));
    SamePrefix(p, u.search, search);
    SamePrefix(p, u.search, "/");
    SamePrefix(p, search, "/");
    QueryEnds(p, u.search);
    QueryEnds(p, search);
    assert p + "" == p;
  }

  lemma QueryEnds(p: string, search: string)
    ensures search != "" && !Slashed(search) ==> !Slashed(p + search)
  {
  }

  /** So are pages on different ports of a host. */
  lemma PortsApart(base: Url, u: Url, port: string)
    requires u.port != port && u.pathname != ""
    ensures PageOf(base, u) != PageOf(base, u.(port := port))
  {
    var rest := u.pathname + u.search;
    SamePageExactly(base, u, u.(port := port));
    PortText(u);
    PortText(u.(port := port));
    SamePrefix(u.hostname, PortPart(u.port) + rest, PortPart(port) + rest);
    SameEnd(PortPart(u.port), PortPart(port), rest);
    SamePrefix(":", u.port, port);
  }

  function PortPart(port: string): string {
    if port == "" then "" else ":" + port
  }

  lemma PortText(u: Url)
    requires u.pathname != ""
    ensures HostAndPath(u) == u.hostname + (PortPart(u.port) + (u.pathname + u.search))
    ensures Slashed(HostAndPath(u)) <==> Slashed(u.pathname + u.search)
  {
  }

  lemma SameEnd(a: string, b: string, rest: string)
    ensures a + rest == b + rest <==> a == b
  {
    assert (a + rest)[..|a|] == a && (b + rest)[..|b|] == b;
  }

  /** What fetching a URL yields: the links of an HTML page, or None for an error, a bad status or another content type. */
  type Fetch = Url -> Option<seq<Url>>

  /** The web as one crawl sees it: the host it stays on, how pages are named, and fetching. */
  datatype Web = Web(host: string, page: Url -> string, fetch: Fetch)

  function WebFrom(base: Url, fetch: Fetch): Web {
    Web(base.hostname, u => PageOf(base, u), fetch)
  }

  function Links(web: Web, u: Url): seq<Url> {
    if web.fetch(u).None? then [] else web.fetch(u).value
  }

  /** The pages a URL links to on the crawled host. */
  function LinkedPages(web: Web, u: Url): set<string> {
    set l | l in Links(web, u) && l.hostname == web.host :: web.page(l)
  }

  /** URLs of the host that share a page link to the same pages. */
  ghost predicate LinksDependOnPage(web: Web) {
    forall u: Url, v: Url | u.hostname == web.host && v.hostname == web.host && web.page(u) == web.page(v) ::
      LinkedPages(web, u) == LinkedPages(web, v)
  }

  /** The host has finitely many pages: `site` contains every page linked from it. */
  ghost predicate FiniteSite(web: Web, site: set<string>) {
    forall u: Url | u.hostname == web.host :: LinkedPages(web, u) <= site
  }

  /** A chain of links on the host. */
  ghost predicate IsPath(web: Web, path: seq<Url>) {
    && path != []
    && (forall i | 0 <= i < |path| :: path[i].hostname == web.host)
    && (forall i | 0 < i < |path| :: path[i] in Links(web, path[i - 1]))
  }

  ghost predicate Reachable(web: Web, start: Url, page: string) {
    exists path: seq<Url> :: IsPath(web, path) && path[0] == start && web.page(path[|path| - 1]) == page
  }

  ghost predicate NoDuplicates(pages: seq<string>) {
    forall i, j | 0 <= i < j < |pages| :: pages[i] != pages[j]
  }

  /** The pages listed since `from` link to listed pages only. */
  ghost predicate ClosedSince(web: Web, from: seq<string>, pages: seq<string>) {
    forall u: Url | u.hostname == web.host && web.page(u) in pages && web.page(u) !in from ::
      forall p | p in LinkedPages(web, u) :: p in pages
  }

  lemma ReachableSelf(web: Web, u: Url)
    requires u.hostname == web.host
    ensures Reachable(web, u, web.page(u))
  {
    assert IsPath(web, [u]);
  }

  lemma ReachableViaLink(web: Web, u: Url, l: Url, page: string)
    requires u.hostname == web.host && l in Links(web, u) && Reachable(web, l, page)
    ensures Reachable(web, u, page)
  {
    var path :| IsPath(web, path) && path[0] == l && web.page(path[|path| - 1]) == page;
    var longer := [u] + path;
    assert longer[0] == u && longer[1..] == path && longer[|longer| - 1] == path[|path| - 1];
    assert IsPath(web, longer);
  }

  /** A closed list contains every page of a path that starts in it. */
  lemma {:induction false} ClosedContainsPath(web: Web, pages: seq<string>, path: seq<Url>)
    requires ClosedSince(web, [], pages) && IsPath(web, path) && web.page(path[0]) in pages
    ensures web.page(path[|path| - 1]) in pages
  {
    if |path| > 1 {
      assert path[1] in Links(web, path[0]);
      assert web.page(path[1]) in LinkedPages(web, path[0]);
      assert IsPath(web, path[1..]);
      ClosedContainsPath(web, pages, path[1..]);
    }
  }

  lemma ClosedSinceGrows(web: Web, from: seq<string>, mid: seq<string>, pages: seq<string>)
    requires ClosedSince(web, from, mid) && ClosedSince(web, mid, pages) && mid <= pages
    ensures ClosedSince(web, from, pages)
  {
    forall u: Url, p | u.hostname == web.host && web.page(u) in pages && web.page(u) !in from && p in LinkedPages(web, u)
      ensures p in pages
    {
      if web.page(u) in mid {
        assert p in mid;
      }
    }
  }

  // ---------- the order of the list ----------

  /** The search without recursion: the pages so far, and the URLs still to visit, next one first. */
  datatype Search = Search(pages: seq<string>, todo: seq<Url>)

  /** A URL is skipped at the limit, off the host, or if its page is listed; otherwise its links come next. */
  function Next(web: Web, limit: int, s: Search): Search
    requires s.todo != []
  {
    var u := s.todo[0];
    if (limit != 0 && |s.pages| == limit) || u.hostname != web.host || web.page(u) in s.pages then Search(s.pages, s.todo[1..])
    else Search(s.pages + [web.page(u)], Links(web, u) + s.todo[1..])
  }

  /** In `n` steps the search has visited everything it had to. */
  predicate Visits(web: Web, limit: int, s: Search, pages: seq<string>, n: nat)
    decreases n
  {
    if s.todo == [] then n == 0 && pages == s.pages else n > 0 && Visits(web, limit, Next(web, limit, s), pages, n - 1)
  }

  /** There is only one outcome. */
  lemma {:induction false} VisitsOnce(web: Web, limit: int, s: Search, pages: seq<string>, n: nat, pages': seq<string>, n': nat)
    requires Visits(web, limit, s, pages, n) && Visits(web, limit, s, pages', n')
    ensures pages == pages' && n == n'
    decreases n
  {
    if s.todo != [] {
      VisitsOnce(web, limit, Next(web, limit, s), pages, n - 1, pages', n' - 1);
    }
  }

  /** First some URLs, then others. */
  lemma {:induction false} VisitsThen(web: Web, limit: int, from: seq<string>, a: seq<Url>, mid: seq<string>, n: nat,
                                      b: seq<Url>, to: seq<string>, m: nat)
    requires Visits(web, limit, Search(from, a), mid, n) && Visits(web, limit, Search(mid, b), to, m)
    ensures Visits(web, limit, Search(from, a + b), to, n + m)
    decreases n
  {
    if a == [] {
      assert a + b == b;
    } else {
      var s := Next(web, limit, Search(from, a));
      VisitsThen(web, limit, s.pages, s.todo, mid, n - 1, b, to, m);
      NextThen(web, limit, from, a, b);
    }
  }

  lemma NextThen(web: Web, limit: int, from: seq<string>, a: seq<Url>, b: seq<Url>)
    requires a != []
    ensures var s := Next(web, limit, Search(from, a)); Next(web, limit, Search(from, a + b)) == Search(s.pages, s.todo + b)
  {
    assert (a + b)[1..] == a[1..] + b;
    assert Links(web, a[0]) + (a[1..] + b) == (Links(web, a[0]) + a[1..]) + b;
  }

  /** Visiting these URLs one after the other, depth first, makes this list out of that one. */
  ghost predicate Explores(web: Web, limit: int, from: seq<string>, todo: seq<Url>, to: seq<string>) {
    exists n: nat :: Visits(web, limit, Search(from, todo), to, n)
  }

  /** There is one such list. */
  lemma ExploresOnce(web: Web, limit: int, from: seq<string>, todo: seq<Url>, a: seq<string>, b: seq<string>)
    requires Explores(web, limit, from, todo, a) && Explores(web, limit, from, todo, b)
    ensures a == b
  {
    var n: nat :| Visits(web, limit, Search(from, todo), a, n);
    var m: nat :| Visits(web, limit, Search(from, todo), b, m);
    VisitsOnce(web, limit, Search(from, todo), a, n, b, m);
  }

  /** Visiting some URLs and then others is visiting the two lists one behind the other. */
  lemma ExploresThen(web: Web, limit: int, from: seq<string>, a: seq<Url>, mid: seq<string>, b: seq<Url>, to: seq<string>)
    requires Explores(web, limit, from, a, mid) && Explores(web, limit, mid, b, to)
    ensures Explores(web, limit, from, a + b, to)
  {
    var n: nat :| Visits(web, limit, Search(from, a), mid, n);
    var m: nat :| Visits(web, limit, Search(mid, b), to, m);
    VisitsThen(web, limit, from, a, mid, n, b, to, m);
  }

  lemma ExploresNothing(web: Web, limit: int, pages: seq<string>)
    ensures Explores(web, limit, pages, [], pages)
  {
    assert Visits(web, limit, Search(pages, []), pages, 0);
  }

  /** Visiting changes nothing at the limit, off the host, or where the page is listed. */
  lemma ExploresNone(web: Web, limit: int, pages: seq<string>, u: Url)
    requires (limit != 0 && |pages| == limit) || u.hostname != web.host || web.page(u) in pages
    ensures Explores(web, limit, pages, [u], pages)
  {
    assert Next(web, limit, Search(pages, [u])) == Search(pages, []);
    assert Visits(web, limit, Search(pages, [u]), pages, 1);
  }

  /** Visiting a new page lists it, and then visits what it links to, link by link. */
  lemma ExploresNew(web: Web, limit: int, pages: seq<string>, u: Url, to: seq<string>)
    requires !(limit != 0 && |pages| == limit) && u.hostname == web.host && web.page(u) !in pages
    requires Explores(web, limit, pages + [web.page(u)], if web.fetch(u).None? then [] else web.fetch(u).value, to)
    ensures Explores(web, limit, pages, [u], to)
  {
    var n: nat :| Visits(web, limit, Search(pages + [web.page(u)], Links(web, u)), to, n);
    assert Links(web, u) + [u][1..] == Links(web, u);
    assert Visits(web, limit, Search(pages, [u]), to, n + 1);
  }

  function AsSet(pages: seq<string>): set<string> {
    set p | p in pages
  }

  /** One call of `webCrawl`: `pages` is the list that the recursion shares. */
  class Crawl {
    const web: Web
    const limit: int
    ghost const site: set<string>
    var pages: seq<string>

    constructor (web: Web, limit: int, ghost site: set<string>)
      ensures this.web == web && this.limit == limit && this.site == site && pages == []
    {
      this.web, this.limit, this.site := web, limit, site;
      pages := [];
    }

    /** A positive limit bounds the list; otherwise the site does. */
    ghost predicate Valid()
      reads this
    {
      && NoDuplicates(pages)
      && if limit > 0 then |pages| <= limit else FiniteSite(web, site)
    }

    ghost function Measure(): nat
      reads this
      requires Valid()
    {
      if limit > 0 then limit - |pages| else |site - AsSet(pages)|
    }

    /** The limit has not cut the crawl short. */
    predicate Uncut()
      reads this
    {
      limit <= 0 || |pages| < limit
    }

    /** `crawl`. */
    method Visit(current: Url)
      requires Valid()
      requires limit <= 0 && current.hostname == web.host ==> web.page(current) in site
      modifies this
      ensures Valid() && old(pages) <= pages
      ensures forall p | p in pages :: p in old(pages) || Reachable(web, current, p)
      ensures old(Uncut()) && current.hostname == web.host ==> web.page(current) in pages
      ensures Uncut() && LinksDependOnPage(web) ==> ClosedSince(web, old(pages), pages)
      ensures Explores(web, limit, old(pages), [current], pages)
      decreases Measure(), 0
    {
      var page := web.page(current);
      if (limit != 0 && |pages| == limit) || web.host != current.hostname || page in pages {
        ExploresNone(web, limit, pages, current);
        return;
      }
      ghost var before := pages;
      pages := pages + [page];
      if limit <= 0 { AddedPage(site, before, page); }
      ReachableSelf(web, current);
      var resp := web.fetch(current);
      if resp.Some? {
        VisitAll(current, resp.value);
      } else {
        ExploresNothing(web, limit, pages);
      }
      ExploresNew(web, limit, before, current, pages);
      AddedKeeps(before, page, pages);
      if Uncut() && LinksDependOnPage(web) {
        OwnLinksClosed(web, before, current, pages);
      }
    }

    /** The loop over the links of `current`. */
    method VisitAll(current: Url, nextURLs: seq<Url>)
      requires Valid() && current.hostname == web.host && nextURLs == Links(web, current)
      modifies this
      ensures Valid() && old(pages) <= pages
      ensures forall p | p in pages :: p in old(pages) || Reachable(web, current, p)
      ensures Uncut() ==> forall p | p in LinkedPages(web, current) :: p in pages
      ensures Uncut() && LinksDependOnPage(web) ==> ClosedSince(web, old(pages), pages)
      ensures Explores(web, limit, old(pages), nextURLs, pages)
      decreases Measure(), 1
    {
      ghost var before := pages;
      ExploresNothing(web, limit, pages);
      for i := 0 to |nextURLs|
        invariant Valid() && before <= pages
        invariant Measure() <= old(Measure())
        invariant Followed(web, limit, current, before, nextURLs[..i], pages)
      {
        var l := nextURLs[i];
        ghost var mid := pages;
        assert l.hostname == web.host ==> web.page(l) in LinkedPages(web, current);
        Visit(l);
        GrowsMeasure(site, mid, pages);
        FollowedStep(web, limit, current, before, nextURLs, i, mid, pages);
      }
      assert nextURLs[..|nextURLs|] == nextURLs;
    }
  }

  /** The pages of these links, as far as they are on the host. */
  ghost predicate Listed(web: Web, links: seq<Url>, pages: seq<string>) {
    forall l | l in links && l.hostname == web.host :: web.page(l) in pages
  }

  lemma ListedStep(web: Web, links: seq<Url>, i: nat, mid: seq<string>, pages: seq<string>)
    requires i < |links| && mid <= pages && Listed(web, links[..i], mid)
    requires links[i].hostname == web.host ==> web.page(links[i]) in pages
    ensures Listed(web, links[..i + 1], pages)
  {
    PrefixKeeps(mid, pages);
    assert links[..i + 1] == links[..i] + [links[i]];
  }

  /** What following some links of `current` has done to the list. */
  ghost predicate Followed(web: Web, limit: int, current: Url, before: seq<string>, links: seq<Url>, pages: seq<string>) {
    && (forall p | p in pages :: p in before || Reachable(web, current, p))
    && (limit <= 0 || |pages| < limit ==>
          Listed(web, links, pages) && (LinksDependOnPage(web) ==> ClosedSince(web, before, pages)))
    && Explores(web, limit, before, links, pages)
  }

  lemma FollowedStep(web: Web, limit: int, current: Url, before: seq<string>, links: seq<Url>, i: nat, mid: seq<string>, pages: seq<string>)
    requires current.hostname == web.host && links == Links(web, current) && i < |links|
    requires Followed(web, limit, current, before, links[..i], mid) && mid <= pages
    requires forall p | p in pages :: p in mid || Reachable(web, links[i], p)
    requires (limit <= 0 || |mid| < limit) && links[i].hostname == web.host ==> web.page(links[i]) in pages
    requires (limit <= 0 || |pages| < limit) && LinksDependOnPage(web) ==> ClosedSince(web, mid, pages)
    requires Explores(web, limit, mid, [links[i]], pages)
    ensures Followed(web, limit, current, before, links[..i + 1], pages)
  {
    assert links[..i + 1] == links[..i] + [links[i]];
    ExploresThen(web, limit, before, links[..i], mid, [links[i]], pages);
    forall p | p in pages && p !in before ensures Reachable(web, current, p) {
      if p !in mid { ReachableViaLink(web, current, links[i], p); }
    }
    if limit <= 0 || |pages| < limit {
      ListedStep(web, links, i, mid, pages);
      if LinksDependOnPage(web) {
        ClosedSinceGrows(web, before, mid, pages);
      }
    }
  }

  lemma PrefixKeeps(a: seq<string>, b: seq<string>)
    requires a <= b
    ensures forall p | p in a :: p in b
  {
    forall p | p in a ensures p in b {
      var i :| 0 <= i < |a| && a[i] == p;
      assert b[i] == p;
    }
  }

  lemma AddedKeeps(before: seq<string>, page: string, pages: seq<string>)
    requires before + [page] <= pages
    ensures before <= pages && page in pages
  {
    assert pages[|before|] == page;
  }

  lemma AddedPage(site: set<string>, before: seq<string>, page: string)
    requires page in site && page !in before
    ensures |site - AsSet(before + [page])| < |site - AsSet(before)|
  {
    assert AsSet(before + [page]) == AsSet(before) + {page};
    assert site - AsSet(before) == (site - AsSet(before + [page])) + {page};
  }

  lemma GrowsMeasure(site: set<string>, mid: seq<string>, pages: seq<string>)
    requires mid <= pages
    ensures |site - AsSet(pages)| <= |site - AsSet(mid)|
  {
    assert site - AsSet(mid) == (site - AsSet(pages)) + ((site - AsSet(mid)) * AsSet(pages));
  }

  /** The page just added is closed too, whichever of its URLs one looks at. */
  lemma OwnLinksClosed(web: Web, before: seq<string>, current: Url, pages: seq<string>)
    requires LinksDependOnPage(web) && current.hostname == web.host
    requires ClosedSince(web, before + [web.page(current)], pages)
    requires forall p | p in LinkedPages(web, current) :: p in pages
    ensures ClosedSince(web, before, pages)
  {
    forall u: Url | u.hostname == web.host && web.page(u) in pages && web.page(u) !in before
      ensures forall p | p in LinkedPages(web, u) :: p in pages
    {
      if web.page(u) == web.page(current) {
        assert LinkedPages(web, u) == LinkedPages(web, current);
      }
    }
  }

  /** What `webCrawl` crawls: protocol and host name of the start URL, without its port. */
  function BaseOf(start: Url): Url {
    Url(start.protocol, start.hostname, "", "/", "")
  }

  /** `webCrawl` from a parsed start URL. */
  method WebCrawl(start: Url, fetch: Fetch, limit: int, ghost site: set<string>)
    returns (pages: seq<string>)
    requires limit <= 0 ==> FiniteSite(WebFrom(BaseOf(start), fetch), site)
    ensures NoDuplicates(pages)
    ensures forall p | p in pages :: Reachable(WebFrom(BaseOf(start), fetch), start, p)
    ensures (start.protocol + "//") + Cut(HostAndPath(start)) in pages
    ensures limit > 0 ==> 0 < |pages| <= limit
    ensures Explores(WebFrom(BaseOf(start), fetch), limit, [], [start], pages)
    ensures (limit <= 0 || |pages| < limit) && LinksDependOnPage(WebFrom(BaseOf(start), fetch)) ==>
              forall p :: p in pages <==> Reachable(WebFrom(BaseOf(start), fetch), start, p)
  {
    var web := WebFrom(BaseOf(start), fetch);
    var crawl := new Crawl(web, limit, site + {web.page(start)});
    crawl.Visit(start);
    pages := crawl.pages;
    NameOf(BaseOf(start), start);
    if crawl.Uncut() && LinksDependOnPage(web) {
      ClosedContainsReachable(web, pages, start);
    }
  }

  predicate LinksTo(fetch: Fetch, u: Url, v: Url) {
    fetch(u).Some? && v in fetch(u).value
  }

  /** Hops from `start` over links of fetched pages that stay on its host. */
  ghost predicate Hops(start: Url, fetch: Fetch, path: seq<Url>) {
    && path != [] && path[0] == start
    && (forall i | 0 <= i < |path| :: path[i].hostname == start.hostname)
    && (forall i | 0 < i < |path| :: LinksTo(fetch, path[i - 1], path[i]))
  }

  ghost predicate ReachedAs(start: Url, fetch: Fetch, path: seq<Url>, p: string) {
    Hops(start, fetch, path) && p == (start.protocol + "//") + Cut(HostAndPath(path[|path| - 1]))
  }

  lemma HopsArePath(start: Url, fetch: Fetch, path: seq<Url>)
    ensures Hops(start, fetch, path) <==> IsPath(WebFrom(BaseOf(start), fetch), path) && path[0] == start
  {
    var web := WebFrom(BaseOf(start), fetch);
    assert forall u, v :: v in Links(web, u) <==> LinksTo(fetch, u, v);
  }

  /** A page can be reached exactly if such hops end at a URL of this name. */
  lemma ReachedByHops(start: Url, fetch: Fetch, p: string)
    ensures Reachable(WebFrom(BaseOf(start), fetch), start, p) <==> exists path: seq<Url> :: ReachedAs(start, fetch, path, p)
  {
    var web := WebFrom(BaseOf(start), fetch);
    if Reachable(web, start, p) {
      var path: seq<Url> :| IsPath(web, path) && path[0] == start && web.page(path[|path| - 1]) == p;
      HopsArePath(start, fetch, path);
      NameOf(BaseOf(start), path[|path| - 1]);
      assert ReachedAs(start, fetch, path, p);
    }
    if path: seq<Url> :| ReachedAs(start, fetch, path, p) {
      HopsArePath(start, fetch, path);
      NameOf(BaseOf(start), path[|path| - 1]);
    }
  }

  lemma ClosedContainsReachable(web: Web, pages: seq<string>, start: Url)
    requires ClosedSince(web, [], pages) && web.page(start) in pages
    ensures forall p | Reachable(web, start, p) :: p in pages
  {
    forall p | Reachable(web, start, p) ensures p in pages {
      var path: seq<Url> :| IsPath(web, path) && path[0] == start && web.page(path[|path| - 1]) == p;
      ClosedContainsPath(web, pages, path);
    }
  }
}

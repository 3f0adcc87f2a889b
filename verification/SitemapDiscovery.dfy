/** The bounded traversal of a source's sitemaps (ingestion/sitemap.py). */
module SitemapDiscovery {
  import opened Prelude

  datatype Url = Url(text: string)
  datatype Path = Path(text: string)
  type Time = int

  const MAX_SITEMAP_DEPTH := 2

  datatype Entry = Entry(loc: Url, lastmod: Option<Time>)
  datatype Sitemap = Index(entries: seq<Entry>) | UrlSet(entries: seq<Entry>)
  datatype Answer = Document(sitemap: Sitemap) | OffPolicy | Unavailable | Malformed

  /** The source as the traversal sees it: what a fetch yields after its retries, and how a location is judged. */
  datatype Site = Site(
    fetch: Url -> Answer,
    mayFollow: Url -> bool,         // an index entry passes the source policy
    aboutProducts: Url -> bool,     // and names a product sitemap
    mayVisit: Url -> bool,          // a page entry passes the source policy
    path: Url -> Option<Path>)      // and is a product page with this path

  datatype Error = PolicyViolation | SitemapInvalid | SitemapUnavailable | TooManySitemaps | LimitExceeded | Empty
  datatype Discovery = Discovery(products: map<Path, Option<Time>>, duplicates: nat, ignored: nat, fetched: nat)
  datatype Outcome = Found(discovery: Discovery) | Failed(error: Error)

  // ---- what the sitemaps say ---------------------------------------------------------------------

  datatype Visit = Visit(path: Path, when: Option<Time>)

  /** The product sitemaps among the first n entries of an index, in order. */
  function Followed(site: Site, entries: seq<Entry>, n: nat): seq<Url>
    requires n <= |entries|
  {
    if n == 0 then []
    else Followed(site, entries, n - 1) + if site.aboutProducts(entries[n - 1].loc) then [entries[n - 1].loc] else []
  }

  function VisitBy(site: Site, e: Entry): seq<Visit> {
    match site.path(e.loc) case Some(path) => [Visit(path, e.lastmod)] case None => []
  }

  /** The product pages among the first n entries of a URL set, in order. */
  function Visits(site: Site, entries: seq<Entry>, n: nat): seq<Visit>
    requires n <= |entries|
  {
    if n == 0 then [] else Visits(site, entries, n - 1) + VisitBy(site, entries[n - 1])
  }

  function LinksAt(site: Site, url: Url): seq<Url> {
    match site.fetch(url)
    case Document(Index(entries)) => Followed(site, entries, |entries|)
    case _ => []
  }

  function Links(site: Site, url: Url): set<Url> {
    set l | l in LinksAt(site, url)
  }

  function VisitsAt(site: Site, url: Url): seq<Visit> {
    match site.fetch(url)
    case Document(UrlSet(entries)) => Visits(site, entries, |entries|)
    case _ => []
  }

  /** Entries that are neither product pages nor product sitemaps. */
  function IgnoredAt(site: Site, url: Url): int {
    match site.fetch(url)
    case Document(Index(entries)) => |entries| - |Followed(site, entries, |entries|)|
    case Document(UrlSet(entries)) => |entries| - |Visits(site, entries, |entries|)|
    case _ => 0
  }

  function VisitsOf(site: Site, order: seq<Url>): seq<Visit> {
    if order == [] then [] else VisitsOf(site, order[..|order| - 1]) + VisitsAt(site, order[|order| - 1])
  }

  function IgnoredOf(site: Site, order: seq<Url>): int {
    if order == [] then 0 else IgnoredOf(site, order[..|order| - 1]) + IgnoredAt(site, order[|order| - 1])
  }

  function Newer(a: Option<Time>, b: Option<Time>): Option<Time> {
    if a.None? then b else if b.None? then a else Some(Max(a.value, b.value))
  }

  /** The newest valid date seen for a path, if any. */
  function Newest(visits: seq<Visit>, path: Path): Option<Time> {
    if visits == [] then None
    else
      var last, earlier := visits[|visits| - 1], Newest(visits[..|visits| - 1], path);
      if last.path == path then Newer(earlier, last.when) else earlier
  }

  lemma {:induction false} NewestIsLatest(visits: seq<Visit>, path: Path)
    ensures Newest(visits, path).Some? <==> exists v :: v in visits && v.path == path && v.when.Some?
    ensures Newest(visits, path).Some? ==> Visit(path, Newest(visits, path)) in visits
    ensures forall v | v in visits && v.path == path && v.when.Some? :: v.when.value <= Newest(visits, path).value
  {
    if visits != [] {
      var init, last := visits[..|visits| - 1], visits[|visits| - 1];
      assert visits == init + [last];
      NewestIsLatest(init, path);
      if last.path == path && last.when.Some? {
        assert last in visits;
      }
    }
  }

  function PathsIn(visits: seq<Visit>): set<Path> {
    set v | v in visits :: v.path
  }

  // ---- the sitemaps that have to be read ---------------------------------------------------------

  /** The sitemaps at most two links away from the root. Anything linked further would have to be listed by an index at
      the last level, which must not list anything. */
  function Within(site: Site, root: Url): set<Url> {
    {root} + Links(site, root) + set l, u | l in Links(site, root) && u in Links(site, l) :: u
  }

  function PathsOf(site: Site, urls: set<Url>): set<Path> {
    set u, v | u in urls && v in VisitsAt(site, u) :: v.path
  }

  predicate Allowed(site: Site, sitemap: Sitemap, e: Entry) {
    if sitemap.Index? then site.mayFollow(e.loc) else site.mayVisit(e.loc)
  }

  /** The first n entries all pass the source policy. */
  predicate AllowedTo(site: Site, sitemap: Sitemap, n: nat)
    requires n <= |sitemap.entries|
  {
    n == 0 || (AllowedTo(site, sitemap, n - 1) && Allowed(site, sitemap, sitemap.entries[n - 1]))
  }

  predicate AllAllowed(site: Site, sitemap: Sitemap) {
    AllowedTo(site, sitemap, |sitemap.entries|)
  }

  lemma {:induction false} NotAllowed(site: Site, sitemap: Sitemap, i: nat, n: nat)
    requires i < n <= |sitemap.entries| && !Allowed(site, sitemap, sitemap.entries[i])
    ensures !AllowedTo(site, sitemap, n)
    decreases n
  {
    if i < n - 1 {
      NotAllowed(site, sitemap, i, n - 1);
    }
  }

  /** An index with anything in it, too far from the root. */
  predicate TooDeep(site: Site, root: Url, url: Url) {
    var answer := site.fetch(url);
    && answer.Document? && answer.sitemap.Index? && answer.sitemap.entries != []
    && url != root && url !in Links(site, root)
  }

  /** What is wrong with one sitemap. */
  predicate BadAt(site: Site, root: Url, url: Url, error: Error) {
    var answer := site.fetch(url);
    match error
    case PolicyViolation => answer.OffPolicy? || (answer.Document? && !AllAllowed(site, answer.sitemap))
    case SitemapInvalid => answer.Malformed? || TooDeep(site, root, url)
    case SitemapUnavailable => answer.Unavailable?
    case _ => false
  }

  predicate Sound(site: Site, root: Url, url: Url) {
    site.fetch(url).Document? && AllAllowed(site, site.fetch(url).sitemap) && !TooDeep(site, root, url)
  }

  predicate AllSound(site: Site, root: Url) {
    forall u | u in Within(site, root) :: Sound(site, root, u)
  }

  /** Everything the traversal asks of a source. */
  predicate Acceptable(site: Site, root: Url, maxUrls: int, maxSitemaps: int) {
    && AllSound(site, root)
    && |Within(site, root)| <= maxSitemaps
    && 1 <= |PathsOf(site, Within(site, root))| <= maxUrls
  }

  /** What each error says about the source. */
  predicate Blamed(site: Site, root: Url, maxUrls: int, maxSitemaps: int, error: Error) {
    match error
    case TooManySitemaps => |Within(site, root)| > maxSitemaps
    case LimitExceeded => |PathsOf(site, Within(site, root))| > maxUrls
    case Empty => AllSound(site, root) && PathsOf(site, Within(site, root)) == {}
    case _ => exists u | u in Within(site, root) :: BadAt(site, root, u, error)
  }

  lemma {:induction false} BlamedIsUnacceptable(site: Site, root: Url, maxUrls: int, maxSitemaps: int, error: Error)
    requires Blamed(site, root, maxUrls, maxSitemaps, error)
    ensures !Acceptable(site, root, maxUrls, maxSitemaps)
  {
    if error.PolicyViolation? || error.SitemapInvalid? || error.SitemapUnavailable? {
      var u :| u in Within(site, root) && BadAt(site, root, u, error);
      assert !Sound(site, root, u);
    }
  }

  // ---- one sitemap -------------------------------------------------------------------------------

  type Queue = seq<(Url, nat)>

  function AtDepth(urls: seq<Url>, depth: nat): Queue {
    seq(|urls|, i requires 0 <= i < |urls| => (urls[i], depth))
  }

  /** Queue the product sitemaps an index lists, ignoring the others. */
  method ReadIndex(site: Site, entries: seq<Entry>, depth: nat, queue: Queue, ignored: nat)
    returns (failure: Option<Error>, queue': Queue, ignored': nat)
    ensures failure.None? <==> AllAllowed(site, Index(entries)) && (entries == [] || depth < MAX_SITEMAP_DEPTH)
    ensures failure.Some? ==>
      || (failure.value.PolicyViolation? && !AllAllowed(site, Index(entries)))
      || (failure.value.SitemapInvalid? && entries != [] && depth >= MAX_SITEMAP_DEPTH)
    ensures failure.None? ==>
      && queue' == queue + AtDepth(Followed(site, entries, |entries|), depth + 1)
      && ignored' == ignored + |entries| - |Followed(site, entries, |entries|)|
  {
    queue', ignored' := queue, ignored;
    var i := 0;
    while i < |entries|
      invariant 0 <= i <= |entries|
      invariant i > 0 ==> depth < MAX_SITEMAP_DEPTH
      invariant AllowedTo(site, Index(entries), i)
      invariant queue' == queue + AtDepth(Followed(site, entries, i), depth + 1)
      invariant ignored' == ignored + i - |Followed(site, entries, i)|
    {
      var loc := entries[i].loc;
      if !site.mayFollow(loc) {
        NotAllowed(site, Index(entries), i, |entries|);
        return Some(PolicyViolation), queue', ignored';
      }
      if depth + 1 > MAX_SITEMAP_DEPTH {
        return Some(SitemapInvalid), queue', ignored';
      }
      if site.aboutProducts(loc) {
        queue' := queue' + [(loc, depth + 1)];
      } else {
        ignored' := ignored' + 1;
      }
      i := i + 1;
    }
    failure := None;
  }

  /** The products hold each path visited, with the newest of its dates; every further visit is a duplicate. */
  predicate Tallied(products: map<Path, Option<Time>>, duplicates: nat, visits: seq<Visit>) {
    && products.Keys == PathsIn(visits)
    && (forall p | p in products :: products[p] == Newest(visits, p))
    && |products| + duplicates == |visits|
  }

  lemma {:induction false} NewestStep(visits: seq<Visit>, v: Visit, path: Path)
    ensures Newest(visits + [v], path) ==
            if v.path == path then Newer(Newest(visits, path), v.when) else Newest(visits, path)
  {
    assert (visits + [v])[..|visits|] == visits;
  }

  lemma {:induction false} PathsStep(visits: seq<Visit>, v: Visit)
    ensures PathsIn(visits + [v]) == PathsIn(visits) + {v.path}
  {
    assert forall u | u in visits :: u in visits + [v];
    assert v in visits + [v];
  }

  lemma {:induction false} TallyAgain(products: map<Path, Option<Time>>, duplicates: nat, visits: seq<Visit>, v: Visit)
    requires Tallied(products, duplicates, visits) && v.path in products
    ensures Tallied(products[v.path := Newer(products[v.path], v.when)], duplicates + 1, visits + [v])
  {
    PathsStep(visits, v);
    var after := products[v.path := Newer(products[v.path], v.when)];
    assert after.Keys == products.Keys;
    assert |after| == |after.Keys| == |products|;
    forall p | p in after
      ensures after[p] == Newest(visits + [v], p)
    {
      NewestStep(visits, v, p);
    }
  }

  lemma {:induction false} TallyNew(products: map<Path, Option<Time>>, duplicates: nat, visits: seq<Visit>, v: Visit)
    requires Tallied(products, duplicates, visits) && v.path !in products
    ensures Tallied(products[v.path := v.when], duplicates, visits + [v])
  {
    PathsStep(visits, v);
    NewestIsLatest(visits, v.path);
    assert forall u | u in visits :: u.path in PathsIn(visits);
    var after := products[v.path := v.when];
    assert after.Keys == products.Keys + {v.path};
    assert |after| == |after.Keys| == |products| + 1;
    forall p | p in after
      ensures after[p] == Newest(visits + [v], p)
    {
      NewestStep(visits, v, p);
    }
  }

  /** Record the product page an entry of a URL set names, if it names one. */
  method ReadPage(
    site: Site, e: Entry, products: map<Path, Option<Time>>, duplicates: nat, ignored: nat, maxUrls: int,
    ghost seen: seq<Visit>)
    returns (failure: Option<Error>, products': map<Path, Option<Time>>, duplicates': nat, ignored': nat)
    requires Tallied(products, duplicates, seen) && |products| <= Max(maxUrls, 0)
    ensures failure.Some? ==>
      || (failure.value.PolicyViolation? && !site.mayVisit(e.loc))
      || (failure.value.LimitExceeded? && |PathsIn(seen + VisitBy(site, e))| > maxUrls)
    ensures failure.None? ==>
      && site.mayVisit(e.loc)
      && Tallied(products', duplicates', seen + VisitBy(site, e)) && |products'| <= Max(maxUrls, 0)
      && ignored' == ignored + 1 - |VisitBy(site, e)|
  {
    failure, products', duplicates', ignored' := None, products, duplicates, ignored;
    if !site.mayVisit(e.loc) {
      return Some(PolicyViolation), products', duplicates', ignored';
    }
    var path := site.path(e.loc);
    if path.None? {
      assert seen + [] == seen;
      ignored' := ignored + 1;
      return;
    }
    var v := Visit(path.value, e.lastmod);
    if v.path in products {
      TallyAgain(products, duplicates, seen, v);
      products' := products[v.path := Newer(products[v.path], v.when)];
      assert products'.Keys == products.Keys;
      assert |products'| == |products'.Keys| == |products|;
      duplicates' := duplicates + 1;
    } else if |products| >= maxUrls {
      PathsStep(seen, v);
      assert |products.Keys| == |products|;
      failure := Some(LimitExceeded);
    } else {
      TallyNew(products, duplicates, seen, v);
      products' := products[v.path := v.when];
    }
  }

  /** Record the product pages a URL set lists, ignoring the others. */
  method ReadUrlSet(site: Site, entries: seq<Entry>, products: map<Path, Option<Time>>, duplicates: nat, ignored: nat,
                    maxUrls: int, ghost visits: seq<Visit>)
    returns (failure: Option<Error>, products': map<Path, Option<Time>>, duplicates': nat, ignored': nat)
    requires Tallied(products, duplicates, visits) && |products| <= Max(maxUrls, 0)
    ensures failure.None? ==> AllAllowed(site, UrlSet(entries)) && |products'| <= Max(maxUrls, 0)
    ensures failure.Some? ==>
      || (failure.value.PolicyViolation? && !AllAllowed(site, UrlSet(entries)))
      || (failure.value.LimitExceeded? && |PathsIn(visits + Visits(site, entries, |entries|))| > maxUrls)
    ensures failure.None? ==>
      && Tallied(products', duplicates', visits + Visits(site, entries, |entries|))
      && ignored' == ignored + |entries| - |Visits(site, entries, |entries|)|
  {
    failure, products', duplicates', ignored' := None, products, duplicates, ignored;
    ghost var seen := visits;
    var i := 0;
    while i < |entries|
      invariant 0 <= i <= |entries| && failure.None?
      invariant AllowedTo(site, UrlSet(entries), i)
      invariant seen == visits + Visits(site, entries, i)
      invariant Tallied(products', duplicates', seen)
      invariant ignored' == ignored + i - |Visits(site, entries, i)|
      invariant |products'| <= Max(maxUrls, 0)
    {
      failure, products', duplicates', ignored' :=
        ReadPage(site, entries[i], products', duplicates', ignored', maxUrls, seen);
      VisitsNext(site, entries, i, visits, seen);
      seen := seen + VisitBy(site, entries[i]);
      if failure.Some? {
        if failure.value.PolicyViolation? {
          NotAllowed(site, UrlSet(entries), i, |entries|);
        }
        MoreVisits(site, entries, i + 1, visits);
        return;
      }
      i := i + 1;
    }
  }

  lemma {:induction false} VisitsNext(site: Site, entries: seq<Entry>, i: nat, visits: seq<Visit>, seen: seq<Visit>)
    requires i < |entries| && seen == visits + Visits(site, entries, i)
    ensures seen + VisitBy(site, entries[i]) == visits + Visits(site, entries, i + 1)
    ensures |Visits(site, entries, i + 1)| == |Visits(site, entries, i)| + |VisitBy(site, entries[i])|
  {
  }

  lemma {:induction false} VisitsPrefix(site: Site, entries: seq<Entry>, i: nat, n: nat)
    requires i <= n <= |entries|
    ensures Visits(site, entries, i) <= Visits(site, entries, n)
    decreases n
  {
    if i < n {
      VisitsPrefix(site, entries, i, n - 1);
    }
  }

  lemma {:induction false} MoreVisits(site: Site, entries: seq<Entry>, i: nat, visits: seq<Visit>)
    requires i <= |entries|
    ensures |PathsIn(visits + Visits(site, entries, i))| <= |PathsIn(visits + Visits(site, entries, |entries|))|
  {
    VisitsPrefix(site, entries, i, |entries|);
    MorePaths(visits + Visits(site, entries, i), visits + Visits(site, entries, |entries|));
    SmallerSet(PathsIn(visits + Visits(site, entries, i)), PathsIn(visits + Visits(site, entries, |entries|)));
  }

  lemma {:induction false} MorePaths(a: seq<Visit>, b: seq<Visit>)
    requires a <= b
    ensures PathsIn(a) <= PathsIn(b)
  {
    assert forall v | v in a :: v in b;
  }

  lemma {:induction false} SmallerSet<T>(a: set<T>, b: set<T>)
    requires a <= b
    ensures |a| <= |b|
  {
    assert b == a + (b - a);
  }

  // ---- the traversal -----------------------------------------------------------------------------

  function Urls(queue: Queue): set<Url> {
    set q | q in queue :: q.0
  }

  function All(order: seq<Url>): set<Url> {
    set u | u in order
  }

  /** First in, first out keeps the queue sorted by depth, and never more than one level wide. */
  predicate Layered(queue: Queue) {
    forall i, j | 0 <= i < j < |queue| :: queue[i].1 <= queue[j].1 <= queue[i].1 + 1
  }

  predicate Placed(site: Site, root: Url, item: (Url, nat)) {
    && item.1 <= MAX_SITEMAP_DEPTH
    && (item.1 == 0 ==> item.0 == root)
    && (item.1 == 1 ==> item.0 in Links(site, root))
  }

  /** What has been read so far, and what is waiting, account for all that is linked. */
  ghost predicate Underway(site: Site, root: Url, order: seq<Url>, queue: Queue) {
    && (root in order || (order == [] && queue == [(root, 0)]))
    && (forall u | u in order :: Sound(site, root, u) && Links(site, u) <= All(order) + Urls(queue))
    && (root in order ==> forall l | l in Links(site, root) :: l in order || (l, 1) in queue)
    && Layered(queue)
    && (forall q | q in queue :: Placed(site, root, q))
  }

  ghost predicate Needed(site: Site, root: Url, urls: set<Url>) {
    urls <= Within(site, root)
  }

  lemma {:induction false} SkipSeen(site: Site, root: Url, order: seq<Url>, queue: Queue)
    requires Underway(site, root, order, queue) && queue != [] && queue[0].0 in order
    ensures Underway(site, root, order, queue[1..])
  {
    assert queue == [queue[0]] + queue[1..];
    assert Urls(queue) == Urls(queue[1..]) + {queue[0].0};
  }

  /** A location that waits at the last level is as far from the root as that. */
  lemma {:induction false} DepthIsDistance(site: Site, root: Url, order: seq<Url>, queue: Queue)
    requires Underway(site, root, order, queue) && queue != [] && queue[0].0 !in order
    ensures var (url, depth) := queue[0]; depth == MAX_SITEMAP_DEPTH <==> url != root && url !in Links(site, root)
  {
    var (url, depth) := queue[0];
    assert queue[0] in queue;
    if depth == MAX_SITEMAP_DEPTH {
      assert (url, 1) !in queue;
    }
  }

  lemma {:induction false} LayeredNext(queue: Queue, links: seq<Url>)
    requires Layered(queue) && queue != []
    ensures Layered(queue[1..] + AtDepth(links, queue[0].1 + 1))
  {
  }

  lemma {:induction false} UrlsNext(queue: Queue, links: seq<Url>, depth: nat)
    requires queue != []
    ensures Urls(queue[1..] + AtDepth(links, depth)) + {queue[0].0} == Urls(queue) + All(links)
    ensures forall l | l in links :: (l, depth) in queue[1..] + AtDepth(links, depth)
    ensures forall q | q in queue && q != queue[0] :: q in queue[1..] + AtDepth(links, depth)
    ensures forall q | q in queue[1..] + AtDepth(links, depth) :: q in queue || (q.0 in links && q.1 == depth)
  {
    var added := AtDepth(links, depth);
    assert queue == [queue[0]] + queue[1..];
    forall l | l in links
      ensures (l, depth) in added
    {
      var i :| 0 <= i < |links| && links[i] == l;
      assert added[i] == (l, depth);
    }
    assert Urls(queue) == Urls(queue[1..]) + {queue[0].0};
    assert Urls(queue[1..] + added) == Urls(queue[1..]) + Urls(added);
    assert Urls(added) == All(links);
  }

  lemma {:induction false} ReadNew(site: Site, root: Url, order: seq<Url>, queue: Queue, links: seq<Url>)
    requires Underway(site, root, order, queue) && queue != [] && queue[0].0 !in order
    requires Sound(site, root, queue[0].0) && All(links) == Links(site, queue[0].0)
    requires links != [] ==> queue[0].1 < MAX_SITEMAP_DEPTH
    ensures Underway(site, root, order + [queue[0].0], queue[1..] + AtDepth(links, queue[0].1 + 1))
  {
    var (url, depth) := queue[0];
    var order', queue' := order + [url], queue[1..] + AtDepth(links, depth + 1);
    assert queue[0] in queue;
    LayeredNext(queue, links);
    UrlsNext(queue, links, depth + 1);
    assert All(order') == All(order) + {url};
    assert root in order' by {
      if root !in order { assert url == root; }
    }
    PlacedNext(site, root, queue, links);
    RootLinksNext(site, root, order, queue, links);
    forall u | u in order'
      ensures Sound(site, root, u) && Links(site, u) <= All(order') + Urls(queue')
    {
      if u != url {
        assert u in order;
        StillCovered(Links(site, u), All(order), Urls(queue), url, Urls(queue'));
      }
    }
  }

  lemma {:induction false} StillCovered(
    links: set<Url>, read: set<Url>, waiting: set<Url>, url: Url, waiting': set<Url>)
    requires links <= read + waiting && waiting <= waiting' + {url}
    ensures links <= read + {url} + waiting'
  {
  }

  lemma {:induction false} RootLinksNext(site: Site, root: Url, order: seq<Url>, queue: Queue, links: seq<Url>)
    requires Underway(site, root, order, queue) && queue != [] && queue[0].0 !in order
    requires All(links) == Links(site, queue[0].0)
    ensures var queue' := queue[1..] + AtDepth(links, queue[0].1 + 1);
            forall l | l in Links(site, root) :: l in order || l == queue[0].0 || (l, 1) in queue'
  {
    var queue' := queue[1..] + AtDepth(links, queue[0].1 + 1);
    UrlsNext(queue, links, queue[0].1 + 1);
    forall l | l in Links(site, root)
      ensures l in order || l == queue[0].0 || (l, 1) in queue'
    {
      if root in order {
        assert l !in order && l != queue[0].0 ==> (l, 1) in queue && (l, 1) != queue[0];
      } else {
        assert l in All(links);
      }
    }
  }

  lemma {:induction false} PlacedNext(site: Site, root: Url, queue: Queue, links: seq<Url>)
    requires queue != [] && (forall q | q in queue :: Placed(site, root, q))
    requires All(links) == Links(site, queue[0].0) && (links != [] ==> queue[0].1 < MAX_SITEMAP_DEPTH)
    ensures forall q | q in queue[1..] + AtDepth(links, queue[0].1 + 1) :: Placed(site, root, q)
  {
    UrlsNext(queue, links, queue[0].1 + 1);
    assert Placed(site, root, queue[0]);
    forall q | q in queue[1..] + AtDepth(links, queue[0].1 + 1)
      ensures Placed(site, root, q)
    {
      if q !in queue {
        assert q.0 in All(links);
      }
    }
  }

  lemma {:induction false} PathsOfOrder(site: Site, order: seq<Url>)
    ensures PathsIn(VisitsOf(site, order)) == PathsOf(site, All(order))
  {
    if order != [] {
      var init, last := order[..|order| - 1], order[|order| - 1];
      assert order == init + [last];
      PathsOfOrder(site, init);
      assert All(order) == All(init) + {last};
      var a, b := VisitsOf(site, init), VisitsAt(site, last);
      assert PathsIn(a + b) == PathsIn(a) + PathsIn(b);
      assert PathsOf(site, All(order)) == PathsOf(site, All(init)) + PathsOf(site, {last});
      assert PathsOf(site, {last}) == PathsIn(b);
    }
  }

  /** The products and counters of a discovery that read these sitemaps. */
  predicate Reports(site: Site, order: seq<Url>, d: Discovery) {
    && d.fetched == |order|
    && Tallied(d.products, d.duplicates, VisitsOf(site, order))
    && d.ignored == IgnoredOf(site, order)
  }

  lemma {:induction false} NeededHead(site: Site, root: Url, order: seq<Url>, queue: Queue)
    requires Needed(site, root, All(order) + Urls(queue)) && queue != []
    ensures Needed(site, root, All(order) + {queue[0].0})
    ensures Needed(site, root, All(order) + Urls(queue[1..]))
  {
    assert queue == [queue[0]] + queue[1..];
    assert Urls(queue) == Urls(queue[1..]) + {queue[0].0};
  }

  lemma {:induction false} LinksAreWithin(site: Site, root: Url, item: (Url, nat))
    requires Placed(site, root, item) && (Links(site, item.0) != {} ==> item.1 < MAX_SITEMAP_DEPTH)
    ensures Links(site, item.0) <= Within(site, root)
  {
  }

  lemma {:induction false} NeededNext(site: Site, root: Url, order: seq<Url>, queue: Queue, links: seq<Url>)
    requires Needed(site, root, All(order) + Urls(queue)) && queue != [] && All(links) == Links(site, queue[0].0)
    requires Placed(site, root, queue[0]) && (links != [] ==> queue[0].1 < MAX_SITEMAP_DEPTH)
    ensures Needed(site, root, All(order + [queue[0].0]) + Urls(queue[1..] + AtDepth(links, queue[0].1 + 1)))
  {
    UrlsNext(queue, links, queue[0].1 + 1);
    assert queue[0] in queue && queue[0].0 in Urls(queue);
    assert All(order + [queue[0].0]) == All(order) + {queue[0].0};
    LinksAreWithin(site, root, queue[0]);
  }

  lemma {:induction false} TooMany(site: Site, root: Url, order: seq<Url>, url: Url, maxSitemaps: int)
    requires Needed(site, root, All(order) + {url}) && |All(order) + {url}| > maxSitemaps
    ensures |Within(site, root)| > maxSitemaps
  {
    SmallerSet(All(order) + {url}, Within(site, root));
  }

  lemma {:induction false} TooManyPaths(site: Site, root: Url, order: seq<Url>, maxUrls: int)
    requires Needed(site, root, All(order)) && |PathsIn(VisitsOf(site, order))| > maxUrls
    ensures |PathsOf(site, Within(site, root))| > maxUrls
  {
    PathsOfOrder(site, order);
    SmallerSet(PathsOf(site, All(order)), PathsOf(site, Within(site, root)));
  }

  /** With nothing left to read, exactly the sitemaps within reach were read. */
  lemma {:induction false} AllReadAtTheEnd(site: Site, root: Url, order: seq<Url>)
    requires Underway(site, root, order, []) && Needed(site, root, All(order))
    ensures All(order) == Within(site, root) && AllSound(site, root)
  {
    assert Urls([]) == {};
  }

  lemma {:induction false} AllNext(order: seq<Url>, url: Url)
    ensures All(order + [url]) == All(order) + {url}
    ensures url in All(order) <==> url in order
    ensures url !in order ==> |All(order + [url])| == |All(order)| + 1
  {
  }

  lemma {:induction false} OrderNext(site: Site, order: seq<Url>, url: Url)
    ensures All(order + [url]) == All(order) + {url}
    ensures VisitsOf(site, order + [url]) == VisitsOf(site, order) + VisitsAt(site, url)
    ensures IgnoredOf(site, order + [url]) == IgnoredOf(site, order) + IgnoredAt(site, url)
  {
    assert (order + [url])[..|order|] == order;
  }

  /** An index far from the root must be empty. */
  predicate InReach(site: Site, url: Url, depth: nat) {
    site.fetch(url).Document? && site.fetch(url).sitemap.Index? && site.fetch(url).sitemap.entries != [] ==>
        depth < MAX_SITEMAP_DEPTH
  }

  lemma {:induction false} Advance(site: Site, root: Url, order: seq<Url>, queue: Queue)
    requires Underway(site, root, order, queue) && Needed(site, root, All(order) + Urls(queue))
    requires queue != [] && queue[0].0 !in order
    requires var answer := site.fetch(queue[0].0); answer.Document? && AllAllowed(site, answer.sitemap)
    requires InReach(site, queue[0].0, queue[0].1)
    ensures var queue' := queue[1..] + AtDepth(LinksAt(site, queue[0].0), queue[0].1 + 1);
            && Underway(site, root, order + [queue[0].0], queue')
            && Needed(site, root, All(order + [queue[0].0]) + Urls(queue'))
  {
    var links := LinksAt(site, queue[0].0);
    DepthIsDistance(site, root, order, queue);
    ReadNew(site, root, order, queue, links);
    NeededNext(site, root, order, queue, links);
  }

  /** What reading one sitemap comes to: what is wrong with it, or its links queued and its products recorded. */
  predicate ReadAs(
    site: Site, root: Url, url: Url, depth: nat, queue: Queue, result: Discovery, maxUrls: int, visits: seq<Visit>,
    failure: Option<Error>, queue': Queue, result': Discovery)
  {
    || (failure.Some? && BadAt(site, root, url, failure.value))
    || (failure.Some? && failure.value.LimitExceeded? && |PathsIn(visits + VisitsAt(site, url))| > maxUrls)
    || (&& failure.None?
        && site.fetch(url).Document? && AllAllowed(site, site.fetch(url).sitemap) && InReach(site, url, depth)
        && queue' == queue + AtDepth(LinksAt(site, url), depth + 1)
        && result'.fetched == result.fetched + 1 && result'.ignored == result.ignored + IgnoredAt(site, url)
        && Tallied(result'.products, result'.duplicates, visits + VisitsAt(site, url))
        && |result'.products| <= Max(maxUrls, 0))
  }

  /** Read one sitemap that was not read before. */
  method ReadSitemap(
    site: Site, root: Url, url: Url, depth: nat, queue: Queue, result: Discovery, maxUrls: int,
    ghost visits: seq<Visit>)
    returns (failure: Option<Error>, queue': Queue, result': Discovery)
    requires Tallied(result.products, result.duplicates, visits) && |result.products| <= Max(maxUrls, 0)
    requires depth >= MAX_SITEMAP_DEPTH ==> url != root && url !in Links(site, root)
    ensures ReadAs(site, root, url, depth, queue, result, maxUrls, visits, failure, queue', result')
  {
    failure, queue', result' := None, queue, result;
    match site.fetch(url)
    case OffPolicy => failure := Some(PolicyViolation);
    case Malformed => failure := Some(SitemapInvalid);
    case Unavailable => failure := Some(SitemapUnavailable);
    case Document(Index(entries)) =>
      var ignored;
      failure, queue', ignored := ReadIndex(site, entries, depth, queue, result.ignored);
      result' := result.(ignored := ignored, fetched := result.fetched + 1);
      assert visits + [] == visits;
    case Document(UrlSet(entries)) =>
      var products, duplicates, ignored;
      failure, products, duplicates, ignored :=
        ReadUrlSet(site, entries, result.products, result.duplicates, result.ignored, maxUrls, visits);
      result' := Discovery(products, duplicates, ignored, result.fetched + 1);
      assert queue + AtDepth([], depth + 1) == queue;
  }

  lemma {:induction false} BlameFor(
    site: Site, root: Url, order: seq<Url>, url: Url, maxUrls: int, maxSitemaps: int, error: Error)
    requires Needed(site, root, All(order) + {url})
    requires BadAt(site, root, url, error)
          || (error.LimitExceeded? && |PathsIn(VisitsOf(site, order) + VisitsAt(site, url))| > maxUrls)
    ensures Blamed(site, root, maxUrls, maxSitemaps, error)
  {
    if BadAt(site, root, url, error) {
      assert url in All(order) + {url};
    } else {
      OrderNext(site, order, url);
      TooManyPaths(site, root, order + [url], maxUrls);
    }
  }

  /** With nothing left to read, the source is acceptable unless it listed no product at all. */
  lemma {:induction false} Verdict(site: Site, root: Url, order: seq<Url>, d: Discovery, maxUrls: int, maxSitemaps: int)
    requires Underway(site, root, order, []) && Needed(site, root, All(order) + Urls([])) && Reports(site, order, d)
    requires |All(order)| <= Max(maxSitemaps, 0) && |d.products| <= Max(maxUrls, 0)
    ensures d.products == map[] ==> Blamed(site, root, maxUrls, maxSitemaps, Empty)
    ensures d.products != map[] ==> Acceptable(site, root, maxUrls, maxSitemaps)
    ensures All(order) == Within(site, root)
  {
    assert All(order) + Urls([]) == All(order);
    AllReadAtTheEnd(site, root, order);
    PathsOfOrder(site, order);
    assert root in All(order);
    assert |d.products| == |d.products.Keys|;
    assert |All(order)| > 0;
  }

  ghost predicate Going(site: Site, root: Url, order: seq<Url>, queue: Queue, result: Discovery, maxUrls: int) {
    exists urls :: urls == All(order) + Urls(queue) && Needed(site, root, urls)
      && Underway(site, root, order, queue) && Reports(site, order, result) && |result.products| <= Max(maxUrls, 0)
  }

  lemma {:induction false} GoingIs(
    site: Site, root: Url, order: seq<Url>, queue: Queue, result: Discovery, maxUrls: int)
    requires Underway(site, root, order, queue) && Needed(site, root, All(order) + Urls(queue))
    requires Reports(site, order, result) && |result.products| <= Max(maxUrls, 0)
    ensures Going(site, root, order, queue, result, maxUrls)
  {
  }

  lemma {:induction false} GoingStarts(site: Site, root: Url, maxUrls: int)
    ensures Going(site, root, [], [(root, 0)], Discovery(map[], 0, 0, 0), maxUrls)
  {
    var queue: Queue := [(root, 0)];
    assert Urls(queue) == {root};
    assert PathsIn([]) == {};
    assert Needed(site, root, All([]) + Urls(queue));
  }

  lemma {:induction false} GoingSkips(
    site: Site, root: Url, order: seq<Url>, queue: Queue, result: Discovery, maxUrls: int)
    requires Going(site, root, order, queue, result, maxUrls) && queue != [] && queue[0].0 in order
    ensures Going(site, root, order, queue[1..], result, maxUrls)
  {
    SkipSeen(site, root, order, queue);
    NeededHead(site, root, order, queue);
  }

  lemma {:induction false} Overfilled(
    site: Site, root: Url, order: seq<Url>, queue: Queue, maxUrls: int, maxSitemaps: int)
    requires Needed(site, root, All(order) + Urls(queue)) && queue != [] && queue[0].0 !in order
    requires |All(order)| + 1 > maxSitemaps
    ensures Blamed(site, root, maxUrls, maxSitemaps, TooManySitemaps)
  {
    NeededHead(site, root, order, queue);
    AllNext(order, queue[0].0);
    TooMany(site, root, order, queue[0].0, maxSitemaps);
  }

  lemma {:induction false} GoingOverfills(
    site: Site, root: Url, order: seq<Url>, queue: Queue, result: Discovery, maxUrls: int, maxSitemaps: int)
    requires Going(site, root, order, queue, result, maxUrls) && queue != [] && queue[0].0 !in order
    requires |All(order)| + 1 > maxSitemaps
    ensures Blamed(site, root, maxUrls, maxSitemaps, TooManySitemaps)
  {
    Overfilled(site, root, order, queue, maxUrls, maxSitemaps);
  }

  lemma {:induction false} GoingDistance(
    site: Site, root: Url, order: seq<Url>, queue: Queue, result: Discovery, maxUrls: int)
    requires Going(site, root, order, queue, result, maxUrls) && queue != [] && queue[0].0 !in order
    ensures queue[0].1 >= MAX_SITEMAP_DEPTH ==> queue[0].0 != root && queue[0].0 !in Links(site, root)
    ensures Tallied(result.products, result.duplicates, VisitsOf(site, order)) && |result.products| <= Max(maxUrls, 0)
  {
    assert queue[0] in queue;
    DepthIsDistance(site, root, order, queue);
  }

  lemma {:induction false} GoingFails(
    site: Site, root: Url, order: seq<Url>, queue: Queue, result: Discovery, maxUrls: int, maxSitemaps: int,
    error: Error)
    requires Going(site, root, order, queue, result, maxUrls) && queue != []
    requires BadAt(site, root, queue[0].0, error)
          || (error.LimitExceeded? && |PathsIn(VisitsOf(site, order) + VisitsAt(site, queue[0].0))| > maxUrls)
    ensures Blamed(site, root, maxUrls, maxSitemaps, error)
  {
    NeededHead(site, root, order, queue);
    BlameFor(site, root, order, queue[0].0, maxUrls, maxSitemaps, error);
  }

  lemma {:induction false} ReportsNext(site: Site, order: seq<Url>, url: Url, result: Discovery, next: Discovery)
    requires Reports(site, order, result)
    requires next.fetched == result.fetched + 1 && next.ignored == result.ignored + IgnoredAt(site, url)
    requires Tallied(next.products, next.duplicates, VisitsOf(site, order) + VisitsAt(site, url))
    ensures Reports(site, order + [url], next)
  {
    OrderNext(site, order, url);
  }

  lemma {:induction false} GoingOn(
    site: Site, root: Url, order: seq<Url>, queue: Queue, result: Discovery, next: Discovery, maxUrls: int)
    requires Going(site, root, order, queue, result, maxUrls) && queue != [] && queue[0].0 !in order
    requires var answer := site.fetch(queue[0].0); answer.Document? && AllAllowed(site, answer.sitemap)
    requires InReach(site, queue[0].0, queue[0].1)
    requires Reports(site, order + [queue[0].0], next) && |next.products| <= Max(maxUrls, 0)
    ensures var queue' := queue[1..] + AtDepth(LinksAt(site, queue[0].0), queue[0].1 + 1);
            Going(site, root, order + [queue[0].0], queue', next, maxUrls)
  {
    Advance(site, root, order, queue);
    var queue' := queue[1..] + AtDepth(LinksAt(site, queue[0].0), queue[0].1 + 1);
    GoingIs(site, root, order + [queue[0].0], queue', next, maxUrls);
  }

  lemma {:induction false} GoingReads(
    site: Site, root: Url, order: seq<Url>, queue: Queue, result: Discovery, maxUrls: int, maxSitemaps: int,
    failure: Option<Error>, queue': Queue, result': Discovery)
    requires Going(site, root, order, queue, result, maxUrls) && queue != [] && queue[0].0 !in order
    requires ReadAs(site, root, queue[0].0, queue[0].1, queue[1..], result, maxUrls, VisitsOf(site, order), failure,
                    queue', result')
    ensures failure.Some? ==> Blamed(site, root, maxUrls, maxSitemaps, failure.value)
    ensures failure.None? ==> Going(site, root, order + [queue[0].0], queue', result', maxUrls)
  {
    if failure.Some? {
      GoingFails(site, root, order, queue, result, maxUrls, maxSitemaps, failure.value);
    } else {
      ReportsNext(site, order, queue[0].0, result, result');
      GoingOn(site, root, order, queue, result, result', maxUrls);
    }
  }

  /** Read the sitemap at the head of the queue. */
  method ReadNext(
    site: Site, root: Url, queue: Queue, result: Discovery, maxUrls: int, maxSitemaps: int, ghost order: seq<Url>)
    returns (failure: Option<Error>, queue': Queue, result': Discovery)
    requires Going(site, root, order, queue, result, maxUrls) && queue != [] && queue[0].0 !in order
    ensures failure.Some? ==> Blamed(site, root, maxUrls, maxSitemaps, failure.value)
    ensures failure.None? ==> Going(site, root, order + [queue[0].0], queue', result', maxUrls)
  {
    GoingDistance(site, root, order, queue, result, maxUrls);
    failure, queue', result' :=
      ReadSitemap(site, root, queue[0].0, queue[0].1, queue[1..], result, maxUrls, VisitsOf(site, order));
    GoingReads(site, root, order, queue, result, maxUrls, maxSitemaps, failure, queue', result');
  }

  /** Read sitemaps breadth first until none is left or something is wrong. */
  method Traverse(site: Site, root: Url, maxUrls: int, maxSitemaps: int)
    returns (failure: Option<Error>, result: Discovery, ghost order: seq<Url>)
    ensures |All(order)| == |order| <= Max(maxSitemaps, 0)
    ensures failure.Some? ==> Blamed(site, root, maxUrls, maxSitemaps, failure.value)
    ensures failure.None? ==> Going(site, root, order, [], result, maxUrls)
  {
    var seen: set<Url>, queue: Queue := {}, [(root, 0)];
    failure, result, order := None, Discovery(map[], 0, 0, 0), [];
    GoingStarts(site, root, maxUrls);
    while queue != [] && failure.None?
      invariant failure.None? ==> Going(site, root, order, queue, result, maxUrls)
      invariant failure.Some? ==> Blamed(site, root, maxUrls, maxSitemaps, failure.value)
      invariant |All(order)| == |order| <= Max(maxSitemaps, 0)
      invariant failure.None? ==> seen == All(order)
      decreases failure.None?, Max(maxSitemaps, 0) - |order|, |queue|
    {
      AllNext(order, queue[0].0);
      if queue[0].0 in seen {
        GoingSkips(site, root, order, queue, result, maxUrls);
        queue := queue[1..];
      } else {
        seen := seen + {queue[0].0};
        if |seen| > maxSitemaps {
          GoingOverfills(site, root, order, queue, result, maxUrls, maxSitemaps);
          return Some(TooManySitemaps), result, order;
        }
        ghost var url := queue[0].0;
        failure, queue, result := ReadNext(site, root, queue, result, maxUrls, maxSitemaps, order);
        order := order + [url];
      }
    }
  }

  /** A discovery is returned exactly for the acceptable sources, an error always names a flaw, and no sitemap is read
      twice. */
  method DiscoverProducts(site: Site, root: Url, maxUrls: int, maxSitemaps: int)
    returns (outcome: Outcome, ghost order: seq<Url>)
    ensures |All(order)| == |order| <= Max(maxSitemaps, 0)
    ensures outcome.Found? <==> Acceptable(site, root, maxUrls, maxSitemaps)
    ensures outcome.Found? ==> All(order) == Within(site, root) && Reports(site, order, outcome.discovery)
    ensures outcome.Failed? ==> Blamed(site, root, maxUrls, maxSitemaps, outcome.error)
  {
    var failure, result;
    failure, result, order := Traverse(site, root, maxUrls, maxSitemaps);
    if failure.Some? {
      outcome := Failed(failure.value);
    } else {
      Verdict(site, root, order, result, maxUrls, maxSitemaps);
      outcome := if result.products == map[] then Failed(Empty) else Found(result);
    }
    if outcome.Failed? {
      BlamedIsUnacceptable(site, root, maxUrls, maxSitemaps, outcome.error);
    }
  }

  // ---- what a discovery is worth -----------------------------------------------------------------

  /** Following links from the root never leads further than two links when the sitemaps there are sound: what lies
      within is closed under links. */
  lemma {:induction false} WithinIsClosed(site: Site, root: Url, u: Url)
    requires AllSound(site, root) && u in Within(site, root)
    ensures Links(site, u) <= Within(site, root)
  {
    assert Sound(site, root, u);
    if u != root && u !in Links(site, root) {
      assert LinksAt(site, u) == [];
    }
  }

  /** A server that makes up an index for every location it is asked for. */
  const Endless := Site(
    (u: Url) => Document(Index([Entry(Url(u.text + "x"), None)])), (u: Url) => true, (u: Url) => true,
    (u: Url) => true, (u: Url) => None)

  lemma {:induction false} EndlessLinks(u: Url)
    ensures Links(Endless, u) == {Url(u.text + "x")} && VisitsAt(Endless, u) == []
    ensures AllAllowed(Endless, Endless.fetch(u).sitemap)
  {
    var entries := [Entry(Url(u.text + "x"), None)];
    assert Followed(Endless, entries, 1) == Followed(Endless, entries, 0) + [entries[0].loc];
    assert AllowedTo(Endless, Endless.fetch(u).sitemap, 0);
  }

  lemma {:induction false} ThreeLocations(root: Url)
    ensures var one, two := Url(root.text + "x"), Url(root.text + "x" + "x");
            root != one && one != two && root != two && |{root, one, two}| == 3
  {
    assert |root.text| < |root.text + "x"| < |root.text + "x" + "x"|;
  }

  lemma {:induction false} EndlessWithin(root: Url)
    ensures var one, two := Url(root.text + "x"), Url(root.text + "x" + "x");
            Within(Endless, root) == {root, one, two} && |Within(Endless, root)| == 3
  {
    ThreeLocations(root);
    EndlessLinks(root);
    EndlessLinks(Url(root.text + "x"));
  }

  lemma {:induction false} EndlessNests(root: Url)
    ensures TooDeep(Endless, root, Url(root.text + "x" + "x"))
  {
    ThreeLocations(root);
    EndlessLinks(root);
  }

  lemma {:induction false} EndlessIsNotBad(root: Url, u: Url, error: Error)
    ensures BadAt(Endless, root, u, error) ==> error.SitemapInvalid?
  {
    EndlessLinks(u);
  }

  lemma {:induction false} EndlessHasNoPaths(urls: set<Url>)
    ensures PathsOf(Endless, urls) == {}
  {
    forall u | u in urls
      ensures VisitsAt(Endless, u) == []
    {
      EndlessLinks(u);
    }
  }

  /** It is refused for the nesting of its indexes, or for their number, and for nothing else. */
  lemma {:induction false} EndlessIsTooDeep(root: Url, maxUrls: nat, maxSitemaps: int, error: Error)
    ensures Blamed(Endless, root, maxUrls, maxSitemaps, error)
       <==> error.SitemapInvalid? || (error.TooManySitemaps? && maxSitemaps < 3)
  {
    EndlessWithin(root);
    EndlessNests(root);
    EndlessHasNoPaths(Within(Endless, root));
    var two := Url(root.text + "x" + "x");
    assert two in Within(Endless, root) && !Sound(Endless, root, two);
    assert error.SitemapInvalid? ==> BadAt(Endless, root, two, error);
    forall u
      ensures BadAt(Endless, root, u, error) ==> error.SitemapInvalid?
    {
      EndlessIsNotBad(root, u, error);
    }
  }

  function EntriesAt(site: Site, url: Url): nat {
    match site.fetch(url)
    case Document(sitemap) => |sitemap.entries|
    case _ => 0
  }

  function EntriesOf(site: Site, order: seq<Url>): nat {
    if order == [] then 0 else EntriesOf(site, order[..|order| - 1]) + EntriesAt(site, order[|order| - 1])
  }

  function QueuedOf(site: Site, order: seq<Url>): nat {
    if order == [] then 0 else QueuedOf(site, order[..|order| - 1]) + |LinksAt(site, order[|order| - 1])|
  }

  lemma {:induction false} EntriesSplit(site: Site, order: seq<Url>)
    ensures EntriesOf(site, order) == |VisitsOf(site, order)| + IgnoredOf(site, order) + QueuedOf(site, order)
  {
    if order != [] {
      EntriesSplit(site, order[..|order| - 1]);
    }
  }

  /** Every entry read is a new product, a duplicate, ignored, or queued as a sitemap. */
  lemma {:induction false} EveryEntryIsCounted(site: Site, order: seq<Url>, d: Discovery)
    requires Reports(site, order, d)
    ensures |d.products| + d.duplicates + d.ignored + QueuedOf(site, order) == EntriesOf(site, order)
  {
    EntriesSplit(site, order);
  }

  /** A product's date is the latest valid one any of its entries gave. */
  lemma {:induction false} DatesAreLatest(site: Site, order: seq<Url>, d: Discovery, path: Path)
    requires Reports(site, order, d) && path in d.products
    ensures d.products[path].Some? ==> Visit(path, d.products[path]) in VisitsOf(site, order)
    ensures forall v | v in VisitsOf(site, order) && v.path == path && v.when.Some? ::
              d.products[path].Some? && v.when.value <= d.products[path].value
  {
    NewestIsLatest(VisitsOf(site, order), path);
  }
}

/** What the traversal of a source's sitemaps finds, in terms of the entries that the sitemaps list. */
module SitemapOutcomes {
  import opened Prelude
  import opened SitemapDiscovery

  /** The location holds an index with an entry for l that names a product sitemap. */
  predicate Lists(site: Site, url: Url, l: Url) {
    match site.fetch(url)
    case Document(Index(entries)) => site.aboutProducts(l) && exists e :: e in entries && e.loc == l
    case _ => false
  }

  /** The location holds a URL set with an entry for the product page, of this date. */
  predicate Shows(site: Site, url: Url, path: Path, when: Option<Time>) {
    match site.fetch(url)
    case Document(UrlSet(entries)) => exists e :: e in entries && site.path(e.loc) == Some(path) && e.lastmod == when
    case _ => false
  }

  /** The root, what it lists, and what the indexes it lists list in turn. */
  ghost predicate Reached(site: Site, root: Url, url: Url) {
    url == root || Lists(site, root, url) || exists m :: Lists(site, root, m) && Lists(site, m, url)
  }

  /** The sitemap is readable, the source policy allows all it lists, and an index that lists anything is the root or
      listed by the root. */
  predicate InOrder(site: Site, root: Url, url: Url) {
    match site.fetch(url)
    case Document(Index(entries)) =>
      && (forall e | e in entries :: site.mayFollow(e.loc))
      && (entries != [] ==> url == root || Lists(site, root, url))
    case Document(UrlSet(entries)) => forall e | e in entries :: site.mayVisit(e.loc)
    case _ => false
  }

  lemma {:induction false} FollowedAreListed(site: Site, entries: seq<Entry>, n: nat, l: Url)
    requires n <= |entries|
    ensures l in Followed(site, entries, n) <==> site.aboutProducts(l) && exists e :: e in entries[..n] && e.loc == l
  {
    if n > 0 {
      FollowedAreListed(site, entries, n - 1, l);
      assert entries[..n] == entries[..n - 1] + [entries[n - 1]];
    }
  }

  lemma LinksAreListed(site: Site, url: Url, l: Url)
    ensures l in Links(site, url) <==> Lists(site, url, l)
  {
    match site.fetch(url)
    case Document(Index(entries)) =>
      FollowedAreListed(site, entries, |entries|, l);
      assert entries[..|entries|] == entries;
    case _ =>
  }

  /** The sitemaps to be read are those reached from the root over at most two indexes. */
  lemma WithinIsReached(site: Site, root: Url, url: Url)
    ensures url in Within(site, root) <==> Reached(site, root, url)
  {
    forall u, l
      ensures l in Links(site, u) <==> Lists(site, u, l)
    {
      LinksAreListed(site, u, l);
    }
  }

  lemma {:induction false} VisitsAreEntries(site: Site, entries: seq<Entry>, n: nat, v: Visit)
    requires n <= |entries|
    ensures v in Visits(site, entries, n) <==>
            exists e :: e in entries[..n] && site.path(e.loc) == Some(v.path) && e.lastmod == v.when
  {
    if n > 0 {
      VisitsAreEntries(site, entries, n - 1, v);
      assert entries[..n] == entries[..n - 1] + [entries[n - 1]];
      assert v in VisitBy(site, entries[n - 1])
        <==> site.path(entries[n - 1].loc) == Some(v.path) && entries[n - 1].lastmod == v.when;
    }
  }

  lemma VisitsAreShown(site: Site, url: Url, v: Visit)
    ensures v in VisitsAt(site, url) <==> Shows(site, url, v.path, v.when)
  {
    match site.fetch(url)
    case Document(UrlSet(entries)) =>
      VisitsAreEntries(site, entries, |entries|, v);
      assert entries[..|entries|] == entries;
    case _ =>
  }

  lemma {:induction false} AllowedAreAll(site: Site, sitemap: Sitemap, n: nat)
    requires n <= |sitemap.entries|
    ensures AllowedTo(site, sitemap, n) <==>
            forall e | e in sitemap.entries[..n] ::
              if sitemap.Index? then site.mayFollow(e.loc) else site.mayVisit(e.loc)
  {
    if n > 0 {
      AllowedAreAll(site, sitemap, n - 1);
      assert sitemap.entries[..n] == sitemap.entries[..n - 1] + [sitemap.entries[n - 1]];
    }
  }

  lemma SoundIsInOrder(site: Site, root: Url, url: Url)
    ensures Sound(site, root, url) <==> InOrder(site, root, url)
  {
    LinksAreListed(site, root, url);
    if site.fetch(url).Document? {
      var sitemap := site.fetch(url).sitemap;
      AllowedAreAll(site, sitemap, |sitemap.entries|);
      assert sitemap.entries[..|sitemap.entries|] == sitemap.entries;
    }
  }

  /** Some sitemap reached shows the product page. */
  ghost predicate Shown(site: Site, root: Url, path: Path) {
    exists u, when :: Reached(site, root, u) && Shows(site, u, path, when)
  }

  lemma PathsAreShown(site: Site, root: Url, path: Path)
    ensures path in PathsOf(site, Within(site, root)) <==> Shown(site, root, path)
  {
    forall u
      ensures u in Within(site, root) <==> Reached(site, root, u)
    {
      WithinIsReached(site, root, u);
    }
    forall u, v
      ensures v in VisitsAt(site, u) <==> Shows(site, u, v.path, v.when)
    {
      VisitsAreShown(site, u, v);
    }
    if u, when :| Reached(site, root, u) && Shows(site, u, path, when) {
      assert Visit(path, when) in VisitsAt(site, u);
    }
  }

  /** A source is accepted exactly when every sitemap reached is in order, there are not too many of them, and they show
      some product pages, but not too many. */
  lemma AcceptedSource(
    site: Site, root: Url, maxUrls: int, maxSitemaps: int, sitemaps: set<Url>, pages: set<Path>)
    requires forall u :: u in sitemaps <==> Reached(site, root, u)
    requires forall p :: p in pages <==> Shown(site, root, p)
    ensures Acceptable(site, root, maxUrls, maxSitemaps) <==>
      && (forall u | u in sitemaps :: InOrder(site, root, u))
      && |sitemaps| <= maxSitemaps && 1 <= |pages| <= maxUrls
  {
    forall u
      ensures u in Within(site, root) <==> u in sitemaps
      ensures Sound(site, root, u) <==> InOrder(site, root, u)
    {
      WithinIsReached(site, root, u);
      SoundIsInOrder(site, root, u);
    }
    forall p
      ensures p in PathsOf(site, Within(site, root)) <==> p in pages
    {
      PathsAreShown(site, root, p);
    }
    assert Within(site, root) == sitemaps;
    assert PathsOf(site, Within(site, root)) == pages;
  }

  /** What a blamed sitemap has done: each error is about one of the sitemaps reached, or about their number, or about
      the number of their pages. */
  ghost predicate Guilty(site: Site, root: Url, error: Error, url: Url) {
    match error
    case PolicyViolation =>
      (match site.fetch(url)
       case OffPolicy => true
       case Document(Index(entries)) => exists e :: e in entries && !site.mayFollow(e.loc)
       case Document(UrlSet(entries)) => exists e :: e in entries && !site.mayVisit(e.loc)
       case _ => false)
    case SitemapInvalid =>
      (match site.fetch(url)
       case Malformed => true
       case Document(Index(entries)) => entries != [] && url != root && !Lists(site, root, url)
       case _ => false)
    case SitemapUnavailable => site.fetch(url) == Unavailable
    case _ => false
  }

  lemma BadIsGuilty(site: Site, root: Url, url: Url, error: Error)
    ensures BadAt(site, root, url, error) <==> Guilty(site, root, error, url)
  {
    LinksAreListed(site, root, url);
    if site.fetch(url).Document? {
      var sitemap := site.fetch(url).sitemap;
      AllowedAreAll(site, sitemap, |sitemap.entries|);
      assert sitemap.entries[..|sitemap.entries|] == sitemap.entries;
    }
  }

  /** An error names its own flaw. */
  lemma ErrorsAreTrue(
    site: Site, root: Url, maxUrls: int, maxSitemaps: int, error: Error, sitemaps: set<Url>, pages: set<Path>)
    requires forall u :: u in sitemaps <==> Reached(site, root, u)
    requires forall p :: p in pages <==> Shown(site, root, p)
    requires Blamed(site, root, maxUrls, maxSitemaps, error)
    ensures error == TooManySitemaps ==> |sitemaps| > maxSitemaps
    ensures error == LimitExceeded ==> |pages| > maxUrls
    ensures error == Empty ==> pages == {} && forall u | u in sitemaps :: InOrder(site, root, u)
    ensures error == PolicyViolation || error == SitemapInvalid || error == SitemapUnavailable ==>
      exists u :: u in sitemaps && Guilty(site, root, error, u)
  {
    forall u
      ensures u in Within(site, root) <==> u in sitemaps
      ensures Sound(site, root, u) <==> InOrder(site, root, u)
      ensures BadAt(site, root, u, error) <==> Guilty(site, root, error, u)
    {
      WithinIsReached(site, root, u);
      SoundIsInOrder(site, root, u);
      BadIsGuilty(site, root, u, error);
    }
    forall p
      ensures p in PathsOf(site, Within(site, root)) <==> p in pages
    {
      PathsAreShown(site, root, p);
    }
    assert Within(site, root) == sitemaps;
    assert PathsOf(site, Within(site, root)) == pages;
  }

  // ---- what is found -----------------------------------------------------------------------------

  lemma {:induction false} VisitsOfAre(site: Site, order: seq<Url>, v: Visit)
    ensures v in VisitsOf(site, order) <==> exists u :: u in order && Shows(site, u, v.path, v.when)
  {
    if order != [] {
      var init, last := order[..|order| - 1], order[|order| - 1];
      assert order == init + [last];
      VisitsOfAre(site, init, v);
      VisitsAreShown(site, last, v);
    }
  }

  lemma VisitsOfWithin(site: Site, root: Url, order: seq<Url>, v: Visit)
    requires All(order) == Within(site, root)
    ensures v in VisitsOf(site, order) <==> exists u :: Reached(site, root, u) && Shows(site, u, v.path, v.when)
  {
    VisitsOfAre(site, order, v);
    forall u
      ensures u in order <==> Reached(site, root, u)
    {
      WithinIsReached(site, root, u);
      assert u in order <==> u in All(order);
    }
  }

  lemma AllVisitsWithin(site: Site, root: Url, order: seq<Url>)
    requires All(order) == Within(site, root)
    ensures forall v ::
              v in VisitsOf(site, order) <==> exists u :: Reached(site, root, u) && Shows(site, u, v.path, v.when)
  {
    forall v
      ensures v in VisitsOf(site, order) <==> exists u :: Reached(site, root, u) && Shows(site, u, v.path, v.when)
    {
      VisitsOfWithin(site, root, order, v);
    }
  }

  /** A discovery holds exactly the product pages shown by the sitemaps reached. */
  lemma FoundIsShown(site: Site, root: Url, order: seq<Url>, d: Discovery, path: Path)
    requires All(order) == Within(site, root) && Reports(site, order, d)
    ensures path in d.products <==> Shown(site, root, path)
  {
    AllVisitsWithin(site, root, order);
    if u, when :| Reached(site, root, u) && Shows(site, u, path, when) {
      assert Visit(path, when) in VisitsOf(site, order);
    }
  }

  /** Each has the latest date any of them gives, or none when none gives one. */
  lemma FoundDates(site: Site, root: Url, order: seq<Url>, d: Discovery, path: Path)
    requires All(order) == Within(site, root) && Reports(site, order, d) && path in d.products
    ensures d.products[path].Some? ==> exists u :: Reached(site, root, u) && Shows(site, u, path, d.products[path])
    ensures forall u, t | Reached(site, root, u) && Shows(site, u, path, Some(t)) ::
              d.products[path].Some? && t <= d.products[path].value
  {
    AllVisitsWithin(site, root, order);
    NewestIsLatest(VisitsOf(site, order), path);
    forall u, t | Reached(site, root, u) && Shows(site, u, path, Some(t))
      ensures Visit(path, Some(t)) in VisitsOf(site, order)
    {
    }
  }

  /** The entries of an index that name no product sitemap, and those of a URL set that name no product page. */
  function Other(site: Site, url: Url): set<int> {
    match site.fetch(url)
    case Document(Index(entries)) => set i | 0 <= i < |entries| && !site.aboutProducts(entries[i].loc)
    case Document(UrlSet(entries)) => set i | 0 <= i < |entries| && site.path(entries[i].loc) == None
    case _ => {}
  }

  lemma {:induction false} OthersInIndex(site: Site, entries: seq<Entry>, n: nat)
    requires n <= |entries|
    ensures n - |Followed(site, entries, n)| == |set i | 0 <= i < n && !site.aboutProducts(entries[i].loc)|
  {
    if n > 0 {
      OthersInIndex(site, entries, n - 1);
      var before := set i | 0 <= i < n - 1 && !site.aboutProducts(entries[i].loc);
      var after := set i | 0 <= i < n && !site.aboutProducts(entries[i].loc);
      assert after == if site.aboutProducts(entries[n - 1].loc) then before else before + {n - 1};
    }
  }

  lemma {:induction false} OthersInUrlSet(site: Site, entries: seq<Entry>, n: nat)
    requires n <= |entries|
    ensures n - |Visits(site, entries, n)| == |set i | 0 <= i < n && site.path(entries[i].loc) == None|
  {
    if n > 0 {
      OthersInUrlSet(site, entries, n - 1);
      var before := set i | 0 <= i < n - 1 && site.path(entries[i].loc) == None;
      var after := set i | 0 <= i < n && site.path(entries[i].loc) == None;
      assert after == if site.path(entries[n - 1].loc).Some? then before else before + {n - 1};
    }
  }

  /** What is counted as ignored is one for each entry that is about no product. */
  lemma IgnoredAreOther(site: Site, url: Url)
    ensures IgnoredAt(site, url) == |Other(site, url)|
  {
    match site.fetch(url)
    case Document(Index(entries)) => OthersInIndex(site, entries, |entries|);
    case Document(UrlSet(entries)) => OthersInUrlSet(site, entries, |entries|);
    case _ =>
  }
}

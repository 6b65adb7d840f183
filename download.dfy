/**
 * The downloader of src/download.rs, without its threads, channels and
 * network: how requests are cut into batches of numbered feeds, what one
 * worker reports for each feed of its batch, and how posts and their links
 * are extracted from a parsed Atom or RSS document. The Atom and RSS parsers,
 * `Url::parse`, the link finder, RFC 2822 date parsing, the clock and `{:?}`
 * formatting are foreign code: they are the parameters gathered in `Env`.
 */
module Download {
  import opened Wrappers
  import Strings
  import opened Lib
  import opened Config

  // ---------------------------------------------------------------------------
  // Requests and responses.

  /** For each section, the URLs of its feeds in order (`UrlMap`). */
  datatype UrlMap = UrlMap(urls: seq<seq<Url>>)

  /** `UrlMap::from`: the feed config with every feed replaced by its URL. */
  function FromConfig(cfg: FeedConfig): (m: UrlMap)
    ensures |m.urls| == |cfg.sections|
    ensures forall i :: 0 <= i < |cfg.sections| ==> |m.urls[i]| == |cfg.sections[i].feeds|
    ensures forall i, j :: 0 <= i < |cfg.sections| && 0 <= j < |cfg.sections[i].feeds| ==>
      m.urls[i][j] == cfg.sections[i].feeds[j].url
  {
    UrlMap(seq(|cfg.sections|, i requires 0 <= i < |cfg.sections| =>
      seq(|cfg.sections[i].feeds|, j requires 0 <= j < |cfg.sections[i].feeds| => cfg.sections[i].feeds[j].url)))
  }

  datatype DownloadRequest = FeedRequest(feed: FeedId, url: Url) | All(urlMap: UrlMap)

  datatype DownloadResponse =
    | Started(feed: FeedId)
    | Failed(feed: FeedId)
    | Finished(feed: FeedId, posts: seq<Post>)

  /** A feed to download, with the address the app knows it by. */
  datatype Job = Job(feed: FeedId, url: Url)

  /**
   * The batches the downloader thread hands to its workers for one request:
   * a single feed is a batch of its own; "all" is one batch per section in
   * which the j-th URL of section i is numbered `FeedId(i, j)`.
   */
  method Dispatch(req: DownloadRequest) returns (batches: seq<seq<Job>>)
    ensures req.FeedRequest? ==> batches == [[Job(req.feed, req.url)]]
    ensures req.All? ==> |batches| == |req.urlMap.urls|
    ensures req.All? ==> forall i :: 0 <= i < |batches| ==> |batches[i]| == |req.urlMap.urls[i]|
    ensures req.All? ==> forall i, j :: 0 <= i < |batches| && 0 <= j < |batches[i]| ==>
      batches[i][j] == Job(FeedId(i, j), req.urlMap.urls[i][j])
  {
    match req
    case FeedRequest(feed, url) =>
      batches := [[Job(feed, url)]];
    case All(urlMap) =>
      batches := [];
      var sectionIdx := 0;
      while sectionIdx < |urlMap.urls|
        invariant 0 <= sectionIdx <= |urlMap.urls|
        invariant |batches| == sectionIdx
        invariant forall i :: 0 <= i < sectionIdx ==> |batches[i]| == |urlMap.urls[i]|
        invariant forall i, j :: 0 <= i < sectionIdx && 0 <= j < |batches[i]| ==>
          batches[i][j] == Job(FeedId(i, j), urlMap.urls[i][j])
      {
        var section := urlMap.urls[sectionIdx];
        var feeds := seq(|section|, feedIdx requires 0 <= feedIdx < |section| =>
          Job(FeedId(sectionIdx, feedIdx), section[feedIdx]));
        batches := batches + [feeds];
        sectionIdx := sectionIdx + 1;
      }
  }

  // ---------------------------------------------------------------------------
  // Foreign code and parsed documents.

  /** An entry of a parsed Atom document; `content` is the text of its content, if any. */
  datatype AtomEntry = AtomEntry(
    id: string, title: string, updated: Timestamp,
    links: seq<string>, content: Option<string>, summary: Option<string>)

  datatype AtomFeed = AtomFeed(entries: seq<AtomEntry>)

  datatype RssItem = RssItem(
    title: Option<string>, link: Option<string>, description: Option<string>,
    content: Option<string>, pubDate: Option<string>, guid: Option<string>)

  datatype RssChannel = RssChannel(items: seq<RssItem>)

  /**
   * The foreign functions the downloader calls: `Url::parse` (giving the
   * parsed URL's text), the link finder, the Atom and RSS parsers, RFC 2822
   * date parsing, and the `{:?} {:?}` rendering of a date and a name.
   */
  datatype Env = Env(
    parseUrl: string -> Option<Url>,
    findLinks: string -> seq<string>,
    parseAtom: string -> Option<AtomFeed>,
    parseRss: string -> Option<RssChannel>,
    parseRfc2822: string -> Option<Timestamp>,
    debugKey: (Timestamp, string) -> string)

  // ---------------------------------------------------------------------------
  // Gathering the URLs of a post.

  predicate NoDuplicates<T(==)>(s: seq<T>) {
    forall i, j :: 0 <= i < j < |s| ==> s[i] != s[j]
  }

  /** `push_url`: appends the parsed URL unless it does not parse or is already there. */
  function PushUrl(env: Env, acc: seq<Url>, s: string): (r: seq<Url>)
    ensures |acc| <= |r| <= |acc| + 1
    ensures forall i :: 0 <= i < |acc| ==> r[i] == acc[i]
    ensures |r| == |acc| + 1 <==> env.parseUrl(s).Some? && env.parseUrl(s).value !in acc
    ensures |r| == |acc| + 1 ==> r[|acc|] == env.parseUrl(s).value
    ensures NoDuplicates(acc) ==> NoDuplicates(r)
  {
    match env.parseUrl(s)
    case Some(url) => if url !in acc then acc + [url] else acc
    case None => acc
  }

  /** `push_url` on each of `links` in turn. */
  function PushAll(env: Env, acc: seq<Url>, links: seq<string>): seq<Url>
    decreases |links|
  {
    if links == [] then acc
    else PushUrl(env, PushAll(env, acc, links[..|links| - 1]), links[|links| - 1])
  }

  /** `extract_urls_from_text`: pushes every link the link finder reports in `s`. */
  method ExtractUrlsFromText(env: Env, acc: seq<Url>, s: string) returns (r: seq<Url>)
    ensures r == PushAll(env, acc, env.findLinks(s))
  {
    var links := env.findLinks(s);
    r := acc;
    var i := 0;
    while i < |links|
      invariant 0 <= i <= |links|
      invariant r == PushAll(env, acc, links[..i])
    {
      assert links[..i + 1][..i] == links[..i];
      r := PushUrl(env, r, links[i]);
      i := i + 1;
    }
    assert links[..i] == links;
  }

  /** Pushing two lists of links is pushing their concatenation. */
  lemma {:induction false} PushAllConcat(env: Env, acc: seq<Url>, xs: seq<string>, ys: seq<string>)
    ensures PushAll(env, PushAll(env, acc, xs), ys) == PushAll(env, acc, xs + ys)
    decreases |ys|
  {
    if ys == [] {
      assert xs + ys == xs;
    } else {
      PushAllConcat(env, acc, xs, ys[..|ys| - 1]);
      assert (xs + ys)[..|xs + ys| - 1] == xs + ys[..|ys| - 1];
    }
  }

  /**
   * What pushing a list of links does to `acc`: `acc` stays an unchanged
   * prefix, no duplicate appears, and exactly the parsed links end up in
   * the list (those already there are not added again).
   */
  lemma {:induction false} PushAllSpec(env: Env, acc: seq<Url>, links: seq<string>)
    ensures |acc| <= |PushAll(env, acc, links)|
    ensures forall i :: 0 <= i < |acc| ==> PushAll(env, acc, links)[i] == acc[i]
    ensures NoDuplicates(acc) ==> NoDuplicates(PushAll(env, acc, links))
    ensures forall k :: 0 <= k < |links| && env.parseUrl(links[k]).Some? ==>
      env.parseUrl(links[k]).value in PushAll(env, acc, links)
    ensures forall u :: u in PushAll(env, acc, links) ==>
      u in acc || exists k :: 0 <= k < |links| && env.parseUrl(links[k]) == Some(u)
    decreases |links|
  {
    if links != [] {
      var init := links[..|links| - 1];
      var last := links[|links| - 1];
      PushAllSpec(env, acc, init);
      var before := PushAll(env, acc, init);
      var after := PushAll(env, acc, links);
      assert after == PushUrl(env, before, last);
      assert forall k :: 0 <= k < |init| ==> init[k] == links[k];
      forall u | u in after
        ensures u in acc || exists k :: 0 <= k < |links| && env.parseUrl(links[k]) == Some(u)
      {
        if u !in before {
          assert env.parseUrl(links[|links| - 1]) == Some(u);
        }
      }
    }
  }

  // ---------------------------------------------------------------------------
  // Posts.

  /** `truncate_chars`: the first `n` characters of `s`, or all of `s` when it is shorter. */
  function TruncateChars(s: string, n: nat): (r: string)
    ensures |r| == if |s| < n then |s| else n
    ensures forall i :: 0 <= i < |r| ==> r[i] == s[i]
  {
    if |s| <= n then s else s[..n]
  }

  /** The URLs of an Atom entry: its links, then the links in its content, then in its summary. */
  function AtomUrls(env: Env, e: AtomEntry): seq<Url> {
    var fromLinks := PushAll(env, [], e.links);
    var fromContent := if e.content.Some? then PushAll(env, fromLinks, env.findLinks(e.content.value)) else fromLinks;
    if e.summary.Some? then PushAll(env, fromContent, env.findLinks(e.summary.value)) else fromContent
  }

  /** The post `extract_from_atom` makes of one entry. */
  function AtomPost(env: Env, e: AtomEntry): Post {
    Post(e.id, e.title, AtomUrls(env, e), e.updated, false)
  }

  /** The text fields of an optional value, as a list of zero or one strings. */
  function Texts(o: Option<string>): seq<string> {
    if o.Some? then [o.value] else []
  }

  /** The candidate links of an Atom entry, in the order they are looked at. */
  function AtomCandidates(env: Env, e: AtomEntry): seq<string> {
    e.links
    + (if e.content.Some? then env.findLinks(e.content.value) else [])
    + (if e.summary.Some? then env.findLinks(e.summary.value) else [])
  }

  /**
   * The URLs of an Atom post are its parsed candidate links with duplicates
   * dropped, in the order the candidates come: links, content, summary.
   */
  lemma AtomUrlsInOrder(env: Env, e: AtomEntry)
    ensures AtomUrls(env, e) == PushAll(env, [], AtomCandidates(env, e))
    ensures NoDuplicates(AtomUrls(env, e))
  {
    var c := if e.content.Some? then env.findLinks(e.content.value) else [];
    var s := if e.summary.Some? then env.findLinks(e.summary.value) else [];
    PushAllConcat(env, [], e.links, c);
    PushAllConcat(env, [], e.links + c, s);
    assert PushAll(env, PushAll(env, [], e.links), []) == PushAll(env, [], e.links);
    assert PushAll(env, PushAll(env, [], e.links + c), []) == PushAll(env, [], e.links + c);
    PushAllSpec(env, [], AtomCandidates(env, e));
  }

  /** The posts `extract_from_atom` makes of a document, one per entry in order. */
  function AtomPosts(env: Env, feed: AtomFeed): (posts: seq<Post>)
    ensures |posts| == |feed.entries|
  {
    seq(|feed.entries|, k requires 0 <= k < |feed.entries| => AtomPost(env, feed.entries[k]))
  }

  /** `extract_from_atom`. */
  method ExtractFromAtom(env: Env, feed: AtomFeed) returns (posts: seq<Post>)
    ensures posts == AtomPosts(env, feed)
  {
    posts := [];
    var k := 0;
    while k < |feed.entries|
      invariant 0 <= k <= |feed.entries|
      invariant |posts| == k
      invariant forall i :: 0 <= i < k ==> posts[i] == AtomPost(env, feed.entries[i])
    {
      var entry := feed.entries[k];
      var urls: seq<Url> := [];
      var l := 0;
      while l < |entry.links|
        invariant 0 <= l <= |entry.links|
        invariant urls == PushAll(env, [], entry.links[..l])
      {
        assert entry.links[..l + 1][..l] == entry.links[..l];
        urls := PushUrl(env, urls, entry.links[l]);
        l := l + 1;
      }
      assert entry.links[..l] == entry.links;
      if entry.content.Some? {
        urls := ExtractUrlsFromText(env, urls, entry.content.value);
      }
      if entry.summary.Some? {
        urls := ExtractUrlsFromText(env, urls, entry.summary.value);
      }
      posts := posts + [Post(entry.id, entry.title, urls, entry.updated, false)];
      k := k + 1;
    }
  }

  /** The name of an RSS post: its title, else its description cut to 20 characters, else "Untitled". */
  function RssName(item: RssItem): (name: string)
    ensures item.title.Some? ==> name == item.title.value
    ensures item.title.None? && item.description.Some? ==>
      var d := item.description.value;
      |name| == (if |d| < 20 then |d| else 20) && forall i :: 0 <= i < |name| ==> name[i] == d[i]
    ensures item.title.None? && item.description.None? ==> name == "Untitled"
  {
    if item.title.Some? then item.title.value
    else if item.description.Some? then TruncateChars(item.description.value, 20)
    else "Untitled"
  }

  /** The date of an RSS post: its RFC 2822 publication date when that parses, else `now`. */
  function RssPublished(env: Env, now: Timestamp, item: RssItem): (t: Timestamp)
    ensures item.pubDate.Some? && env.parseRfc2822(item.pubDate.value).Some? ==> t == env.parseRfc2822(item.pubDate.value).value
    ensures item.pubDate.None? || env.parseRfc2822(item.pubDate.value).None? ==> t == now
  {
    if item.pubDate.Some? && env.parseRfc2822(item.pubDate.value).Some? then
      env.parseRfc2822(item.pubDate.value).value
    else now
  }

  /** The id of an RSS post: its guid, else the hash of its date and name. */
  function RssId(env: Env, now: Timestamp, item: RssItem): (id: string)
    ensures item.guid.Some? ==> id == item.guid.value
    ensures item.guid.None? ==> IsCanonicalDecimal(id) && 1 <= |id| <= 20
    ensures item.guid.None? ==>
      DecimalValue(id) == Fnv1a(Strings.Utf8(env.debugKey(RssPublished(env, now, item), RssName(item)))) as nat
  {
    if item.guid.Some? then item.guid.value
    else HashString(env.debugKey(RssPublished(env, now, item), RssName(item)))
  }

  /** The URLs of an RSS item: its link, then the links in its description, then in its content. */
  function RssUrls(env: Env, item: RssItem): seq<Url> {
    var fromLink := if item.link.Some? then PushUrl(env, [], item.link.value) else [];
    var fromDesc := if item.description.Some? then PushAll(env, fromLink, env.findLinks(item.description.value)) else fromLink;
    if item.content.Some? then PushAll(env, fromDesc, env.findLinks(item.content.value)) else fromDesc
  }

  /** The post `extract_from_rss` makes of one item, `now` being the clock's reading. */
  function RssPost(env: Env, now: Timestamp, item: RssItem): Post {
    Post(RssId(env, now, item), RssName(item), RssUrls(env, item), RssPublished(env, now, item), false)
  }

  /** The candidate links of an RSS item, in the order they are looked at. */
  function RssCandidates(env: Env, item: RssItem): seq<string> {
    Texts(item.link)
    + (if item.description.Some? then env.findLinks(item.description.value) else [])
    + (if item.content.Some? then env.findLinks(item.content.value) else [])
  }

  /**
   * The fallbacks of an RSS post: the name is the title, else at most the
   * first 20 characters of the description, else "Untitled"; the id is the
   * guid, else the hash of the `{:?}` rendering of the date and the name,
   * the date being the parsed publication date, else the clock's reading;
   * the URLs are the parsed candidates without duplicates in the order link,
   * description, content.
   */
  lemma RssPostFields(env: Env, now: Timestamp, item: RssItem)
    ensures item.title.Some? ==> RssPost(env, now, item).name == item.title.value
    ensures item.title.None? && item.description.Some? ==>
      var d := item.description.value;
      |RssPost(env, now, item).name| == (if |d| < 20 then |d| else 20) &&
      forall i :: 0 <= i < |RssPost(env, now, item).name| ==> RssPost(env, now, item).name[i] == d[i]
    ensures item.title.None? && item.description.None? ==> RssPost(env, now, item).name == "Untitled"
    ensures item.guid.Some? ==> RssPost(env, now, item).id == item.guid.value
    ensures item.pubDate.Some? && env.parseRfc2822(item.pubDate.value).Some? ==>
      RssPost(env, now, item).published == env.parseRfc2822(item.pubDate.value).value
    ensures item.pubDate.None? || env.parseRfc2822(item.pubDate.value).None? ==> RssPost(env, now, item).published == now
    ensures item.guid.None? ==>
      RssPost(env, now, item).id == HashString(env.debugKey(RssPost(env, now, item).published, RssPost(env, now, item).name))
    ensures item.guid.None? ==>
      IsCanonicalDecimal(RssPost(env, now, item).id) && 1 <= |RssPost(env, now, item).id| <= 20
    ensures RssPost(env, now, item).urls == PushAll(env, [], RssCandidates(env, item))
    ensures NoDuplicates(RssPost(env, now, item).urls)
    ensures !RssPost(env, now, item).read
  {
    var l := Texts(item.link);
    var d := if item.description.Some? then env.findLinks(item.description.value) else [];
    var c := if item.content.Some? then env.findLinks(item.content.value) else [];
    assert PushAll(env, [], l) == (if item.link.Some? then PushUrl(env, [], item.link.value) else []) by {
      if item.link.Some? {
        assert l[..0] == [];
      }
    }
    PushAllConcat(env, [], l, d);
    PushAllConcat(env, [], l + d, c);
    PushAllSpec(env, [], RssCandidates(env, item));
  }

  /** The posts `extract_from_rss` makes of a channel, one per item in order. */
  function RssPosts(env: Env, now: Timestamp, channel: RssChannel): (posts: seq<Post>)
    ensures |posts| == |channel.items|
  {
    seq(|channel.items|, k requires 0 <= k < |channel.items| => RssPost(env, now, channel.items[k]))
  }

  /** `extract_from_rss`. */
  method ExtractFromRss(env: Env, now: Timestamp, channel: RssChannel) returns (posts: seq<Post>)
    ensures posts == RssPosts(env, now, channel)
  {
    posts := [];
    var k := 0;
    while k < |channel.items|
      invariant 0 <= k <= |channel.items|
      invariant |posts| == k
      invariant forall i :: 0 <= i < k ==> posts[i] == RssPost(env, now, channel.items[i])
    {
      var item := channel.items[k];
      var name := if item.title.Some? then item.title.value
        else if item.description.Some? then TruncateChars(item.description.value, 20)
        else "Untitled";
      var published := if item.pubDate.Some? && env.parseRfc2822(item.pubDate.value).Some? then
          env.parseRfc2822(item.pubDate.value).value
        else now;
      var id;
      if item.guid.Some? {
        id := item.guid.value;
      } else {
        id := Hash(env.debugKey(published, name));
      }
      var urls: seq<Url> := [];
      if item.link.Some? {
        urls := PushUrl(env, urls, item.link.value);
      }
      if item.description.Some? {
        urls := ExtractUrlsFromText(env, urls, item.description.value);
      }
      if item.content.Some? {
        urls := ExtractUrlsFromText(env, urls, item.content.value);
      }
      posts := posts + [Post(id, name, urls, published, false)];
      k := k + 1;
    }
  }

  // ---------------------------------------------------------------------------
  // One worker.

  /** The sort key of `sort_unstable_by`: the publication date. */
  function Published(post: Post): Timestamp {
    post.published
  }

  /** Ordered by `key`, earliest first. */
  predicate SortedBy<T>(xs: seq<T>, key: T -> int) {
    forall i, j :: 0 <= i < j < |xs| ==> key(xs[i]) <= key(xs[j])
  }

  predicate SortedByPublished(posts: seq<Post>) {
    SortedBy(posts, Published)
  }

  /** `x` put into `xs` before the first element with a later key. */
  function Insert<T>(xs: seq<T>, x: T, key: T -> int): (r: seq<T>)
    ensures |r| == |xs| + 1
    ensures r[0] == x || (xs != [] && r[0] == xs[0])
  {
    if xs == [] || key(x) <= key(xs[0]) then [x] + xs
    else [xs[0]] + Insert(xs[1..], x, key)
  }

  /** Inserting into a sorted sequence keeps it sorted. */
  lemma {:induction false} InsertSorted<T>(xs: seq<T>, x: T, key: T -> int)
    requires SortedBy(xs, key)
    ensures SortedBy(Insert(xs, x, key), key)
  {
    if xs != [] && key(x) > key(xs[0]) {
      var first, tail := xs[0], xs[1..];
      InsertSorted(tail, x, key);
      var rest := Insert(tail, x, key);
      assert key(first) <= key(rest[0]);
      var r := [first] + rest;
      assert forall j :: 0 < j < |r| ==> r[j] == rest[j - 1];
    }
  }

  /** Inserting adds exactly the one element. */
  lemma {:induction false} InsertPermutes<T>(xs: seq<T>, x: T, key: T -> int)
    ensures multiset(Insert(xs, x, key)) == multiset(xs) + multiset{x}
  {
    if xs != [] && key(x) > key(xs[0]) {
      var first, tail := xs[0], xs[1..];
      InsertPermutes(tail, x, key);
      assert xs == [first] + tail;
      assert multiset([first] + Insert(tail, x, key)) == multiset{first} + multiset(Insert(tail, x, key));
    }
  }

  /**
   * `sort_unstable_by` on `published`: the result is ordered by date and
   * holds the same posts. The order among posts of equal date is not
   * specified.
   */
  method SortByPublished(posts: seq<Post>) returns (sorted: seq<Post>)
    ensures SortedByPublished(sorted)
    ensures multiset(sorted) == multiset(posts)
  {
    sorted := [];
    var i := 0;
    while i < |posts|
      invariant 0 <= i <= |posts|
      invariant SortedByPublished(sorted)
      invariant multiset(sorted) == multiset(posts[..i])
    {
      assert posts[..i + 1] == posts[..i] + [posts[i]];
      InsertSorted(sorted, posts[i], Published);
      InsertPermutes(sorted, posts[i], Published);
      sorted := Insert(sorted, posts[i], Published);
      i := i + 1;
    }
    assert posts[..i] == posts;
  }

  /** What fetching one feed gave: a failure, or a body read at clock reading `now`. */
  datatype FetchOutcome = FetchFailed | Fetched(body: string, now: Timestamp)

  /** The posts of a body: as Atom when it parses as Atom, else as RSS, else none. */
  function Extracted(env: Env, body: string, now: Timestamp): (posts: seq<Post>)
    ensures env.parseAtom(body).Some? ==> |posts| == |env.parseAtom(body).value.entries|
    ensures env.parseAtom(body).None? && env.parseRss(body).Some? ==> |posts| == |env.parseRss(body).value.items|
    ensures env.parseAtom(body).None? && env.parseRss(body).None? ==> posts == []
    ensures forall p :: p in posts ==> !p.read
  {
    match env.parseAtom(body)
    case Some(feed) => AtomPosts(env, feed)
    case None =>
      match env.parseRss(body)
      case Some(channel) => RssPosts(env, now, channel)
      case None => []
  }

  /**
   * The two messages a worker sends for one feed: `Started`, then `Failed`
   * when the fetch failed, else `Finished` with the extracted posts sorted
   * by date.
   */
  predicate Reports(env: Env, job: Job, outcome: FetchOutcome, first: DownloadResponse, second: DownloadResponse) {
    first == Started(job.feed) &&
    match outcome
    case FetchFailed => second == Failed(job.feed)
    case Fetched(body, now) =>
      second.Finished? && second.feed == job.feed && SortedByPublished(second.posts)
      && multiset(second.posts) == multiset(Extracted(env, body, now))
  }

  /**
   * The messages of `spawn_feed_downloader` for its batch, given what each
   * fetch gave: two per feed in batch order, a failure moving on to the
   * next feed.
   */
  method RunWorker(env: Env, jobs: seq<Job>, outcomes: seq<FetchOutcome>) returns (msgs: seq<DownloadResponse>)
    requires |outcomes| == |jobs|
    ensures |msgs| == 2 * |jobs|
    ensures forall k :: 0 <= k < |jobs| ==> Reports(env, jobs[k], outcomes[k], msgs[2 * k], msgs[2 * k + 1])
  {
    msgs := [];
    var k := 0;
    while k < |jobs|
      invariant 0 <= k <= |jobs|
      invariant |msgs| == 2 * k
      invariant forall i :: 0 <= i < k ==> Reports(env, jobs[i], outcomes[i], msgs[2 * i], msgs[2 * i + 1])
    {
      var feed := jobs[k].feed;
      var started := Started(feed);
      var result := outcomes[k];
      var second;
      match result {
        case FetchFailed =>
          second := Failed(feed);
        case Fetched(body, now) =>
          var posts;
          match env.parseAtom(body) {
            case Some(atom) =>
              posts := ExtractFromAtom(env, atom);
            case None =>
              match env.parseRss(body) {
                case Some(rss) =>
                  posts := ExtractFromRss(env, now, rss);
                case None =>
                  posts := [];
              }
          }
          posts := SortByPublished(posts);
          second := Finished(feed, posts);
      }
      msgs := msgs + [started, second];
      k := k + 1;
    }
  }

  /**
   * What a report says of the posts: a finished feed's posts are all unread,
   * and a body that is neither Atom nor RSS still finishes, with no posts.
   */
  lemma ReportedPosts(env: Env, job: Job, outcome: FetchOutcome, first: DownloadResponse, second: DownloadResponse)
    requires Reports(env, job, outcome, first, second)
    ensures second.Failed? <==> outcome.FetchFailed?
    ensures second.Finished? ==> forall p :: p in second.posts ==> !p.read
    ensures outcome.Fetched? && env.parseAtom(outcome.body).None? && env.parseRss(outcome.body).None? ==>
      second == Finished(job.feed, [])
  {
    if outcome.Fetched? {
      assert forall p :: p in Extracted(env, outcome.body, outcome.now) ==> !p.read;
      forall p | p in second.posts
        ensures !p.read
      {
        assert p in multiset(second.posts);
      }
      if env.parseAtom(outcome.body).None? && env.parseRss(outcome.body).None? {
        assert |multiset(second.posts)| == 0;
      }
    }
  }
}

/**
 * The application state of src/app.rs: the feed state (the config, the feeds
 * being downloaded, the shared spinner) and the stack of pages.
 */
module App {
  import opened Wrappers
  import opened Config
  import opened Tui
  import Download

  /** The feed a `FeedId` addresses: section first, then feed within it. */
  function FeedAt(config: FeedConfig, id: FeedId): (r: Option<Feed>)
    ensures r.Some? <==> id.sectionIdx < |config.sections| && id.feedIdx < |config.sections[id.sectionIdx].feeds|
    ensures r.Some? ==> r.value == config.sections[id.sectionIdx].feeds[id.feedIdx]
  {
    match Get(config.sections, id.sectionIdx)
    case None => None
    case Some(section) => Get(section.feeds, id.feedIdx)
  }

  /**
   * The config after changing the feed `id` addresses through `update`; the
   * config is left as it is when `id` addresses no feed.
   */
  function UpdateFeed(config: FeedConfig, id: FeedId, update: Feed -> Feed): (r: FeedConfig)
    ensures |r.sections| == |config.sections|
    ensures forall i :: 0 <= i < |r.sections| ==>
      r.sections[i].name == config.sections[i].name && |r.sections[i].feeds| == |config.sections[i].feeds|
    ensures FeedAt(config, id).Some? ==> FeedAt(r, id) == Some(update(FeedAt(config, id).value))
    ensures forall other :: other != id ==> FeedAt(r, other) == FeedAt(config, other)
    ensures FeedAt(config, id).None? ==> r == config
  {
    match FeedAt(config, id)
    case None => config
    case Some(feed) =>
      var section := config.sections[id.sectionIdx];
      var changed := Section(section.name, section.feeds[id.feedIdx := update(feed)]);
      FeedConfig(config.sections[id.sectionIdx := changed])
  }

  /** The URL map handed to the downloader addresses feeds exactly as `FeedAt` does. */
  lemma UrlMapAgrees(config: FeedConfig, id: FeedId)
    ensures var m := Download.FromConfig(config);
      FeedAt(config, id).Some? <==> id.sectionIdx < |m.urls| && id.feedIdx < |m.urls[id.sectionIdx]|
    ensures var m := Download.FromConfig(config);
      FeedAt(config, id).Some? ==> m.urls[id.sectionIdx][id.feedIdx] == FeedAt(config, id).value.url
  {
  }

  /** `FeedState`: the config, the feeds being downloaded and the spinner. */
  class FeedState {
    var feedConfig: FeedConfig
    var downloading: seq<FeedId>
    const spinner: Spinner

    /** `FeedState::new`: nothing is being downloaded; `now` is the clock's reading. */
    constructor(config: FeedConfig, now: int)
      ensures feedConfig == config && downloading == []
      ensures fresh(spinner) && spinner.Valid() && spinner.frameIdx == 0 && spinner.lastTick == now
    {
      feedConfig := config;
      downloading := [];
      spinner := new Spinner(now);
    }

    /** `FeedState::is_downloading`: whether `id` occurs in the download list. */
    predicate IsDownloading(id: FeedId)
      reads this
      ensures IsDownloading(id) <==> exists k :: 0 <= k < |downloading| && downloading[k] == id
    {
      id in downloading
    }

    /** `FeedState::get_feed`: the feed `id` addresses, if there is one. */
    function GetFeed(id: FeedId): (r: Option<Feed>)
      reads this
      ensures r.Some? <==> id.sectionIdx < |feedConfig.sections| && id.feedIdx < |feedConfig.sections[id.sectionIdx].feeds|
      ensures r.Some? ==> r.value == feedConfig.sections[id.sectionIdx].feeds[id.feedIdx]
    {
      FeedAt(feedConfig, id)
    }

    /**
     * `FeedState::get_feed_mut`, with the change the caller makes through the
     * reference it returns passed in as `update`: `found` when `id` addresses
     * a feed, which alone is changed.
     */
    method GetFeedMut(id: FeedId, update: Feed -> Feed) returns (found: bool)
      modifies this
      ensures found <==> old(GetFeed(id)).Some?
      ensures feedConfig == UpdateFeed(old(feedConfig), id, update)
      ensures downloading == old(downloading)
    {
      found := GetFeed(id).Some?;
      feedConfig := UpdateFeed(feedConfig, id, update);
    }
  }

  /** `App`: the page stack, whose last page is the one shown, and the feed state. */
  class App {
    var pages: seq<Page>
    const feedState: FeedState

    ghost predicate Valid()
      reads this
    {
      |pages| >= 1
    }

    /** `App::new`: the main page alone on the stack. */
    constructor(config: FeedConfig, now: int)
      ensures Valid() && pages == [MainView]
      ensures fresh(feedState) && feedState.feedConfig == config && feedState.downloading == []
    {
      pages := [MainView];
      feedState := new FeedState(config, now);
    }

    /** `App::go_back`: drops the page shown unless it is the only one. */
    method GoBack()
      requires Valid()
      modifies this
      ensures Valid()
      ensures |old(pages)| > 1 ==> pages == old(pages)[..|old(pages)| - 1]
      ensures |old(pages)| == 1 ==> pages == old(pages)
      ensures pages == PopPages(old(pages), 1)
    {
      if |pages| > 1 {
        pages := pages[..|pages| - 1];
      }
    }

    /** `App::start_download`: `feed` joins the end of the download list. */
    method StartDownload(feed: FeedId)
      modifies feedState
      ensures feedState.downloading == old(feedState.downloading) + [feed]
      ensures feedState.IsDownloading(feed)
      ensures forall other :: old(feedState.IsDownloading(other)) ==> feedState.IsDownloading(other)
      ensures feedState.feedConfig == old(feedState.feedConfig)
    {
      feedState.downloading := feedState.downloading + [feed];
    }
  }

  /** Going back repeatedly never empties the page stack, and ends at the first page. */
  lemma {:induction false} BackToFirst(pages: seq<Page>, n: nat)
    requires |pages| >= 1
    ensures |PopPages(pages, n)| >= 1
    ensures n >= |pages| - 1 ==> PopPages(pages, n) == pages[..1]
    decreases n
  {
    if n > 0 && |pages| > 1 {
      BackToFirst(pages[..|pages| - 1], n - 1);
      assert pages[..|pages| - 1][..1] == pages[..1];
    }
  }

  /**
   * The page stack after `n` calls of `go_back`: the first `n` pages are
   * dropped from the top, but never the bottom one.
   */
  function PopPages(pages: seq<Page>, n: nat): (r: seq<Page>)
    ensures |r| <= |pages| && r == pages[..|r|]
    ensures |pages| <= 1 ==> r == pages
    ensures |pages| > 1 ==> |r| == if n < |pages| then |pages| - n else 1
    decreases n
  {
    if n == 0 || |pages| <= 1 then pages
    else
      var init := pages[..|pages| - 1];
      var r := PopPages(init, n - 1);
      assert init[..|r|] == pages[..|r|];
      r
  }
}

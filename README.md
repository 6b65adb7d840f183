# nia, modelled in Dafny

nia is a terminal feed reader. A config file lists the feeds, grouped into
sections. A background downloader fetches the feeds and turns Atom and RSS
documents into posts. A terminal UI shows one page at a time from a page
stack; the main page lists the sections and their feeds.

This project models the parts of nia that carry logic:

- `Config` (config.dfy) models the feed-config parser. A line starting with
  `#` opens a section, and a `title | url` line adds a feed to the open
  section. Blank lines are skipped, and feed lines before the first header
  are dropped unread. One malformed feed line fails the whole parse. The
  loop of `parse_reader` is proved equal to a declarative reading of the
  file: the lines are grouped by header, then each group is parsed.
- `Download` (download.dfy) models the downloader without threads, channels
  or network:
  - the `UrlMap` built from a config;
  - how a request is cut into batches of numbered feeds;
  - the messages a worker sends for each feed of its batch;
  - URL gathering without duplicates;
  - post extraction from Atom entries and RSS items, with the RSS name, date
    and id fallbacks;
  - the sort by publication date.
- `Lib` (lib.dfy) models the FNV-1a hash over the UTF-8 bytes of a string,
  with 64-bit wrap-around, and its decimal rendering.
- `Tui` (tui.dfy) models the list page, whose cursor moves over the
  selectable items only, and the ten-frame download spinner.
- `TuiMain` (tui_main.dfy) models the main page. It lays out one header row,
  the feed rows and one spacer row per section, and only feed rows can be
  selected. Enter or `l` on a feed row opens that feed's page.
- `App` (app.dfy) models the feed state: two-level `FeedId` lookup and
  update, and the list of feeds being downloaded. It also models the page
  stack, which never pops its last page.
- `Strings` (strings.dfy) and `Wrappers` (wrappers.dfy) model the parts of
  Rust's `str`, `Option` and `Vec` these rely on:
  - `trim`;
  - `trim_start_matches`;
  - `split`;
  - `lines`;
  - UTF-8 encoding;
  - `Vec::get`.

Code that changes state in place is modelled as classes with `modifies`
clauses: `ListPage`, `Spinner`, `MainPage`, `FeedState` and `App`. Loops are
modelled as methods with loop invariants. Most of them are proved equal to a
pure specification function:
- `parse_reader`;
- `hash`;
- the row loops of `MainPage::new`;
- the Atom and RSS extractors;
- the link gathering of `extract_urls_from_text`.

The others are proved against a relation or a property, because the source
fixes no single result or the loop only shapes its output:
- the worker satisfies the relation `Reports` for each feed, which leaves
  the order of posts with equal dates open, as `sort_unstable_by` does;
- the request dispatch is described batch by batch and job by job;
- the sort returns a date-ordered permutation of its input.

The foreign code the downloader calls is modelled as the function fields of
the `Env` datatype:
- the Atom and RSS parsers;
- `Url::parse`;
- the link finder;
- RFC 2822 date parsing;
- `{:?}` formatting.

The network fetch and the clock reading taken for each feed are parameters
(`FetchOutcome`). The spinner and the app constructors take the clock's
reading as an argument.

## Model

| member | source | states |
|---|---|---|
| Wrappers.Get | src/tui.rs:103 | `Vec::get`: some exactly when the index is in range, and then the element at that index |
| Strings.LeadingWhitespace | src/config.rs:59 | the length of the run of whitespace the text starts with: every character before it is whitespace, and the one at it is not |
| Strings.TrimStart | src/config.rs:59 | the input with exactly its leading whitespace removed; the result does not start with whitespace |
| Strings.TrimEnd | src/config.rs:59 | the result is a prefix of the input; everything removed is whitespace; the result does not end with whitespace |
| Strings.Trim | src/config.rs:59 | the result is the slice of the input that starts right after its leading whitespace and is followed by whitespace only; no leading or trailing whitespace is left; the result is empty exactly when the line is all whitespace |
| Strings.TrimStartMatches | src/config.rs:74 | the result is a suffix of the input; every removed character is the given one; the result does not start with it |
| Strings.IndexOf | src/config.rs:161 | the first position of the character, or the length when the character does not occur |
| Strings.Split | src/config.rs:161 | one more part than separators; no part holds the separator; joining the parts with it gives back the input |
| Strings.CountPositive | src/config.rs:161 | proof helper for the split lemmas: a character occurs a positive number of times exactly when it is in the string |
| Strings.SplitAtSingle | src/config.rs:161-164 | with exactly one separator, the two parts are the text before it and the text after it |
| Strings.SplitWithout | src/config.rs:161-164 | with no separator, splitting gives the input alone |
| Strings.Lines | src/config.rs:57 | no lines exactly for empty text; no line holds a newline; joining the lines with newlines gives back the text, less its final newline when it ends with one |
| Strings.EncodeChar | src/lib.rs:14 | one to four UTF-8 bytes per character, exactly one for ASCII |
| Strings.Utf8 | src/lib.rs:14 | between one and four bytes per character, exactly one per character for ASCII text |
| Lib.AbsorbSnoc | src/lib.rs:14-17 | absorbing one more byte is one more xor-and-multiply step on the running hash |
| Lib.AbsorbConcat | src/lib.rs:14-17 | absorbing two byte strings one after the other is absorbing their concatenation |
| Lib.Fnv1aFoldLaw | src/lib.rs:12-17 | the hash of a byte string extended by one byte is one step on the hash of the string |
| Lib.Fnv1aOfA | src/lib.rs:9-17 | the 64-bit FNV-1a hash of the single byte "a" is the published value 0xaf63dc4c8601ec8c |
| Lib.Decimal | src/lib.rs:19 | `to_string` of an integer: a non-empty string of digits, with a leading zero only for zero |
| Lib.Pow10 | src/lib.rs:19 | proof helper for the 20-digit bound: powers of ten are positive |
| Lib.DecimalRoundTrip | src/lib.rs:19 | reading the decimal string back gives the number |
| Lib.DecimalLength | src/lib.rs:19 | a number below 10^k has at most k digits |
| Lib.U64DecimalShape | src/lib.rs:19 | the decimal string of a `u64` is canonical and at most 20 digits long |
| Lib.DecimalInjective | src/lib.rs:19 | two numbers have the same decimal string exactly when they are equal |
| Lib.HashString | src/lib.rs:8-20 | `hash(s)` is a canonical decimal of 1 to 20 digits whose value is the FNV-1a hash of the UTF-8 bytes of `s` |
| Lib.HashOfEmpty | src/lib.rs:9-19 | the hash of the empty string is the offset basis, 14695981039346656037 |
| Lib.Hash | src/lib.rs:8-20 | the byte loop with wrapping multiplication computes the decimal of the FNV-1a hash of the UTF-8 bytes |
| Config.Classify | src/config.rs:59-75 | a line is blank exactly when it is all whitespace; it is a header exactly when its trimmed text starts with '#', named by the rest without the '#'s and surrounding whitespace; otherwise it is a feed line holding its trimmed text |
| Config.NewSection | src/config.rs:149-154 | a new section has the given name and no feeds |
| Config.ParseFeed | src/config.rs:159-178 | a line without exactly one `\|` is an invalid line; otherwise the feed is the trimmed text before it and the trimmed URL after it, and a URL starting with neither "https://" nor "http://" is an invalid URL |
| Config.CollectAll | src/config.rs:78 | collecting with `?` yields one value per input when it succeeds |
| Config.CollectAllOk | src/config.rs:78 | collecting succeeds exactly when every element parses, and then holds each element's value in order |
| Config.CollectAllErr | src/config.rs:78 | a failed collection reports the error of the first element that fails |
| Config.KindsConcat | src/config.rs:57-79 | classifying lines commutes with concatenating them |
| Config.ShapeSnoc | src/config.rs:57-80 | the layout of the lines read so far plus one more line is one loop step on the layout so far |
| Config.LayoutSnoc | src/config.rs:57-80 | the section groups after one more line, as one loop step |
| Config.CollectAllSnoc | src/config.rs:78 | collecting one more element extends the result or fails with that element's error |
| Config.ParseStep | src/config.rs:67-79 | the parse of the groups after one more line: a header closes the open section and opens an empty one; a feed line with no open section is dropped; one inside a section adds its feed or fails |
| Config.ErrorPersistsKinds | src/config.rs:78 | once a feed line has failed, later lines do not change the error |
| Config.ErrorPersists | src/config.rs:78 | once a feed line has failed, later lines do not change the error |
| Config.KindsPrefix | src/config.rs:57 | the classified prefix of the lines grows one line at a time |
| Config.ErrorPersistsAfter | src/config.rs:78 | an error met after `n` lines is the error of the whole file |
| Config.ParseReader | src/config.rs:52-88 | the loop of `parse_reader` returns exactly the declarative parse of the file's lines; empty input gives a config without sections |
| Config.GroupsFollowHeaders | src/config.rs:67-75 | there is one section group per header line, named by that header, in file order |
| Config.SectionsFollowHeaders | src/config.rs:67-87 | a successful parse has one section per header, with the header's name and in file order; each section's feeds are its feed lines parsed in file order |
| Config.ParseFailsOnInvalidLine | src/config.rs:76-78 | the parse fails exactly when some feed line inside a section fails `Feed::parse` |
| Config.PreambleIgnored | src/config.rs:76 | lines before the first header change no section |
| Config.NoHeadersNoGroups | src/config.rs:76 | lines without a header open no section |
| Config.BlankLineIgnored | src/config.rs:59-64 | a line that trims to nothing changes no section |
| Config.BlankKindIgnored | src/config.rs:62-64 | a blank line changes neither the sections nor the dropped lines |
| Download.FromConfig | src/download.rs:14-28 | one URL list per section and one URL per feed, each the URL of the feed at the same position |
| Download.Dispatch | src/download.rs:79-101 | a single-feed request is one batch of that feed; `All` is one batch per section, and each job is numbered `FeedId(section, feed)` with that feed's URL |
| Download.PushUrl | src/download.rs:153-162 | the old list is an unchanged prefix; it grows by at most one, exactly when the URL parses and is new; a duplicate-free list stays duplicate-free |
| Download.ExtractUrlsFromText | src/download.rs:165-172 | the loop pushes every link the finder reports, in order |
| Download.PushAllConcat | src/download.rs:165-172 | pushing two runs of links one after the other is pushing their concatenation |
| Download.PushAllSpec | src/download.rs:153-172 | the old list is an unchanged prefix; the list stays duplicate-free; every link that parses ends up in it; every URL in it was there before or comes from one of the links |
| Download.TruncateChars | src/download.rs:274-276 | the first `n` characters, or all of them when there are fewer |
| Download.AtomUrlsInOrder | src/download.rs:189-201 | an Atom post's URLs are its links, then the links in its content, then those in its summary, pushed in that order and without duplicates |
| Download.AtomPosts | src/download.rs:178-209 | one post per Atom entry |
| Download.ExtractFromAtom | src/download.rs:178-209 | the loop builds, in entry order, the post of each entry: id, title, update date, URLs, unread |
| Download.RssName | src/download.rs:223-226 | the title, else the first 20 characters of the description (all of them when it is shorter), else "Untitled" |
| Download.RssPublished | src/download.rs:227-230 | the RFC 2822 publication date when there is one and it parses, else the clock's reading |
| Download.RssId | src/download.rs:231-233 | the guid, else a canonical decimal of 1 to 20 digits whose value is the FNV-1a hash of the rendering of the post's date and name |
| Download.RssPostFields | src/download.rs:219-253 | the name is the title, else at most 20 characters of the description, else "Untitled"; the id is the guid, else the hash of the date and name; the URLs are the link, then the description's links, then the content's, without duplicates; the post is unread |
| Download.RssPosts | src/download.rs:215-256 | one post per RSS item |
| Download.ExtractFromRss | src/download.rs:215-256 | the loop builds, in item order, the post of each item, computing the fallback id with the hash loop |
| Download.Insert | src/download.rs:143 | one insertion step of the sort: one element longer, starting with the new post or with the old first post |
| Download.InsertSorted | src/download.rs:143 | inserting into a list sorted by date keeps it sorted |
| Download.InsertPermutes | src/download.rs:143 | inserting adds exactly that post and removes none |
| Download.SortByPublished | src/download.rs:143 | the result is sorted by publication date and is a permutation of the input |
| Download.Extracted | src/download.rs:134-140 | a body that parses as Atom gives one post per entry; else one that parses as RSS gives one post per item; else no posts; every post is unread |
| Download.RunWorker | src/download.rs:116-148 | two messages per feed in batch order: `Started`, then `Failed` when the fetch failed, else `Finished` with the extracted posts sorted by date |
| Download.ReportedPosts | src/download.rs:126-147 | a feed is reported failed exactly when its fetch failed; finished posts are unread; a body that is neither Atom nor RSS finishes with no posts |
| Tui.SelectableIndices | src/tui.rs:91-93 | the listed positions are in range, hold selectable items and increase strictly |
| Tui.SelectableIndicesComplete | src/tui.rs:91-93 | every selectable item's position is listed |
| Tui.SelectableIndicesCount | src/tui.rs:91-93 | as many positions are listed as there are selectable items |
| Tui.CountSelectableConcat | src/tui.rs:91-93 | the selectable items of a concatenation are those of its parts |
| Tui.FirstSelectable | src/tui.rs:91-96 | no position is listed exactly when no item is selectable; the first one listed is the first selectable item |
| Tui.ListPage.constructor | src/tui.rs:90-99 | the cursor starts at 0 and the widget shows the first selectable position, or nothing |
| Tui.ListPage.SelectedItem | src/tui.rs:102-104 | for a valid page there is a selected item exactly when some item is selectable, and it is the selectable item under the cursor |
| Tui.ListPage.UpdateState | src/tui.rs:107-109 | the widget shows the position under the cursor, or nothing when the cursor is past the end |
| Tui.ListPage.Up | src/tui.rs:113-116 | the cursor moves back by the amount and stops at 0; the page stays valid; the widget shows a position exactly when some item is selectable |
| Tui.ListPage.Down | src/tui.rs:119-123 | the cursor moves on by the amount and stops at the last position; the page stays valid; the widget shows a position exactly when some item is selectable |
| Tui.Elapsed | src/tui.rs:155 | `duration_since` is the difference, or zero when the earlier instant is later |
| Tui.NextFrame | src/tui.rs:156 | the next frame index is again a frame index |
| Tui.Advance | src/tui.rs:156 | any number of frame steps stays on a frame index |
| Tui.AdvanceModular | src/tui.rs:156 | `n` frame steps count `n` modulo the number of frames |
| Tui.TenFramesCycle | src/tui.rs:138-156 | ten steps come back to the starting frame, and no fewer do |
| Tui.FewerFramesMove | src/tui.rs:138-156 | one to nine frame steps never come back to the starting frame |
| Tui.FramesDistinct | src/tui.rs:138-140 | the ten frames are pairwise distinct |
| Tui.Spinner.constructor | src/tui.rs:146-151 | the spinner starts on frame 0, shown from the given instant |
| Tui.Spinner.Tick | src/tui.rs:154-159 | once the frame has been shown for 120 ms it moves to the next frame and restarts its timer; before that nothing changes; the frame index stays in range |
| Tui.Spinner.Frame | src/tui.rs:162-164 | the frame shown is the frame at the current index |
| Tui.Spinner.Reset | src/tui.rs:167-170 | back to frame 0, shown from the given instant |
| TuiMain.IsFeedRow | src/tui/main.rs:19-23 | section headers and spacers are never selectable; feed rows always are |
| TuiMain.FeedRowsShape | src/tui/main.rs:42-44 | one feed row per feed of the section, in order, with the feed's name |
| TuiMain.FeedRowsSelectable | src/tui/main.rs:19-23 | every feed row is selectable |
| TuiMain.RowsOfConcat | src/tui/main.rs:37-48 | the rows of two runs of sections are the rows of each, one after the other |
| TuiMain.TotalFeedsConcat | src/tui/main.rs:37-48 | the feeds of two runs of sections add up |
| TuiMain.RowCount | src/tui/main.rs:37-48 | there are two rows per section plus one per feed |
| TuiMain.SectionSplit | src/tui/main.rs:37-48 | a section's rows sit between the rows of the sections before it and those after it |
| TuiMain.RowPositions | src/tui/main.rs:37-48 | section `i` starts at its offset with its header, then its feeds in order, then a spacer |
| TuiMain.SelectableRowCount | src/tui/main.rs:19-23 | there are exactly as many selectable rows as feeds |
| TuiMain.InitialSelection | src/tui/main.rs:50-52 | the initial selection is nothing exactly when the config has no feeds, and otherwise the first feed row |
| TuiMain.BuildRows | src/tui/main.rs:34-48 | the nested loops build exactly the declared row layout |
| TuiMain.MainPage.constructor | src/tui/main.rs:32-53 | the page lists the rows of the config, only feed rows selectable, cursor on the first selectable one |
| TuiMain.MainPage.OnKey | src/tui/main.rs:94-104 | Enter or `l` opens a page exactly when the selected row is a feed row, and it is that feed's page; anything else does nothing |
| App.FeedAt | src/app.rs:36-40 | there is a feed exactly when both indices are in range, and it is the feed at those indices |
| App.UpdateFeed | src/app.rs:43-47 | only the addressed feed changes, with the same addressing as the lookup; nothing changes when the id addresses no feed; sections keep their names and sizes |
| App.UrlMapAgrees | src/app.rs:36-40 | the downloader's URL map addresses feeds exactly as the lookup does |
| App.FeedState.constructor | src/app.rs:22-28 | a new feed state keeps the config, downloads nothing and has its spinner on frame 0 |
| App.FeedState.IsDownloading | src/app.rs:31-33 | true exactly when the id occurs in the download list |
| App.FeedState.GetFeed | src/app.rs:36-40 | there is a feed exactly when both indices are in range, and it is the feed at those indices |
| App.FeedState.GetFeedMut | src/app.rs:43-47 | finds a feed under the same conditions as `get_feed`; only that feed changes; the download list does not |
| App.App.constructor | src/app.rs:64-70 | the page stack holds the main page alone; nothing is being downloaded |
| App.App.GoBack | src/app.rs:114-118 | the last page is dropped only when there is more than one, so the stack never empties; the result is one step of `PopPages` |
| App.App.StartDownload | src/app.rs:126-128 | the feed is appended to the download list and is then being downloaded; earlier entries and the config are unchanged |
| App.PopPages | src/app.rs:114-118 | `n` presses of back leave a prefix of the stack: `n` pages fewer, but never fewer than one page; a stack of at most one page is unchanged |
| App.BackToFirst | src/app.rs:114-118 | going back any number of times leaves at least one page, and enough times leaves the first page alone |

## Left out

- Network, threads and channels are not modelled: `spawn_downloader_thread`'s request loop, `spawn_feed_downloader`'s thread, `reqwest` and the `mpsc` sends. A worker is a method from its batch and the outcome of each fetch to the messages it sends, in order. Interleaving across workers is not modelled.
- Foreign code is not modelled; it is the uninterpreted function fields of `Env`. This covers the Atom and RSS parsers, `Url::parse`, the linkify link finder, RFC 2822 date parsing and the `{:?}` formatting of the hash input.
- The clock (`Instant::now`, `Utc::now`) is a parameter. RSS items without a usable date get the one reading passed with the fetch outcome, not a fresh reading per item.
- Download.SortByPublished: models `sort_unstable_by` as an insertion sort on a sequence, not an in-place sort. The contract states sorted and a permutation only, because the source does not fix the order of posts with equal dates.
- Config.ParseReader: does not model the I/O errors that `line?` can return, because the input is the whole text.
- Strings.Lines: does not model the removal of a trailing carriage return that Rust's `lines` performs, because a carriage return is whitespace and `trim` removes it before any use.
- Strings.EncodeChar: does not state the byte values, only their number, because the bit-level statement is too costly for the solver. `Utf8` is still defined by the standard UTF-8 encoding.
- Tui.ListPage.Down: does not model `usize` saturation in `saturating_add`, because the cursor is an unbounded integer and the minimum with the last position gives the same result for every reachable state.
- Atom entry content is an optional string, the value of `entry.content().and_then(value)`. The other parts of the `Content` record are not modelled.
- The page stack holds page descriptors (`MainView`, `FeedView(name)`), not page objects. `App::run`, `handle_input`, `draw`, `build_list`, the feed and post pages (src/tui/feed.rs, src/tui/post.rs) and all rendering are not part of this model.
- `MainPage::on_key` names `PageAction::Push`, which the `PageAction` enum does not declare. The model reads it as `PageAction::NewPage`.
- The `Post` of src/config.rs is declared as a unit struct, but src/download.rs builds it with fields. The model uses the record with fields `id`, `name`, `urls`, `published` and `read`.
- The inline tests of src/config.rs call a `Config` type. The model reads it as `FeedConfig`.
- The database module and config-file discovery are not part of this model: environment variables, the filesystem and printing.
- The `hash` copy in src/download.rs (lines 259-271) is textually the same as the one in src/lib.rs. It is modelled once, as `Lib.Hash` and `Lib.HashString`.

/**
 * The feed configuration of src/config.rs: a line-based file in which a line
 * starting with '#' opens a section and a `title | url` line adds a feed to
 * the current section.
 */
module Config {
  import opened Wrappers
  import opened Strings

  type Url = string

  /** An instant, abstractly: an integer whose order is the order of `DateTime<Utc>` values. */
  type Timestamp = int

  /** One post of a feed (the record that src/download.rs builds). */
  datatype Post = Post(id: string, name: string, urls: seq<Url>, published: Timestamp, read: bool)

  datatype Feed = Feed(name: string, url: string, posts: seq<Post>)

  datatype Section = Section(name: string, feeds: seq<Feed>)

  datatype FeedConfig = FeedConfig(sections: seq<Section>)

  /** Addresses a feed: an index into the sections, then into that section's feeds. */
  datatype FeedId = FeedId(sectionIdx: nat, feedIdx: nat)

  /** The two messages of the `io::Error`s that `Feed::parse` returns (both of kind Other). */
  datatype ConfigError = InvalidUrl | InvalidLine

  /** `Section::new`. */
  function NewSection(name: string): (s: Section)
    ensures s.name == name && |s.feeds| == 0
  {
    Section(name, [])
  }

  predicate IsHttpUrl(url: string) {
    StartsWith(url, "https://") || StartsWith(url, "http://")
  }

  /**
   * `Feed::parse`: the line must hold exactly one '|'; the trimmed text after
   * it must start with "https://" or "http://".
   */
  function ParseFeed(line: string): (r: Result<Feed, ConfigError>)
    ensures Count(line, '|') != 1 ==> r == Err(InvalidLine)
    ensures Count(line, '|') == 1 ==> IndexOf(line, '|') < |line|
    ensures Count(line, '|') == 1 ==>
      var k := IndexOf(line, '|');
      var url := Trim(line[k + 1..]);
      r == (if IsHttpUrl(url) then Ok(Feed(Trim(line[..k]), url, [])) else Err(InvalidUrl))
  {
    var parts := Split(line, '|');
    if |parts| == 2 then
      SplitAtSingle(line, '|');
      var name := Trim(parts[0]);
      var url := Trim(parts[1]);
      if IsHttpUrl(url) then Ok(Feed(name, url, [])) else Err(InvalidUrl)
    else
      Err(InvalidLine)
  }

  // ---------------------------------------------------------------------------
  // What a file means: sections made of a header line and the feed lines
  // up to the next header.

  /** A line after trimming: empty, a section header, or a feed line. */
  datatype LineKind = Blank | Header(name: string) | Entry(text: string)

  /**
   * How `parse_reader` reads one line: blank when it is all whitespace; a
   * header when its trimmed text starts with '#', named by the rest with the
   * '#'s and surrounding whitespace removed; otherwise a feed line holding
   * its trimmed text.
   */
  function Classify(line: string): (k: LineKind)
    ensures k.Blank? <==> OnlyWhitespace(line)
    ensures k.Header? <==> Trim(line) != [] && Trim(line)[0] == '#'
    ensures k.Header? ==> k.name == Trim(TrimStartMatches(Trim(line), '#'))
    ensures k.Entry? ==> k.text == Trim(line) && k.text != [] && k.text[0] != '#'
  {
    var t := Trim(line);
    if t == [] then Blank
    else if t[0] == '#' then Header(Trim(TrimStartMatches(t, '#')))
    else Entry(t)
  }

  /** `f` applied to each element, in order. */
  function MapSeq<X, Y>(f: X -> Y, xs: seq<X>): (ys: seq<Y>)
    ensures |ys| == |xs|
  {
    seq(|xs|, k requires 0 <= k < |xs| => f(xs[k]))
  }

  lemma MapSeqConcat<X, Y>(f: X -> Y, xs: seq<X>, more: seq<X>)
    ensures MapSeq(f, xs + more) == MapSeq(f, xs) + MapSeq(f, more)
  {
    var all := xs + more;
    forall k | 0 <= k < |all|
      ensures MapSeq(f, all)[k] == (MapSeq(f, xs) + MapSeq(f, more))[k]
    {
      if k >= |xs| {
        assert all[k] == more[k - |xs|];
      }
    }
  }

  lemma MapSeqSnoc<X, Y>(f: X -> Y, xs: seq<X>, x: X)
    ensures MapSeq(f, xs + [x]) == MapSeq(f, xs) + [f(x)]
  {
    var all := xs + [x];
    assert MapSeq(f, all)[|xs|] == f(x);
    forall k | 0 <= k < |xs|
      ensures MapSeq(f, all)[k] == MapSeq(f, xs)[k]
    {
      assert all[k] == xs[k];
    }
  }

  /** The kind of each line, in order. */
  function Kinds(lines: seq<string>): (ks: seq<LineKind>)
    ensures |ks| == |lines|
  {
    MapSeq(Classify, lines)
  }

  lemma KindsConcat(lines: seq<string>, more: seq<string>)
    ensures Kinds(lines + more) == Kinds(lines) + Kinds(more)
  {
    MapSeqConcat(Classify, lines, more);
  }

  /** A section as written in the file: its name and its feed lines, trimmed, in order. */
  datatype Group = Group(name: string, entries: seq<string>)

  /**
   * A file cut at its headers: the feed lines before the first header, which
   * belong to no section, and one group per header holding the feed lines
   * that follow it up to the next header.
   */
  datatype Shape = Shape(loose: seq<string>, groups: seq<Group>)

  function ShapeOf(ks: seq<LineKind>): Shape {
    if ks == [] then Shape([], []) else Prepend(ks[0], ShapeOf(ks[1..]))
  }

  /** The shape of a file one line longer at the front. */
  function Prepend(k: LineKind, rest: Shape): Shape {
    match k
    case Blank => rest
    case Entry(t) => Shape([t] + rest.loose, rest.groups)
    case Header(name) => Shape([], [Group(name, rest.loose)] + rest.groups)
  }

  /** The sections a file describes, before their feed lines are parsed. */
  function Layout(lines: seq<string>): seq<Group> {
    ShapeOf(Kinds(lines)).groups
  }

  /**
   * Applies `f` to every element in order: all the values when every call
   * succeeds, otherwise the error of the first call that fails (the `?` of
   * a Rust loop).
   */
  function CollectAll<X, V, E>(f: X -> Result<V, E>, xs: seq<X>): (r: Result<seq<V>, E>)
    ensures r.Ok? ==> |r.value| == |xs|
    decreases |xs|
  {
    if xs == [] then Ok([])
    else
      match CollectAll(f, xs[..|xs| - 1])
      case Err(e) => Err(e)
      case Ok(vs) =>
        match f(xs[|xs| - 1])
        case Err(e) => Err(e)
        case Ok(v) => Ok(vs + [v])
  }

  /** The feeds of a section's lines in file order, or the error of the first invalid line. */
  function ParseFeeds(entries: seq<string>): Result<seq<Feed>, ConfigError> {
    CollectAll(ParseFeed, entries)
  }

  function ParseSection(g: Group): Result<Section, ConfigError> {
    match ParseFeeds(g.entries)
    case Ok(feeds) => Ok(Section(g.name, feeds))
    case Err(e) => Err(e)
  }

  /** Parses every group in file order; the first invalid feed line decides the error. */
  function ParseGroups(groups: seq<Group>): Result<seq<Section>, ConfigError> {
    CollectAll(ParseSection, groups)
  }

  /** What parsing the lines of a file yields. */
  function ParseConfig(lines: seq<string>): Result<FeedConfig, ConfigError> {
    match ParseGroups(Layout(lines))
    case Ok(sections) => Ok(FeedConfig(sections))
    case Err(e) => Err(e)
  }

  // ---------------------------------------------------------------------------
  // The parser itself.

  /** The section being filled, as a list of zero or one sections. */
  function Pending(current: Option<Section>): seq<Section> {
    if current.Some? then [current.value] else []
  }

  lemma ParseGroupsEmpty(lines: seq<string>)
    ensures ParseGroups(Layout(lines[..0])) == Ok([])
  {
    assert lines[..0] == [] && Kinds([]) == [];
  }

  lemma KindsPrefix(lines: seq<string>, n: nat)
    requires n <= |lines|
    ensures n == 0 ==> Kinds(lines[..n]) == []
    ensures n > 0 ==> Kinds(lines[..n]) == Kinds(lines[..n - 1]) + [Classify(lines[n - 1])]
    ensures n == |lines| ==> Kinds(lines[..n]) == Kinds(lines)
  {
    if n == |lines| {
      assert lines[..n] == lines;
    }
    if n > 0 {
      assert lines[..n] == lines[..n - 1] + [lines[n - 1]];
      MapSeqSnoc(Classify, lines[..n - 1], lines[n - 1]);
    }
  }

  lemma ErrorPersistsAfter(lines: seq<string>, n: nat)
    requires n <= |lines|
    requires ParseGroups(ShapeOf(Kinds(lines[..n])).groups).Err?
    ensures ParseGroups(Layout(lines)) == ParseGroups(ShapeOf(Kinds(lines[..n])).groups)
  {
    ErrorPersists(lines[..n], lines[n..]);
    assert lines[..n] + lines[n..] == lines;
  }

  /** `FeedConfig::parse_reader`, reading the whole text of the file. */
  method ParseReader(text: string) returns (r: Result<FeedConfig, ConfigError>)
    ensures r == ParseConfig(Lines(text))
    ensures text == "" ==> r == Ok(FeedConfig([]))
  {
    var lines := Lines(text);
    var sections: seq<Section> := [];
    var current: Option<Section> := None;
    var i := 0;
    ghost var sh := Shape([], []);
    KindsPrefix(lines, 0);
    assert sections + Pending(current) == [];
    while i < |lines|
      invariant 0 <= i <= |lines|
      invariant sh == ShapeOf(Kinds(lines[..i]))
      invariant current.None? ==> sections == []
      invariant ParseGroups(sh.groups) == Ok(sections + Pending(current))
    {
      ghost var ss := sections + Pending(current);
      var kind := Classify(lines[i]);
      KindsPrefix(lines, i + 1);
      ShapeSnoc(Kinds(lines[..i]), kind);
      ParseStep(sh, kind);
      sh := AddLine(sh, kind);
      assert sh == ShapeOf(Kinds(lines[..i + 1]));
      match kind {
        case Blank =>
        case Header(name) =>
          sections := sections + Pending(current);
          current := Some(NewSection(name));
          assert sections + Pending(current) == ss + [NewSection(name)];
        case Entry(line) =>
          if current.Some? {
            assert ss[..|ss| - 1] == sections && ss[|ss| - 1] == current.value;
            var feed := ParseFeed(line);
            if feed.Err? {
              ErrorPersistsAfter(lines, i + 1);
              return Err(feed.error);
            }
            current := Some(Section(current.value.name, current.value.feeds + [feed.value]));
          }
      }
      assert current.None? ==> sections == [];
      i := i + 1;
    }
    KindsPrefix(lines, i);
    r := Ok(FeedConfig(sections + Pending(current)));
  }

  // ---------------------------------------------------------------------------
  // How one more line changes the layout.

  /** The effect of one more line on the shape of what was read before it. */
  function AddLine(sh: Shape, k: LineKind): Shape {
    match k
    case Blank => sh
    case Header(name) => Shape(sh.loose, sh.groups + [Group(name, [])])
    case Entry(t) =>
      if sh.groups == [] then Shape(sh.loose + [t], [])
      else
        var last := sh.groups[|sh.groups| - 1];
        Shape(sh.loose, sh.groups[..|sh.groups| - 1] + [Group(last.name, last.entries + [t])])
  }

  lemma {:induction false} ShapeSnoc(ks: seq<LineKind>, k: LineKind)
    ensures ShapeOf(ks + [k]) == AddLine(ShapeOf(ks), k)
  {
    if ks == [] {
      assert [k][1..] == [];
      PrependAddLine(k, Shape([], []), Blank);
    } else {
      assert (ks + [k])[1..] == ks[1..] + [k];
      ShapeSnoc(ks[1..], k);
      PrependAddLine(ks[0], ShapeOf(ks[1..]), k);
    }
  }

  /** A line added at the front and one added at the back do not interfere. */
  lemma PrependAddLine(first: LineKind, sh: Shape, k: LineKind)
    ensures Prepend(first, AddLine(sh, k)) == AddLine(Prepend(first, sh), k)
  {
    if first.Header? && k.Entry? && sh.groups != [] {
      var gs := [Group(first.name, sh.loose)] + sh.groups;
      assert gs[..|gs| - 1] == [Group(first.name, sh.loose)] + sh.groups[..|sh.groups| - 1];
    }
  }

  /** Reading one more line changes the sections read so far as AddLine says. */
  lemma LayoutSnoc(lines: seq<string>, line: string)
    ensures Layout(lines + [line]) == AddLine(ShapeOf(Kinds(lines)), Classify(line)).groups
  {
    MapSeqSnoc(Classify, lines, line);
    ShapeSnoc(Kinds(lines), Classify(line));
  }

  lemma CollectAllSnoc<X, V, E>(f: X -> Result<V, E>, xs: seq<X>, x: X)
    ensures CollectAll(f, xs + [x]) ==
      match CollectAll(f, xs)
      case Err(e) => Err(e)
      case Ok(vs) =>
        match f(x)
        case Err(e) => Err(e)
        case Ok(v) => Ok(vs + [v])
  {
    assert (xs + [x])[..|xs|] == xs;
  }

  /** How parsing the groups changes when one more line is read. */
  lemma ParseStep(sh: Shape, k: LineKind)
    ensures ParseGroups(AddLine(sh, k).groups) ==
      match ParseGroups(sh.groups)
      case Err(e) => Err(e)
      case Ok(ss) =>
        match k
        case Blank => Ok(ss)
        case Header(name) => Ok(ss + [NewSection(name)])
        case Entry(t) =>
          if ss == [] then Ok(ss)
          else
            match ParseFeed(t)
            case Err(e) => Err(e)
            case Ok(f) => Ok(ss[..|ss| - 1] + [Section(ss[|ss| - 1].name, ss[|ss| - 1].feeds + [f])])
  {
    var gs := sh.groups;
    match k
    case Blank =>
    case Header(name) =>
      CollectAllSnoc(ParseSection, gs, Group(name, []));
    case Entry(t) =>
      if gs != [] {
        var last := gs[|gs| - 1];
        assert gs == gs[..|gs| - 1] + [last];
        CollectAllSnoc(ParseSection, gs[..|gs| - 1], last);
        CollectAllSnoc(ParseSection, gs[..|gs| - 1], Group(last.name, last.entries + [t]));
        CollectAllSnoc(ParseFeed, last.entries, t);
      }
  }

  /** Once a feed line has failed, no later line can make the parse succeed or change its error. */
  lemma {:induction false} ErrorPersistsKinds(ks: seq<LineKind>, more: seq<LineKind>)
    requires ParseGroups(ShapeOf(ks).groups).Err?
    ensures ParseGroups(ShapeOf(ks + more).groups) == ParseGroups(ShapeOf(ks).groups)
    decreases |more|
  {
    if more != [] {
      var init := more[..|more| - 1];
      ErrorPersistsKinds(ks, init);
      assert ks + more == (ks + init) + [more[|more| - 1]];
      ShapeSnoc(ks + init, more[|more| - 1]);
      ParseStep(ShapeOf(ks + init), more[|more| - 1]);
    } else {
      assert ks + more == ks;
    }
  }

  lemma ErrorPersists(lines: seq<string>, more: seq<string>)
    requires ParseGroups(Layout(lines)).Err?
    ensures ParseGroups(Layout(lines + more)) == ParseGroups(Layout(lines))
  {
    KindsConcat(lines, more);
    ErrorPersistsKinds(Kinds(lines), Kinds(more));
  }

  // ---------------------------------------------------------------------------
  // What the parse yields.

  /** CollectAll succeeds iff every call does, and its values are then the calls' values in order. */
  lemma {:induction false} CollectAllOk<X, V, E>(f: X -> Result<V, E>, xs: seq<X>)
    ensures CollectAll(f, xs).Ok? <==> forall j :: 0 <= j < |xs| ==> f(xs[j]).Ok?
    ensures CollectAll(f, xs).Ok? ==> forall j :: 0 <= j < |xs| ==> f(xs[j]) == Ok(CollectAll(f, xs).value[j])
    decreases |xs|
  {
    if xs != [] {
      var init, last := xs[..|xs| - 1], xs[|xs| - 1];
      CollectAllOk(f, init);
      assert forall j :: 0 <= j < |init| ==> init[j] == xs[j];
      if CollectAll(f, init).Ok? && f(last).Ok? {
        var vs := CollectAll(f, xs).value;
        assert vs == CollectAll(f, init).value + [f(last).value];
        forall j | 0 <= j < |xs|
          ensures f(xs[j]) == Ok(vs[j])
        {
          if j < |init| {
            assert vs[j] == CollectAll(f, init).value[j];
          }
        }
      }
    }
  }

  /** Call `j` is the first one that fails. */
  ghost predicate FirstFailure<X, V, E>(f: X -> Result<V, E>, xs: seq<X>, j: int) {
    0 <= j < |xs| && f(xs[j]).Err? && forall i :: 0 <= i < j ==> f(xs[i]).Ok?
  }

  /** A failing CollectAll reports the error of the first call that fails. */
  lemma {:induction false} CollectAllErr<X, V, E>(f: X -> Result<V, E>, xs: seq<X>)
    requires CollectAll(f, xs).Err?
    ensures exists j :: FirstFailure(f, xs, j) && f(xs[j]) == Err(CollectAll(f, xs).error)
    decreases |xs|
  {
    var init, last := xs[..|xs| - 1], xs[|xs| - 1];
    assert forall j :: 0 <= j < |init| ==> init[j] == xs[j];
    if CollectAll(f, init).Err? {
      CollectAllErr(f, init);
      var j :| FirstFailure(f, init, j) && f(init[j]) == Err(CollectAll(f, init).error);
      assert FirstFailure(f, xs, j);
    } else {
      CollectAllOk(f, init);
      assert FirstFailure(f, xs, |xs| - 1);
    }
  }

  /** The names of the header lines, in order. */
  function HeaderNames(ks: seq<LineKind>): (names: seq<string>)
    ensures |names| <= |ks|
  {
    if ks == [] then []
    else if ks[0].Header? then [ks[0].name] + HeaderNames(ks[1..])
    else HeaderNames(ks[1..])
  }

  /** There is one group per header line, in the order of the headers. */
  lemma {:induction false} GroupsFollowHeaders(ks: seq<LineKind>)
    ensures |ShapeOf(ks).groups| == |HeaderNames(ks)|
    ensures forall i :: 0 <= i < |HeaderNames(ks)| ==> ShapeOf(ks).groups[i].name == HeaderNames(ks)[i]
  {
    if ks != [] {
      GroupsFollowHeaders(ks[1..]);
    }
  }

  /**
   * A successful parse has one section per header line, empty ones included,
   * named after the headers and in their order; the feeds of each section are
   * its feed lines parsed one by one, in file order.
   */
  lemma SectionsFollowHeaders(lines: seq<string>)
    requires ParseConfig(lines).Ok?
    ensures |ParseConfig(lines).value.sections| == |HeaderNames(Kinds(lines))|
    ensures forall i :: 0 <= i < |HeaderNames(Kinds(lines))| ==>
      ParseConfig(lines).value.sections[i].name == HeaderNames(Kinds(lines))[i]
    ensures forall i :: 0 <= i < |Layout(lines)| ==>
      |ParseConfig(lines).value.sections[i].feeds| == |Layout(lines)[i].entries|
    ensures forall i, j :: 0 <= i < |Layout(lines)| && 0 <= j < |Layout(lines)[i].entries| ==>
      ParseFeed(Layout(lines)[i].entries[j]) == Ok(ParseConfig(lines).value.sections[i].feeds[j])
  {
    var groups := Layout(lines);
    GroupsFollowHeaders(Kinds(lines));
    CollectAllOk(ParseSection, groups);
    forall i | 0 <= i < |groups|
      ensures |ParseConfig(lines).value.sections[i].feeds| == |groups[i].entries|
      ensures forall j :: 0 <= j < |groups[i].entries| ==>
        ParseFeed(groups[i].entries[j]) == Ok(ParseConfig(lines).value.sections[i].feeds[j])
    {
      CollectAllOk(ParseFeed, groups[i].entries);
    }
  }

  /** The parse fails iff some feed line inside a section is invalid. */
  lemma ParseFailsOnInvalidLine(lines: seq<string>)
    ensures ParseConfig(lines).Err? <==>
      exists i, j :: 0 <= i < |Layout(lines)| && 0 <= j < |Layout(lines)[i].entries| &&
        ParseFeed(Layout(lines)[i].entries[j]).Err?
  {
    var groups := Layout(lines);
    CollectAllOk(ParseSection, groups);
    forall i | 0 <= i < |groups|
      ensures ParseSection(groups[i]).Ok? <==> forall j :: 0 <= j < |groups[i].entries| ==> ParseFeed(groups[i].entries[j]).Ok?
    {
      CollectAllOk(ParseFeed, groups[i].entries);
    }
  }

  /** Lines before the first header that are not headers change nothing. */
  lemma {:induction false} PreambleIgnored(pre: seq<string>, rest: seq<string>)
    requires forall i :: 0 <= i < |pre| ==> !Classify(pre[i]).Header?
    ensures Layout(pre + rest) == Layout(rest)
  {
    KindsConcat(pre, rest);
    NoHeadersNoGroups(Kinds(pre), Kinds(rest));
  }

  lemma {:induction false} NoHeadersNoGroups(pre: seq<LineKind>, rest: seq<LineKind>)
    requires forall i :: 0 <= i < |pre| ==> !pre[i].Header?
    ensures ShapeOf(pre + rest).groups == ShapeOf(rest).groups
  {
    if pre == [] {
      assert pre + rest == rest;
    } else {
      assert (pre + rest)[1..] == pre[1..] + rest;
      NoHeadersNoGroups(pre[1..], rest);
    }
  }

  /** A line that is empty after trimming changes nothing, wherever it stands. */
  lemma BlankLineIgnored(before: seq<string>, blank: string, after: seq<string>)
    requires Trim(blank) == []
    ensures Layout(before + [blank] + after) == Layout(before + after)
  {
    KindsConcat(before + [blank], after);
    KindsConcat(before, [blank]);
    KindsConcat(before, after);
    assert Classify(blank) == Blank;
    assert MapSeq(Classify, [blank])[0] == Classify(blank);
    assert Kinds([blank]) == [Blank];
    BlankKindIgnored(Kinds(before), Kinds(after));
  }

  lemma {:induction false} BlankKindIgnored(ks: seq<LineKind>, rest: seq<LineKind>)
    ensures ShapeOf(ks + [Blank] + rest) == ShapeOf(ks + rest)
  {
    if ks == [] {
      assert ([] + [Blank] + rest)[1..] == rest;
      assert [] + rest == rest;
    } else {
      assert (ks + [Blank] + rest)[1..] == ks[1..] + [Blank] + rest;
      assert (ks + rest)[1..] == ks[1..] + rest;
      BlankKindIgnored(ks[1..], rest);
    }
  }
}

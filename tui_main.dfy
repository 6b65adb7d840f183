/**
 * The main page of src/tui/main.rs: the feed config flattened into rows, one
 * header, the feeds and a spacer per section, of which only the feed rows can
 * be selected.
 */
module TuiMain {
  import opened Wrappers
  import opened Config
  import opened Tui

  /** `MainRow`: a row of the main page. */
  datatype MainRow = SectionHeader(name: string) | FeedRow(name: string) | Spacer

  /** `MainRow::selectable`: only feed rows can be selected. */
  predicate IsFeedRow(row: MainRow)
    ensures IsFeedRow(row) <==> !row.SectionHeader? && !row.Spacer?
  {
    row.FeedRow?
  }

  /** The rows of the feeds of one section, in order. */
  function FeedRows(feeds: seq<Feed>): seq<MainRow>
    decreases |feeds|
  {
    if feeds == [] then [] else FeedRows(feeds[..|feeds| - 1]) + [FeedRow(feeds[|feeds| - 1].name)]
  }

  /** The rows of one section: its header, its feeds and a spacer. */
  function SectionRows(s: Section): seq<MainRow> {
    [SectionHeader(s.name)] + FeedRows(s.feeds) + [Spacer]
  }

  /** The rows of the main page for the given sections, section by section. */
  function RowsOf(sections: seq<Section>): seq<MainRow>
    decreases |sections|
  {
    if sections == [] then [] else RowsOf(sections[..|sections| - 1]) + SectionRows(sections[|sections| - 1])
  }

  /** The number of feeds over all the sections. */
  function TotalFeeds(sections: seq<Section>): nat
    decreases |sections|
  {
    if sections == [] then 0 else TotalFeeds(sections[..|sections| - 1]) + |sections[|sections| - 1].feeds|
  }

  /** The position of the header row of section `i`. */
  function SectionStart(sections: seq<Section>, i: nat): nat
    requires i <= |sections|
  {
    TotalFeeds(sections[..i]) + 2 * i
  }

  /** One feed row per feed, each with that feed's name. */
  lemma {:induction false} FeedRowsShape(feeds: seq<Feed>)
    ensures |FeedRows(feeds)| == |feeds|
    ensures forall j :: 0 <= j < |feeds| ==> FeedRows(feeds)[j] == FeedRow(feeds[j].name)
    decreases |feeds|
  {
    if feeds != [] {
      var init := feeds[..|feeds| - 1];
      FeedRowsShape(init);
      assert forall j :: 0 <= j < |init| ==> init[j] == feeds[j];
    }
  }

  /** Every feed row is selectable. */
  lemma {:induction false} FeedRowsSelectable(feeds: seq<Feed>)
    ensures CountSelectable(FeedRows(feeds), IsFeedRow) == |feeds|
    decreases |feeds|
  {
    if feeds != [] {
      var init := feeds[..|feeds| - 1];
      FeedRowsSelectable(init);
      var rows := FeedRows(feeds);
      assert rows[..|rows| - 1] == FeedRows(init);
    }
  }

  lemma {:induction false} RowsOfConcat(a: seq<Section>, b: seq<Section>)
    ensures RowsOf(a + b) == RowsOf(a) + RowsOf(b)
    decreases |b|
  {
    if b == [] {
      assert a + b == a;
    } else {
      var init, last := b[..|b| - 1], b[|b| - 1];
      assert (a + b)[..|a + b| - 1] == a + init;
      assert (a + b)[|a + b| - 1] == last;
      RowsOfConcat(a, init);
      calc {
        RowsOf(a + b);
        RowsOf(a + init) + SectionRows(last);
        RowsOf(a) + RowsOf(init) + SectionRows(last);
        RowsOf(a) + (RowsOf(init) + SectionRows(last));
      }
    }
  }

  lemma {:induction false} TotalFeedsConcat(a: seq<Section>, b: seq<Section>)
    ensures TotalFeeds(a + b) == TotalFeeds(a) + TotalFeeds(b)
    decreases |b|
  {
    if b == [] {
      assert a + b == a;
    } else {
      var init := b[..|b| - 1];
      assert (a + b)[..|a + b| - 1] == a + init;
      assert (a + b)[|a + b| - 1] == b[|b| - 1];
      TotalFeedsConcat(a, init);
    }
  }

  /** The page has two rows per section besides one per feed. */
  lemma {:induction false} RowCount(sections: seq<Section>)
    ensures |RowsOf(sections)| == TotalFeeds(sections) + 2 * |sections|
    decreases |sections|
  {
    if sections != [] {
      RowCount(sections[..|sections| - 1]);
      FeedRowsShape(sections[|sections| - 1].feeds);
    }
  }

  /** The rows of section `i` sit between those of the sections before and after it. */
  lemma SectionSplit(sections: seq<Section>, i: nat)
    requires i < |sections|
    ensures RowsOf(sections) == RowsOf(sections[..i]) + SectionRows(sections[i]) + RowsOf(sections[i + 1..])
  {
    var before, here, rest := sections[..i], [sections[i]], sections[i + 1..];
    var whole := (before + here) + rest;
    assert |whole| == |sections|;
    forall k | 0 <= k < |whole|
      ensures whole[k] == sections[k]
    {
      if k < i {
        assert whole[k] == before[k];
      } else if k == i {
        assert whole[k] == here[0];
      } else {
        assert whole[k] == rest[k - i - 1];
      }
    }
    assert whole == sections;
    RowsOfConcat(before + here, rest);
    RowsOfConcat(before, here);
    assert here[..0] == [];
    assert RowsOf(here) == RowsOf([]) + SectionRows(sections[i]);
  }

  /** From position `start` on, `rows` holds the header of `s`, then its feeds in order, then a spacer. */
  predicate SectionPlaced(rows: seq<MainRow>, start: nat, s: Section) {
    start + |s.feeds| + 1 < |rows| &&
    rows[start] == SectionHeader(s.name) &&
    (forall j :: 0 <= j < |s.feeds| ==> rows[start + 1 + j] == FeedRow(s.feeds[j].name)) &&
    rows[start + |s.feeds| + 1] == Spacer
  }

  /**
   * Section `i` occupies the rows from `SectionStart(sections, i)` on: its
   * header, then its feeds in order, then a spacer.
   */
  lemma RowPositions(sections: seq<Section>, i: nat)
    requires i < |sections|
    ensures SectionPlaced(RowsOf(sections), SectionStart(sections, i), sections[i])
  {
    var prefix, rest := RowsOf(sections[..i]), RowsOf(sections[i + 1..]);
    assert RowsOf(sections) == prefix + SectionRows(sections[i]) + rest by {
      SectionSplit(sections, i);
    }
    assert |prefix| == SectionStart(sections, i) by {
      RowCount(sections[..i]);
    }
    SectionAt(prefix, sections[i], rest);
  }

  /** The rows of a section placed after `prefix` start at position `|prefix|`. */
  lemma SectionAt(prefix: seq<MainRow>, s: Section, rest: seq<MainRow>)
    ensures SectionPlaced(prefix + SectionRows(s) + rest, |prefix|, s)
  {
    SectionRowsShape(s);
    var own := SectionRows(s);
    forall k | 0 <= k < |own|
      ensures (prefix + own + rest)[|prefix| + k] == own[k]
    {
      IndexMiddle(prefix, own, rest, k);
    }
  }

  /** The rows of one section: the header first, then the feeds in order, then the spacer. */
  lemma SectionRowsShape(s: Section)
    ensures |SectionRows(s)| == |s.feeds| + 2
    ensures SectionRows(s)[0] == SectionHeader(s.name)
    ensures forall j :: 0 <= j < |s.feeds| ==> SectionRows(s)[1 + j] == FeedRow(s.feeds[j].name)
    ensures SectionRows(s)[|s.feeds| + 1] == Spacer
  {
    FeedRowsShape(s.feeds);
    var head, body, tail := [SectionHeader(s.name)], FeedRows(s.feeds), [Spacer];
    IndexMiddle(head + body, tail, [], 0);
    forall j | 0 <= j < |s.feeds|
      ensures SectionRows(s)[1 + j] == FeedRow(s.feeds[j].name)
    {
      IndexMiddle(head, body, tail, j);
    }
  }

  /** An element of the middle part of a concatenation, by its position in that part. */
  lemma IndexMiddle<T>(a: seq<T>, b: seq<T>, c: seq<T>, k: nat)
    requires k < |b|
    ensures |a| + k < |a + b + c| && (a + b + c)[|a| + k] == b[k]
  {
  }

  /** The selectable rows are exactly as many as the feeds. */
  lemma {:induction false} SelectableRowCount(sections: seq<Section>)
    ensures CountSelectable(RowsOf(sections), IsFeedRow) == TotalFeeds(sections)
    ensures |SelectableIndices(RowsOf(sections), IsFeedRow)| == TotalFeeds(sections)
    decreases |sections|
  {
    SelectableIndicesCount(RowsOf(sections), IsFeedRow);
    if sections != [] {
      var init := sections[..|sections| - 1];
      var last := sections[|sections| - 1];
      SelectableRowCount(init);
      TotalFeedsConcat(init, [last]);
      CountSelectableConcat(RowsOf(init), SectionRows(last), IsFeedRow);
      CountSelectableConcat([SectionHeader(last.name)], FeedRows(last.feeds), IsFeedRow);
      CountSelectableConcat([SectionHeader(last.name)] + FeedRows(last.feeds), [Spacer], IsFeedRow);
      FeedRowsSelectable(last.feeds);
      assert [SectionHeader(last.name)][..0] == [];
      assert [Spacer][..0] == [];
    }
  }

  /**
   * The initial selection of the main page: none when there are no feeds,
   * otherwise the first feed row.
   */
  lemma InitialSelection(sections: seq<Section>)
    ensures var first := Get(SelectableIndices(RowsOf(sections), IsFeedRow), 0);
      first.None? <==> TotalFeeds(sections) == 0
    ensures var rows, first := RowsOf(sections), Get(SelectableIndices(RowsOf(sections), IsFeedRow), 0);
      first.Some? ==> first.value < |rows| && rows[first.value].FeedRow? && forall p :: 0 <= p < first.value ==> !rows[p].FeedRow?
  {
    SelectableRowCount(sections);
    FirstSelectable(RowsOf(sections), IsFeedRow);
  }

  /** The loop of `MainPage::new` that builds the rows. */
  method BuildRows(config: FeedConfig) returns (rows: seq<MainRow>)
    ensures rows == RowsOf(config.sections)
  {
    var sections := config.sections;
    rows := [];
    var i := 0;
    while i < |sections|
      invariant i <= |sections|
      invariant rows == RowsOf(sections[..i])
    {
      var section := sections[i];
      rows := rows + [SectionHeader(section.name)];
      ghost var before := rows;
      var j := 0;
      while j < |section.feeds|
        invariant j <= |section.feeds|
        invariant rows == before + FeedRows(section.feeds[..j])
      {
        FeedRowsStep(section.feeds, j);
        rows := rows + [FeedRow(section.feeds[j].name)];
        j := j + 1;
      }
      assert section.feeds[..|section.feeds|] == section.feeds;
      rows := rows + [Spacer];
      RowsOfStep(sections, i);
      i := i + 1;
    }
    assert sections[..|sections|] == sections;
  }

  /** The feed rows of one more feed. */
  lemma FeedRowsStep(feeds: seq<Feed>, j: nat)
    requires j < |feeds|
    ensures FeedRows(feeds[..j + 1]) == FeedRows(feeds[..j]) + [FeedRow(feeds[j].name)]
  {
    assert feeds[..j + 1][..j] == feeds[..j];
  }

  /** The rows of one more section. */
  lemma RowsOfStep(sections: seq<Section>, i: nat)
    requires i < |sections|
    ensures RowsOf(sections[..i + 1]) == RowsOf(sections[..i]) + [SectionHeader(sections[i].name)] + FeedRows(sections[i].feeds) + [Spacer]
  {
    assert sections[..i + 1][..i] == sections[..i];
  }

  /** `MainPage`: the list of rows. */
  class MainPage {
    const list: ListPage<MainRow>

    /** `MainPage::new`: the rows of the config, the first feed row selected if there is one. */
    constructor(config: FeedConfig)
      ensures fresh(list)
      ensures list.Valid() && list.items == RowsOf(config.sections) && list.isSelectable == IsFeedRow
      ensures list.selected == 0 && list.state == Get(SelectableIndices(RowsOf(config.sections), IsFeedRow), 0)
    {
      var rows := BuildRows(config);
      list := new ListPage(rows, IsFeedRow);
    }

    /**
     * `MainPage::on_key`: Enter or `l` on a feed row opens that feed's page;
     * any other key, or a row that is not a feed, does nothing.
     */
    function OnKey(key: Key): (action: PageAction)
      reads this, list
      ensures action.NewPage? <==> (key == Enter || key == Char('l')) && list.SelectedItem().Some? && list.SelectedItem().value.FeedRow?
      ensures action.NewPage? ==> action.page == FeedView(list.SelectedItem().value.name)
      ensures !action.NewPage? ==> action == NoAction
    {
      match key
      case Enter => Open(list.SelectedItem())
      case Char(c) => if c == 'l' then Open(list.SelectedItem()) else NoAction
      case _ => NoAction
    }
  }

  /** The page a selected row opens, if it is a feed row. */
  function Open(row: Option<MainRow>): PageAction {
    match row
    case Some(FeedRow(name)) => NewPage(FeedView(name))
    case _ => NoAction
  }
}

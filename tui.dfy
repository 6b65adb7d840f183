/**
 * The page-independent parts of the terminal UI of src/tui.rs: a list page
 * whose cursor moves over the selectable items only, and the download
 * spinner. Instants are integer milliseconds.
 */
module Tui {
  import opened Wrappers
  import opened Config

  // ---------------------------------------------------------------------------
  // Pages and keys.

  /** The pages of the UI, by what they show. */
  datatype Page = MainView | FeedView(name: string)

  /** `PageAction`: what a page asks the app to do after a key. */
  datatype PageAction = NoAction | NewPage(page: Page) | DownloadFeed(feed: FeedId) | DownloadAllFeeds

  /** The keys the pages look at. */
  datatype Key = Enter | Esc | Up | Down | PageUp | PageDown | Char(c: char) | OtherKey

  // ---------------------------------------------------------------------------
  // Selectable lists.

  /** The positions of the selectable items, in increasing order. */
  function SelectableIndices<T>(items: seq<T>, isSelectable: T -> bool): (idx: seq<nat>)
    ensures forall k :: 0 <= k < |idx| ==> idx[k] < |items| && isSelectable(items[idx[k]])
    ensures forall k, l :: 0 <= k < l < |idx| ==> idx[k] < idx[l]
    decreases |items|
  {
    if items == [] then []
    else
      var init := items[..|items| - 1];
      var before := SelectableIndices(init, isSelectable);
      assert forall k :: 0 <= k < |before| ==> items[before[k]] == init[before[k]];
      if isSelectable(items[|items| - 1]) then before + [|items| - 1] else before
  }

  /** Every selectable item has its position listed. */
  lemma {:induction false} SelectableIndicesComplete<T>(items: seq<T>, isSelectable: T -> bool)
    ensures forall i :: 0 <= i < |items| && isSelectable(items[i]) ==> i in SelectableIndices(items, isSelectable)
    decreases |items|
  {
    if items != [] {
      var init := items[..|items| - 1];
      SelectableIndicesComplete(init, isSelectable);
      assert forall i :: 0 <= i < |init| ==> init[i] == items[i];
    }
  }

  /** The number of selectable items. */
  function CountSelectable<T>(items: seq<T>, isSelectable: T -> bool): nat
    decreases |items|
  {
    if items == [] then 0
    else CountSelectable(items[..|items| - 1], isSelectable) + (if isSelectable(items[|items| - 1]) then 1 else 0)
  }

  lemma {:induction false} SelectableIndicesCount<T>(items: seq<T>, isSelectable: T -> bool)
    ensures |SelectableIndices(items, isSelectable)| == CountSelectable(items, isSelectable)
    decreases |items|
  {
    if items != [] {
      SelectableIndicesCount(items[..|items| - 1], isSelectable);
    }
  }

  lemma {:induction false} CountSelectableConcat<T>(a: seq<T>, b: seq<T>, isSelectable: T -> bool)
    ensures CountSelectable(a + b, isSelectable) == CountSelectable(a, isSelectable) + CountSelectable(b, isSelectable)
    decreases |b|
  {
    if b == [] {
      assert a + b == a;
    } else {
      assert (a + b)[..|a + b| - 1] == a + b[..|b| - 1];
      CountSelectableConcat(a, b[..|b| - 1], isSelectable);
    }
  }

  /** The first listed position is the first selectable item; none is listed iff none is selectable. */
  lemma FirstSelectable<T>(items: seq<T>, isSelectable: T -> bool)
    ensures var idx := SelectableIndices(items, isSelectable);
      idx == [] <==> forall i :: 0 <= i < |items| ==> !isSelectable(items[i])
    ensures var idx := SelectableIndices(items, isSelectable);
      idx != [] ==> forall i :: 0 <= i < idx[0] ==> !isSelectable(items[i])
  {
    var idx := SelectableIndices(items, isSelectable);
    SelectableIndicesComplete(items, isSelectable);
    forall i | 0 <= i < |items| && isSelectable(items[i])
      ensures idx != [] && idx[0] <= i
    {
      var k :| 0 <= k < |idx| && idx[k] == i;
      if k > 0 {
        assert idx[0] < idx[k];
      }
    }
  }

  /** The largest value of a cursor into `n` selectable items: the last position, or 0. */
  function MaxCursor(n: nat): nat {
    if n == 0 then 0 else n - 1
  }

  /**
   * `ListPage`: the items, the positions of the selectable ones, the cursor
   * `selected` into those positions, and the selection shown by the list
   * widget (`state`).
   */
  class ListPage<T> {
    const items: seq<T>
    const isSelectable: T -> bool
    const selectable: seq<nat>
    var selected: nat
    var state: Option<nat>

    ghost predicate Valid()
      reads this
    {
      selectable == SelectableIndices(items, isSelectable) && selected <= MaxCursor(|selectable|)
    }

    /** `ListPage::new`: the cursor on the first selectable item, which the widget shows. */
    constructor(items: seq<T>, isSelectable: T -> bool)
      ensures Valid()
      ensures this.items == items && this.isSelectable == isSelectable
      ensures selected == 0
      ensures state == Get(SelectableIndices(items, isSelectable), 0)
    {
      this.items := items;
      this.isSelectable := isSelectable;
      var positions := SelectableIndices(items, isSelectable);
      selectable := positions;
      selected := 0;
      state := Get(positions, 0);
    }

    /** `ListPage::selected_item`: there is one iff some item is selectable, and it is selectable. */
    function SelectedItem(): (r: Option<T>)
      reads this
      ensures Valid() ==> (r.Some? <==> |selectable| > 0)
      ensures Valid() && r.Some? ==> isSelectable(r.value) && r.value == items[selectable[selected]]
    {
      match Get(selectable, selected)
      case Some(i) => Get(items, i)
      case None => None
    }

    /** `ListPage::update_state`: the widget shows the item under the cursor, if there is one. */
    method UpdateState()
      modifies this
      ensures selected == old(selected)
      ensures state == Get(selectable, selected)
    {
      state := Get(selectable, selected);
    }

    /** `NavigableList::up`: moves the cursor back by `amount`, stopping at the first position. */
    method Up(amount: nat)
      requires Valid()
      modifies this
      ensures Valid()
      ensures selected == if old(selected) >= amount then old(selected) - amount else 0
      ensures state == Get(selectable, selected)
      ensures state.Some? <==> |selectable| > 0
    {
      selected := if selected >= amount then selected - amount else 0;
      UpdateState();
    }

    /** `NavigableList::down`: moves the cursor on by `amount`, stopping at the last position. */
    method Down(amount: nat)
      requires Valid()
      modifies this
      ensures Valid()
      ensures selected == if old(selected) + amount <= MaxCursor(|selectable|) then old(selected) + amount else MaxCursor(|selectable|)
      ensures state == Get(selectable, selected)
      ensures state.Some? <==> |selectable| > 0
    {
      var max := if |selectable| == 0 then 0 else |selectable| - 1;
      selected := if selected + amount <= max then selected + amount else max;
      UpdateState();
    }
  }

  // ---------------------------------------------------------------------------
  // The spinner.

  /** The frames of the spinner, in order. */
  const FRAMES: seq<char> := ['\U{280B}', '\U{2819}', '\U{2839}', '\U{2838}', '\U{283C}',
                              '\U{2834}', '\U{2826}', '\U{2827}', '\U{2807}', '\U{280F}']

  /** How long one frame is shown, in milliseconds. */
  const FRAME_TIME: nat := 120

  /** `Instant::duration_since`, which is zero when `earlier` is in fact later. */
  function Elapsed(earlier: int, now: int): (d: nat)
    ensures now >= earlier ==> d == now - earlier
    ensures now < earlier ==> d == 0
  {
    if now >= earlier then now - earlier else 0
  }

  /** The frame after frame `i`, wrapping around. */
  function NextFrame(i: nat): (j: nat)
    requires i < |FRAMES|
    ensures j < |FRAMES|
  {
    (i + 1) % |FRAMES|
  }

  /** `n` frame advances from frame `i`. */
  function Advance(i: nat, n: nat): (j: nat)
    requires i < |FRAMES|
    ensures j < |FRAMES|
    decreases n
  {
    if n == 0 then i else Advance(NextFrame(i), n - 1)
  }

  /** Advancing `n` frames counts modulo the number of frames. */
  lemma {:induction false} AdvanceModular(i: nat, n: nat)
    requires i < |FRAMES|
    ensures Advance(i, n) == (i + n) % |FRAMES|
    decreases n
  {
    assert |FRAMES| == 10;
    if n > 0 {
      var j := NextFrame(i);
      AdvanceModular(j, n - 1);
      if i + 1 < 10 {
        assert j == i + 1;
      } else {
        assert j == 0;
        assert (i + n) % 10 == (n - 1) % 10 by {
          assert i + n == (n - 1) + 10;
        }
      }
    }
  }

  /** After ten advances, and not before, the spinner shows the frame it started from. */
  lemma TenFramesCycle(i: nat)
    requires i < |FRAMES|
    ensures Advance(i, 10) == i
    ensures forall n :: 0 < n < 10 ==> Advance(i, n) != i
  {
    AdvanceModular(i, 10);
    assert (i + 10) % 10 == i;
    forall n | 0 < n < 10
      ensures Advance(i, n) != i
    {
      FewerFramesMove(i, n);
    }
  }

  /** Fewer than ten advances leave the starting frame. */
  lemma FewerFramesMove(i: nat, n: nat)
    requires i < |FRAMES| && 0 < n < 10
    ensures Advance(i, n) != i
  {
    AdvanceModular(i, n);
    if i + n < 10 {
      assert (i + n) % 10 == i + n;
    } else {
      assert (i + n) % 10 == i + n - 10;
    }
  }

  /** No two frames look the same. */
  lemma FramesDistinct()
    ensures forall i, j :: 0 <= i < j < |FRAMES| ==> FRAMES[i] != FRAMES[j]
  {
  }

  /** `Spinner`: the frame shown and the instant it was first shown. */
  class Spinner {
    var frameIdx: nat
    var lastTick: int

    ghost predicate Valid()
      reads this
    {
      frameIdx < |FRAMES|
    }

    /** `Spinner::new`, `now` being the clock's reading. */
    constructor(now: int)
      ensures Valid() && frameIdx == 0 && lastTick == now
    {
      frameIdx := 0;
      lastTick := now;
    }

    /** `Spinner::tick`: moves to the next frame once the current one has been shown long enough. */
    method Tick(now: int)
      requires Valid()
      modifies this
      ensures Valid()
      ensures Elapsed(old(lastTick), now) >= FRAME_TIME ==> frameIdx == NextFrame(old(frameIdx)) && lastTick == now
      ensures Elapsed(old(lastTick), now) < FRAME_TIME ==> frameIdx == old(frameIdx) && lastTick == old(lastTick)
    {
      if Elapsed(lastTick, now) >= FRAME_TIME {
        frameIdx := (frameIdx + 1) % |FRAMES|;
        lastTick := now;
      }
    }

    /** `Spinner::frame`. */
    function Frame(): (c: char)
      requires Valid()
      reads this
      ensures c in FRAMES && c == FRAMES[frameIdx]
    {
      FRAMES[frameIdx]
    }

    /** `Spinner::reset`: back to the first frame, shown from `now`. */
    method Reset(now: int)
      modifies this
      ensures Valid() && frameIdx == 0 && lastTick == now
    {
      frameIdx := 0;
      lastTick := now;
    }
  }
}

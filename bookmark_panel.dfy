/** The window's copy of the bookmark list (src/ui/components/quran/BookmarkPanel.tsx):
    the reducers the panel runs on the store's events, the surah filter and the list
    of surah options. React state updates are modelled as the pure list transforms
    they apply. */
module BookmarkPanel {
  import opened Wrappers
  import opened Seqs
  import opened Bookmarks

  function IdIsNot(id: string): Bookmark -> bool {
    (b: Bookmark) => b.id != id
  }

  /** `bookmark-added`: `[bookmark, ...prev]`. */
  function OnAdded(prev: seq<Bookmark>, b: Bookmark): (r: seq<Bookmark>)
    ensures |r| == |prev| + 1 && r[0] == b && r[1..] == prev
  {
    [b] + prev
  }

  /** `bookmark-removed`: `prev.filter(b => b.id !== id)` drops EVERY entry with that
      id and keeps the others in order. */
  function OnRemoved(prev: seq<Bookmark>, id: string): (r: seq<Bookmark>)
    ensures |r| <= |prev|
    ensures forall i :: 0 <= i < |r| ==> r[i].id != id
    ensures forall i :: 0 <= i < |prev| && prev[i].id != id ==> prev[i] in r
    ensures forall i :: 0 <= i < |r| ==> r[i] in prev
    ensures forall x :: multiset(r)[x] == if x.id != id then multiset(prev)[x] else 0
  {
    FilterCounts(prev, IdIsNot(id));
    Filter(prev, IdIsNot(id))
  }

  /** The removal works entry by entry and keeps the order: a one-entry list keeps its
      entry iff the id differs, and the removal of a concatenation is the
      concatenation of the removals. */
  lemma OnRemovedKeepsOrder(a: seq<Bookmark>, b: seq<Bookmark>, id: string)
    ensures OnRemoved(a + b, id) == OnRemoved(a, id) + OnRemoved(b, id)
    ensures |a| == 1 ==> OnRemoved(a, id) == (if a[0].id != id then a else [])
  {
    FilterAppend(a, b, IdIsNot(id));
    if |a| == 1 {
      assert a[1..] == [];
    }
  }

  /** `bookmark-updated`: every entry with the received id is replaced by the received
      record; the others and the length are unchanged. */
  function OnUpdated(prev: seq<Bookmark>, b: Bookmark): (r: seq<Bookmark>)
    ensures |r| == |prev|
    ensures forall i :: 0 <= i < |prev| && prev[i].id == b.id ==> r[i] == b
    ensures forall i :: 0 <= i < |prev| && prev[i].id != b.id ==> r[i] == prev[i]
  {
    seq(|prev|, i requires 0 <= i < |prev| => if prev[i].id == b.id then b else prev[i])
  }

  /** What the panel does with one message of the store. It subscribes to no
      `bookmarks-cleared` channel, so a clear leaves its list as it was. */
  function Apply(view: seq<Bookmark>, e: BookmarkEvent): (r: seq<Bookmark>)
    ensures e.BookmarkAdded? ==> |r| == |view| + 1 && r[0] == e.added && r[1..] == view
    ensures e.BookmarkRemoved? ==>
      && |r| <= |view|
      && (forall i :: 0 <= i < |r| ==> r[i].id != e.removedId && r[i] in view)
      && (forall i :: 0 <= i < |view| && view[i].id != e.removedId ==> view[i] in r)
      && (forall x :: multiset(r)[x] == if x.id != e.removedId then multiset(view)[x] else 0)
      && r == OnRemoved(view, e.removedId)
    ensures e.BookmarkUpdated? ==> |r| == |view| && forall i :: 0 <= i < |view| ==>
      r[i] == (if view[i].id == e.updated.id then e.updated else view[i])
    ensures e.BookmarksCleared? ==> r == view
  {
    match e
    case BookmarkAdded(b) => OnAdded(view, b)
    case BookmarkRemoved(id) => OnRemoved(view, id)
    case BookmarkUpdated(b) => OnUpdated(view, b)
    case BookmarksCleared => view
  }

  function ApplyAll(view: seq<Bookmark>, events: seq<BookmarkEvent>): seq<Bookmark>
    decreases |events|
  {
    if |events| == 0 then view else ApplyAll(Apply(view, events[0]), events[1..])
  }

  /** `filteredBookmarks`: no surah selected (`null` or `0`, both falsy) shows the
      whole list; otherwise exactly the bookmarks of that surah, in order. */
  function FilteredBookmarks(bs: seq<Bookmark>, selected: Option<int>): (r: seq<Bookmark>)
    ensures (selected.None? || selected == Some(0)) ==> r == bs
    ensures selected.Some? && selected.value != 0 ==>
      r == Filter(bs, SurahIs(selected.value)) && forall i :: 0 <= i < |r| ==> r[i].surahNumber == selected.value
  {
    if selected.None? || selected.value == 0 then bs else Filter(bs, SurahIs(selected.value))
  }

  function SurahNumbers(bs: seq<Bookmark>): (r: seq<int>)
    ensures |r| == |bs| && forall i :: 0 <= i < |bs| ==> r[i] == bs[i].surahNumber
  {
    seq(|bs|, i requires 0 <= i < |bs| => bs[i].surahNumber)
  }

  /** The surah options, `Array.from(new Set(bookmarks.map(b => b.surahNumber)))`:
      distinct, each the surah of some bookmark, every bookmark's surah present. */
  function SurahOptions(bs: seq<Bookmark>): (r: seq<int>)
    ensures NoDuplicates(r)
    ensures forall k :: 0 <= k < |r| ==> exists i :: 0 <= i < |bs| && bs[i].surahNumber == r[k]
    ensures forall i :: 0 <= i < |bs| ==> bs[i].surahNumber in r
  {
    var ns := SurahNumbers(bs);
    var r := Distinct(ns);
    assert forall k :: 0 <= k < |r| ==> exists i :: 0 <= i < |ns| && ns[i] == r[k];
    r
  }

  /** The options are in first-occurrence order: the options of the newest `k`
      bookmarks open the option list. */
  lemma SurahOptionsPrefix(bs: seq<Bookmark>, k: nat)
    requires k <= |bs|
    ensures SurahOptions(bs[..k]) <= SurahOptions(bs)
  {
    assert SurahNumbers(bs[..k]) == SurahNumbers(bs)[..k];
    DistinctPrefix(SurahNumbers(bs), k);
  }

  /** When ids are unique the panel's remove agrees with the store's: dropping every
      match is dropping the first one. */
  lemma OnRemovedMatchesStore(prev: seq<Bookmark>, id: string)
    requires UniqueIds(prev)
    ensures FirstIndex(prev, IdIs(id)).None? ==> OnRemoved(prev, id) == prev
    ensures FirstIndex(prev, IdIs(id)).Some? ==> OnRemoved(prev, id) == RemoveAt(prev, FirstIndex(prev, IdIs(id)).value)
  {
    var p := IdIsNot(id);
    match FirstIndex(prev, IdIs(id))
    case None =>
      FilterKeepsAll(prev, p);
    case Some(i) =>
      assert forall j :: 0 <= j < |prev| && j != i ==> p(prev[j]) by {
        forall j | 0 <= j < |prev| && j != i
          ensures prev[j].id != id
        {
          if j < i {
            assert prev[j].id != prev[i].id;
          } else {
            assert prev[i].id != prev[j].id;
          }
        }
      }
      FilterDropsOne(prev, p, i);
  }

  /** When ids are unique the panel's update agrees with the store's note update. */
  lemma OnUpdatedMatchesStore(prev: seq<Bookmark>, i: nat, note: string)
    requires UniqueIds(prev) && i < |prev|
    ensures OnUpdated(prev, prev[i].(note := Some(note))) == prev[i := prev[i].(note := Some(note))]
  {
  }

  /** With a shared id the two copies part ways: the store drops one bookmark, the
      panel both. */
  lemma OnRemovedDropsDuplicates(a: Bookmark, b: Bookmark)
    requires a.id == b.id
    ensures OnRemoved([a, b], a.id) == []
    ensures RemoveAt([a, b], FirstIndex([a, b], IdIs(a.id)).value) == [b]
  {
    var p := IdIsNot(a.id);
    assert [a, b][1..] == [b];
    assert [b][1..] == [];
    assert !p(a) && !p(b);
    assert Filter([b], p) == Filter([], p) == [];
  }

  /** Starting from the store's list, the panel follows an add. */
  method PanelFollowsAdd(m: BookmarkManager, d: BookmarkDraft, idClock: nat, stampClock: nat)
    modifies m
    ensures old(m.sent) <= m.sent
    ensures ApplyAll(old(m.bookmarks), m.sent[|old(m.sent)|..]) == m.bookmarks
  {
    ghost var view := m.bookmarks;
    ghost var n := |m.sent|;
    var b := m.AddBookmark(d, idClock, stampClock);
    assert m.sent[n..] == [BookmarkAdded(b)];
  }

  /** Starting from the store's list with unique ids, the panel follows a remove. */
  method PanelFollowsRemove(m: BookmarkManager, id: string)
    requires UniqueIds(m.bookmarks)
    modifies m
    ensures old(m.sent) <= m.sent
    ensures ApplyAll(old(m.bookmarks), m.sent[|old(m.sent)|..]) == m.bookmarks
  {
    ghost var view := m.bookmarks;
    ghost var n := |m.sent|;
    OnRemovedMatchesStore(view, id);
    var r := m.RemoveBookmark(id);
    if r.Some? {
      assert m.sent[n..] == [BookmarkRemoved(id)];
    } else {
      assert m.sent[n..] == [];
    }
  }

  /** After a clear the store is empty but the panel still shows its old list. */
  method PanelMissesClear(m: BookmarkManager)
    modifies m
    ensures m.bookmarks == []
    ensures old(m.sent) <= m.sent
    ensures ApplyAll(old(m.bookmarks), m.sent[|old(m.sent)|..]) == old(m.bookmarks)
  {
    ghost var view := m.bookmarks;
    ghost var n := |m.sent|;
    m.ClearAllBookmarks();
    assert m.sent[n..] == [BookmarksCleared];
  }
}

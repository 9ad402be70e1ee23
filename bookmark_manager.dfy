/** The bookmark store of the desktop shell (src/electron/bookmarkManager.ts): an
    in-memory list kept newest first, written whole to `bookmarks.json` after every
    change and announced to the window on one event channel per kind of change.
    The file is `Option<list>` (absent or unparseable is `None`); the events sent to
    the window are an append-only log. */
module Bookmarks {
  import opened Wrappers
  import opened Seqs
  import Decimal

  datatype Bookmark = Bookmark(
    id: string,
    surahNumber: int,
    surahName: string,
    ayahNumber: int,
    text: string,
    timestamp: nat,
    note: Option<string>)

  /** What `addBookmark` receives: a bookmark without `id` and `timestamp`. */
  datatype BookmarkDraft = BookmarkDraft(
    surahNumber: int,
    surahName: string,
    ayahNumber: int,
    text: string,
    note: Option<string>)

  /** One message on the channels `bookmark-added`, `bookmark-removed`,
      `bookmark-updated` and `bookmarks-cleared`, with its payload. */
  datatype BookmarkEvent =
    | BookmarkAdded(added: Bookmark)
    | BookmarkRemoved(removedId: string)
    | BookmarkUpdated(updated: Bookmark)
    | BookmarksCleared

  function IdIs(id: string): Bookmark -> bool {
    (b: Bookmark) => b.id == id
  }

  function SurahIs(n: int): Bookmark -> bool {
    (b: Bookmark) => b.surahNumber == n
  }

  /** The draft a bookmark was made from: everything but the generated fields. */
  function DraftOf(b: Bookmark): BookmarkDraft {
    BookmarkDraft(b.surahNumber, b.surahName, b.ayahNumber, b.text, b.note)
  }

  /** The record `addBookmark` builds: the draft's fields, `id` the decimal string of
      the first clock reading and `timestamp` the second (the source reads
      `Date.now()` twice). */
  function Stamp(d: BookmarkDraft, idClock: nat, stampClock: nat): (b: Bookmark)
    ensures DraftOf(b) == d
    ensures b.id == Decimal.NatToString(idClock) && b.timestamp == stampClock
  {
    Bookmark(Decimal.NatToString(idClock), d.surahNumber, d.surahName, d.ayahNumber, d.text, stampClock, d.note)
  }

  /** The generated id is the clock reading written in decimal: it reads back as that
      reading, and equals the timestamp's digits when the clock did not move between
      the two reads. */
  lemma StampIdReadsBack(d: BookmarkDraft, idClock: nat, stampClock: nat)
    ensures Decimal.ParseDigits(Stamp(d, idClock, stampClock).id) == idClock
    ensures idClock == stampClock ==> Stamp(d, idClock, stampClock).id == Decimal.NatToString(Stamp(d, idClock, stampClock).timestamp)
  {
    Decimal.ParseNatToString(idClock);
  }

  /** Bookmarks stamped at different instants get different ids; at the same instant
      they get the same id, whatever their drafts. */
  lemma StampIdsCollideExactlyOnSameInstant(d1: BookmarkDraft, d2: BookmarkDraft, t1: nat, t2: nat, s1: nat, s2: nat)
    ensures Stamp(d1, t1, s1).id == Stamp(d2, t2, s2).id <==> t1 == t2
  {
    Decimal.NatToStringInjective(t1, t2);
  }

  predicate UniqueIds(bs: seq<Bookmark>) {
    forall i, j :: 0 <= i < j < |bs| ==> bs[i].id != bs[j].id
  }

  /** With unique ids, removing the first match removes the id altogether, and the
      remaining ids stay unique. */
  lemma RemoveUniqueId(bs: seq<Bookmark>, id: string)
    requires UniqueIds(bs)
    requires FirstIndex(bs, IdIs(id)).Some?
    ensures var rest := RemoveAt(bs, FirstIndex(bs, IdIs(id)).value);
      UniqueIds(rest) && forall k :: 0 <= k < |rest| ==> rest[k].id != id
  {
    var i := FirstIndex(bs, IdIs(id)).value;
    var rest := RemoveAt(bs, i);
    forall k | 0 <= k < |rest|
      ensures rest[k].id != id
    {
      if k < i {
        assert rest[k] == bs[k];
      } else {
        assert rest[k] == bs[k + 1];
      }
    }
  }

  /** Without unique ids, the id can survive its removal: of two bookmarks sharing an
      id, only the first goes. */
  lemma RemoveDuplicateIdSurvives(a: Bookmark, b: Bookmark)
    requires a.id == b.id
    ensures FirstIndex([a, b], IdIs(a.id)) == Some(0)
    ensures RemoveAt([a, b], 0) == [b] && b.id == a.id
  {
  }

  class BookmarkManager {
    /** `this.bookmarks`, newest first. */
    var bookmarks: seq<Bookmark>
    /** The contents of `bookmarks.json`. */
    var file: Option<seq<Bookmark>>
    /** Messages sent to the window, oldest first. */
    var sent: seq<BookmarkEvent>

    /** `loadBookmarks`: a missing or unparseable file leaves the list empty. */
    constructor (stored: Option<seq<Bookmark>>)
      ensures bookmarks == (if stored.Some? then stored.value else [])
      ensures file == stored && sent == []
    {
      bookmarks := if stored.Some? then stored.value else [];
      file := stored;
      sent := [];
    }

    /** `saveBookmarks`: the file now holds the list (write failures are not modelled). */
    method SaveBookmarks()
      modifies this
      ensures bookmarks == old(bookmarks) && sent == old(sent)
      ensures file == Some(bookmarks)
    {
      file := Some(bookmarks);
    }

    method AddBookmark(d: BookmarkDraft, idClock: nat, stampClock: nat) returns (b: Bookmark)
      modifies this
      ensures b == Stamp(d, idClock, stampClock)
      ensures bookmarks == [b] + old(bookmarks)
      ensures file == Some(bookmarks)
      ensures sent == old(sent) + [BookmarkAdded(b)]
    {
      b := Stamp(d, idClock, stampClock);
      bookmarks := [b] + bookmarks;
      SaveBookmarks();
      sent := sent + [BookmarkAdded(b)];
    }

    /** Removes the first bookmark with this id and returns it; an unknown id changes
        nothing, saves nothing and sends nothing. */
    method RemoveBookmark(id: string) returns (r: Option<Bookmark>)
      modifies this
      ensures var i := FirstIndex(old(bookmarks), IdIs(id));
        if i.None? then
          r.None? && bookmarks == old(bookmarks) && file == old(file) && sent == old(sent)
        else
          && r == Some(old(bookmarks)[i.value])
          && bookmarks == RemoveAt(old(bookmarks), i.value)
          && file == Some(bookmarks)
          && sent == old(sent) + [BookmarkRemoved(id)]
    {
      var index := FirstIndex(bookmarks, IdIs(id));
      if index.Some? {
        var removed := bookmarks[index.value];
        bookmarks := RemoveAt(bookmarks, index.value);
        SaveBookmarks();
        sent := sent + [BookmarkRemoved(id)];
        return Some(removed);
      }
      return None;
    }

    /** Sets the note of the first bookmark with this id, in place; an unknown id
        changes nothing. */
    method UpdateBookmarkNote(id: string, note: string) returns (r: Option<Bookmark>)
      modifies this
      ensures var i := FirstIndex(old(bookmarks), IdIs(id));
        if i.None? then
          r.None? && bookmarks == old(bookmarks) && file == old(file) && sent == old(sent)
        else
          && bookmarks == old(bookmarks)[i.value := old(bookmarks)[i.value].(note := Some(note))]
          && r == Some(bookmarks[i.value])
          && file == Some(bookmarks)
          && sent == old(sent) + [BookmarkUpdated(bookmarks[i.value])]
    {
      var index := FirstIndex(bookmarks, IdIs(id));
      if index.Some? {
        var updated := bookmarks[index.value].(note := Some(note));
        bookmarks := bookmarks[index.value := updated];
        SaveBookmarks();
        sent := sent + [BookmarkUpdated(updated)];
        return Some(updated);
      }
      return None;
    }

    /** A copy of the list. */
    method GetBookmarks() returns (r: seq<Bookmark>)
      ensures r == bookmarks
    {
      r := bookmarks;
    }

    /** The first bookmark with this id, if any. */
    method GetBookmarkById(id: string) returns (r: Option<Bookmark>)
      ensures r.None? <==> forall j :: 0 <= j < |bookmarks| ==> bookmarks[j].id != id
      ensures r.Some? ==> exists i :: 0 <= i < |bookmarks| && bookmarks[i] == r.value && r.value.id == id
                                  && forall k :: 0 <= k < i ==> bookmarks[k].id != id
    {
      var index := FirstIndex(bookmarks, IdIs(id));
      if index.Some? {
        r := Some(bookmarks[index.value]);
        assert bookmarks[index.value] == r.value;
      } else {
        r := None;
      }
    }

    /** Exactly the bookmarks of surah `n`, each as often as stored, in stored order. */
    method GetBookmarksBySurah(n: int) returns (r: seq<Bookmark>)
      ensures r == Filter(bookmarks, SurahIs(n))
      ensures forall i :: 0 <= i < |r| ==> r[i].surahNumber == n
      ensures forall b :: multiset(r)[b] == if b.surahNumber == n then multiset(bookmarks)[b] else 0
    {
      r := Filter(bookmarks, SurahIs(n));
      forall b
        ensures multiset(r)[b] == if b.surahNumber == n then multiset(bookmarks)[b] else 0
      {
        FilterCount(bookmarks, SurahIs(n), b);
      }
    }

    method ClearAllBookmarks()
      modifies this
      ensures bookmarks == [] && file == Some([])
      ensures sent == old(sent) + [BookmarksCleared]
    {
      bookmarks := [];
      SaveBookmarks();
      sent := sent + [BookmarksCleared];
    }
  }

  /** Clearing twice in a row: the list is empty after each call, no call fails, and
      each sends its own `bookmarks-cleared`. */
  method ClearTwice(m: BookmarkManager)
    modifies m
    ensures m.bookmarks == [] && m.file == Some([])
    ensures m.sent == old(m.sent) + [BookmarksCleared, BookmarksCleared]
  {
    m.ClearAllBookmarks();
    assert m.bookmarks == [];
    m.ClearAllBookmarks();
  }

  /** A fresh store without a file: after adding a bookmark of surah 1, surah 1 lists
      exactly that bookmark and surah 2 lists none. */
  method FreshStoreBySurah(d: BookmarkDraft, clock: nat) returns (added: Bookmark, first: seq<Bookmark>, second: seq<Bookmark>)
    requires d.surahNumber == 1
    ensures first == [added] && second == []
    ensures added == Stamp(d, clock, clock)
  {
    var m := new BookmarkManager(None);
    added := m.AddBookmark(d, clock, clock);
    first := m.GetBookmarksBySurah(1);
    second := m.GetBookmarksBySurah(2);
  }

  /** Two bookmarks added within the same millisecond share their id: the store does
      not keep ids unique. */
  method SameInstantDuplicatesId(m: BookmarkManager, d1: BookmarkDraft, d2: BookmarkDraft, clock: nat)
    modifies m
    ensures |m.bookmarks| == |old(m.bookmarks)| + 2
    ensures !UniqueIds(m.bookmarks)
  {
    var b1 := m.AddBookmark(d1, clock, clock);
    var b2 := m.AddBookmark(d2, clock, clock);
    assert m.bookmarks[0] == b2 && m.bookmarks[1] == b1;
  }
}

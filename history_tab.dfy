/** The window's copy of the reading progress (src/ui/components/quran/HistoryTab.tsx):
    what the tab does with the store's messages and with its own Clear button, and
    what it shows. */
module HistoryTab {
  import opened Wrappers
  import opened ReadingHistoryStore
  import TimeAgo

  /** The tab subscribes to `reading-history-updated` only: it takes the received
      record as its whole state, and ignores `reading-history-cleared`. */
  function Apply(view: Option<ReadingHistory>, e: HistoryEvent): (r: Option<ReadingHistory>)
    ensures e.HistoryUpdated? ==> r == Some(e.history)
    ensures e.HistoryCleared? ==> r == view
  {
    match e
    case HistoryUpdated(h) => Some(h)
    case HistoryCleared => view
  }

  function ApplyAll(view: Option<ReadingHistory>, events: seq<HistoryEvent>): Option<ReadingHistory>
    decreases |events|
  {
    if |events| == 0 then view else ApplyAll(Apply(view, events[0]), events[1..])
  }

  /** `handleClearHistory`: once the clear request has returned the tab shows no
      history; when the request throws, the tab keeps what it had. */
  function OnClearClicked(view: Option<ReadingHistory>, requestSucceeded: bool): (r: Option<ReadingHistory>)
    ensures requestSucceeded ==> r.None?
    ensures !requestSucceeded ==> r == view
  {
    if requestSucceeded then None else view
  }

  datatype TabContent =
    | NoReadingHistory
    | LastReadingPosition(surah: int, ayah: int, timeAgo: string)

  /** With no history the empty state is shown; otherwise the last position and its
      relative time. */
  function Render(view: Option<ReadingHistory>, now: int): (r: TabContent)
    ensures view.None? <==> r.NoReadingHistory?
    ensures view.Some? ==> r == LastReadingPosition(view.value.lastSurah, view.value.lastAyah,
                                                    TimeAgo.Label(TimeAgo.GetTimeAgo(now, view.value.timestamp)))
  {
    match view
    case None => NoReadingHistory
    case Some(h) => LastReadingPosition(h.lastSurah, h.lastAyah, TimeAgo.Label(TimeAgo.GetTimeAgo(now, h.timestamp)))
  }

  /** A tab that starts from the store's history still matches it after any save,
      valid or not, as long as the write succeeds. When the write throws, the message
      is lost with it: the tab keeps the old record while the store holds the new one. */
  method TabFollowsSave(m: HistoryManager, s: int, a: int, p: int, now: nat, writeSucceeds: bool)
    modifies m
    ensures old(m.sent) <= m.sent
    ensures writeSucceeds ==> ApplyAll(old(m.history), m.sent[|old(m.sent)|..]) == m.history
    ensures !writeSucceeds ==> ApplyAll(old(m.history), m.sent[|old(m.sent)|..]) == old(m.history)
    ensures !writeSucceeds && ValidProgress(s, a, p) ==> m.history == Some(ReadingHistory(s, a, p, now))
  {
    ghost var n := |m.sent|;
    m.SaveProgress(s, a, p, now, writeSucceeds);
    if ValidProgress(s, a, p) && writeSucceeds {
      assert m.sent[n..] == [HistoryUpdated(m.history.value)];
    } else {
      assert m.sent[n..] == [];
    }
  }

  /** Through its own button the tab clears together with the store; a clear that
      reaches it only as a message leaves it showing the old record. */
  method TabClearsOnlyThroughButton(m: HistoryManager, view: Option<ReadingHistory>, deleteSucceeds: bool) returns (clicked: Option<ReadingHistory>, heard: Option<ReadingHistory>)
    modifies m
    ensures m.history.None? && clicked.None?
    ensures heard == view
  {
    var n := |m.sent|;
    m.ClearHistory(deleteSucceeds);
    clicked := OnClearClicked(view, true);
    assert m.sent[n..] == [HistoryCleared];
    assert [HistoryCleared][1..] == [];
    heard := ApplyAll(view, m.sent[n..]);
  }
}

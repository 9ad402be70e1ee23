/** The "Reading History" card (src/ui/components/quran/ReadingHistory.tsx): it reads
    the window's history service while rendering and shows the last position with
    its relative time, or nothing at all. */
module ReadingHistoryCard {
  import opened Wrappers
  import opened LocalStorage
  import HistoryStorage
  import TimeAgo
  import Decimal

  datatype Card = Card(lastSurah: int, lastAyah: int, timeAgo: string)

  /** With no stored progress the component renders `null`; otherwise the card. */
  function Render(progress: Option<HistoryStorage.ReadingHistory>, now: int): (r: Option<Card>)
    ensures progress.None? <==> r.None?
    ensures progress.Some? ==>
      r == Some(Card(progress.value.lastSurah, progress.value.lastAyah,
                     TimeAgo.Label(TimeAgo.GetTimeAgo(now, progress.value.timestamp))))
  {
    match progress
    case None => None
    case Some(h) => Some(Card(h.lastSurah, h.lastAyah, TimeAgo.Label(TimeAgo.GetTimeAgo(now, h.timestamp))))
  }

  /** The Resume button's handler: it selects the surah of the record the card
      shows, whatever the time of rendering. */
  function Resume(card: Card): (surah: int)
    ensures forall p: HistoryStorage.ReadingHistory, now: int :: Render(Some(p), now) == Some(card) ==> surah == p.lastSurah
  {
    card.lastSurah
  }

  /** Rendering from storage: a malformed item makes the render throw. */
  function RenderFromStorage(storage: map<string, Entry<HistoryStorage.ReadingHistory>>, now: int): (r: Result<Option<Card>, HistoryStorage.ParseError>)
    ensures r.Failure? <==> HistoryStorage.HistoryKey in storage && storage[HistoryStorage.HistoryKey].Malformed?
    ensures r == Success(None) <==> Falsy(storage, HistoryStorage.HistoryKey)
    ensures r.Success? && r.value.Some? ==> Resume(r.value.value) == storage[HistoryStorage.HistoryKey].value.lastSurah
  {
    match HistoryStorage.Load(storage)
    case Failure(e) => Failure(e)
    case Success(p) => Success(Render(p, now))
  }

  /** A save made a minute ago renders as "1m ago" and resumes the saved surah. */
  lemma RenderAfterSave(storage: map<string, Entry<HistoryStorage.ReadingHistory>>, s: int, a: int, t: int)
    ensures var r := RenderFromStorage(storage[HistoryStorage.HistoryKey := Record(HistoryStorage.ReadingHistory(s, a, t))], t + 60000);
      r == Success(Some(Card(s, a, "1m ago")))
  {
    assert TimeAgo.GetTimeAgo(t + 60000, t) == TimeAgo.MinutesAgo(1);
    assert Decimal.IntToString(1) == "1";
    assert TimeAgo.Label(TimeAgo.MinutesAgo(1)) == "1m ago";
  }
}

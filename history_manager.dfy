/** The reading-progress store of the desktop shell (src/electron/historyManager.ts):
    a single optional record kept in memory, mirrored to `reading-history.json`
    and announced on `reading-history-updated` / `reading-history-cleared`. */
module ReadingHistoryStore {
  import opened Wrappers

  datatype ReadingHistory = ReadingHistory(lastSurah: int, lastAyah: int, lastPage: int, timestamp: nat)

  datatype HistoryEvent =
    | HistoryUpdated(history: ReadingHistory)
    | HistoryCleared

  /** The guard of `saveProgress`: all three numbers must be positive. */
  predicate ValidProgress(surahNumber: int, ayahNumber: int, pageNumber: int) {
    surahNumber > 0 && ayahNumber > 0 && pageNumber > 0
  }

  /** The record after `saveProgress`: a valid triple replaces the history wholesale,
      stamped with the clock; anything else leaves it as it was. */
  function AfterSave(h: Option<ReadingHistory>, surahNumber: int, ayahNumber: int, pageNumber: int, now: nat): (r: Option<ReadingHistory>)
    ensures ValidProgress(surahNumber, ayahNumber, pageNumber) ==> r == Some(ReadingHistory(surahNumber, ayahNumber, pageNumber, now))
    ensures !ValidProgress(surahNumber, ayahNumber, pageNumber) ==> r == h
    ensures r.Some? && r != h ==> r.value.lastSurah > 0 && r.value.lastAyah > 0 && r.value.lastPage > 0
  {
    if ValidProgress(surahNumber, ayahNumber, pageNumber) then
      Some(ReadingHistory(surahNumber, ayahNumber, pageNumber, now))
    else h
  }

  /** Only the latest valid save survives: an older one leaves no trace. */
  lemma LatestSaveWins(h: Option<ReadingHistory>, s1: int, a1: int, p1: int, t1: nat, s2: int, a2: int, p2: int, t2: nat)
    requires ValidProgress(s2, a2, p2)
    ensures AfterSave(AfterSave(h, s1, a1, p1, t1), s2, a2, p2, t2) == AfterSave(h, s2, a2, p2, t2)
  {
  }

  /** A history that only ever received saves holds positive numbers. */
  predicate PositiveOrNone(h: Option<ReadingHistory>) {
    h.Some? ==> h.value.lastSurah > 0 && h.value.lastAyah > 0 && h.value.lastPage > 0
  }

  lemma SavePreservesPositive(h: Option<ReadingHistory>, s: int, a: int, p: int, now: nat)
    requires PositiveOrNone(h)
    ensures PositiveOrNone(AfterSave(h, s, a, p, now))
  {
  }

  class HistoryManager {
    /** `this.history`. */
    var history: Option<ReadingHistory>
    /** The contents of `reading-history.json`. */
    var file: Option<ReadingHistory>
    /** Messages sent to the window, oldest first. */
    var sent: seq<HistoryEvent>

    /** `loadHistory`: a missing or unparseable file gives no history. */
    constructor (stored: Option<ReadingHistory>)
      ensures history == stored && file == stored && sent == []
    {
      history := stored;
      file := stored;
      sent := [];
    }

    /** `saveHistory`: writes and announces the history, but only when there is one.
        The write and the message share one `try`, so a write that throws
        (`writeSucceeds` false) leaves the file as it was and sends nothing; the
        error is only logged. */
    method SaveHistory(writeSucceeds: bool)
      modifies this
      ensures history == old(history)
      ensures old(history).Some? && writeSucceeds ==> file == history && sent == old(sent) + [HistoryUpdated(history.value)]
      ensures old(history).None? || !writeSucceeds ==> file == old(file) && sent == old(sent)
    {
      if history.Some? {
        if writeSucceeds {
          file := history;
          sent := sent + [HistoryUpdated(history.value)];
        }
      }
    }

    /** A valid triple replaces the history in memory whether or not the write
        succeeds; when it does, the record is written and sent carrying exactly the
        new record. An invalid triple changes nothing, writes nothing, sends nothing. */
    method SaveProgress(surahNumber: int, ayahNumber: int, pageNumber: int, now: nat, writeSucceeds: bool)
      modifies this
      ensures history == AfterSave(old(history), surahNumber, ayahNumber, pageNumber, now)
      ensures ValidProgress(surahNumber, ayahNumber, pageNumber) && writeSucceeds ==>
        file == history && sent == old(sent) + [HistoryUpdated(history.value)]
      ensures !ValidProgress(surahNumber, ayahNumber, pageNumber) || !writeSucceeds ==>
        file == old(file) && sent == old(sent)
    {
      if surahNumber > 0 && ayahNumber > 0 && pageNumber > 0 {
        history := Some(ReadingHistory(surahNumber, ayahNumber, pageNumber, now));
        SaveHistory(writeSucceeds);
      }
    }

    method GetLastProgress() returns (r: Option<ReadingHistory>)
      ensures r == history
    {
      r := history;
    }

    /** Forgets the history and announces it even when there was nothing to delete.
        The deletion has its own `try`: when it throws (`deleteSucceeds` false) the
        file stays, and the message is sent all the same. */
    method ClearHistory(deleteSucceeds: bool)
      modifies this
      ensures history.None?
      ensures deleteSucceeds ==> file.None?
      ensures !deleteSucceeds ==> file == old(file)
      ensures sent == old(sent) + [HistoryCleared]
    {
      history := None;
      if deleteSucceeds {
        file := None;
      }
      sent := sent + [HistoryCleared];
    }
  }

  /** `saveProgress(0, 5, 3)` leaves whatever was stored (or nothing) in place. */
  method InvalidSaveKeepsHistory(m: HistoryManager, now: nat, writeSucceeds: bool)
    modifies m
    ensures m.history == old(m.history) && m.file == old(m.file) && m.sent == old(m.sent)
  {
    m.SaveProgress(0, 5, 3, now, writeSucceeds);
  }

  /** After a clear, the last progress is gone, even when the file could not be
      deleted. */
  method ClearThenGet(m: HistoryManager, deleteSucceeds: bool) returns (r: Option<ReadingHistory>)
    modifies m
    ensures r.None?
  {
    m.ClearHistory(deleteSucceeds);
    r := m.GetLastProgress();
  }

  /** A deletion that throws leaves the file behind: the next start of the app loads
      the record the clear was meant to forget. */
  method RestartAfterFailedClear(m: HistoryManager) returns (restarted: HistoryManager)
    modifies m
    ensures m.history.None?
    ensures restarted.history == old(m.file)
  {
    m.ClearHistory(false);
    restarted := new HistoryManager(m.file);
  }
}

/** The window's reading-history service (src/ui/services/historyService.ts): one
    JSON record under the key `quran_reading_history`, with no page and no
    validation. `Date.now()` is the parameter `now`. Unlike the progress service,
    a stored text `JSON.parse` rejects is not caught: the `SyntaxError` reaches the
    caller, modelled as `Failure`. */
module HistoryStorage {
  import opened Wrappers
  import opened LocalStorage

  const HistoryKey := "quran_reading_history"

  /** The stored record; it has no page field. */
  datatype ReadingHistory = ReadingHistory(lastSurah: int, lastAyah: int, timestamp: int)

  datatype ParseError = SyntaxError

  /** `getLastProgress`: nothing for an absent or empty item, the record for a
      well-formed one, and the parse error for anything else. */
  function Load(storage: map<string, Entry<ReadingHistory>>): (r: Result<Option<ReadingHistory>, ParseError>)
    ensures r.Failure? <==> HistoryKey in storage && storage[HistoryKey].Malformed?
    ensures r == Success(None) <==> Falsy(storage, HistoryKey)
    ensures r.Success? && r.value.Some? ==> storage[HistoryKey] == Record(r.value.value)
  {
    if Falsy(storage, HistoryKey) then Success(None)
    else match storage[HistoryKey]
      case Record(h) => Success(Some(h))
      case _ => Failure(SyntaxError)
  }

  /** A save is read back exactly, with no positivity check on the numbers. */
  lemma LoadAfterSave(storage: map<string, Entry<ReadingHistory>>, surahNumber: int, ayahNumber: int, now: int)
    ensures Load(storage[HistoryKey := Record(ReadingHistory(surahNumber, ayahNumber, now))])
         == Success(Some(ReadingHistory(surahNumber, ayahNumber, now)))
  {
  }

  class HistoryService {
    var storage: map<string, Entry<ReadingHistory>>

    constructor (storage: map<string, Entry<ReadingHistory>>)
      ensures this.storage == storage
    {
      this.storage := storage;
    }

    /** Overwrites the one key with `{surah, ayah, now}`; every other key keeps its item. */
    method SaveProgress(surahNumber: int, ayahNumber: int, now: int)
      modifies this
      ensures storage == old(storage)[HistoryKey := Record(ReadingHistory(surahNumber, ayahNumber, now))]
      ensures Load(storage) == Success(Some(ReadingHistory(surahNumber, ayahNumber, now)))
    {
      storage := storage[HistoryKey := Record(ReadingHistory(surahNumber, ayahNumber, now))];
    }

    method GetLastProgress() returns (r: Result<Option<ReadingHistory>, ParseError>)
      ensures r == Load(storage)
    {
      if HistoryKey !in storage || storage[HistoryKey].EmptyText? {
        return Success(None);
      }
      match storage[HistoryKey]
      case Record(h) => r := Success(Some(h));
      case _ => r := Failure(SyntaxError);
    }

    method ClearHistory()
      modifies this
      ensures storage == old(storage) - {HistoryKey}
      ensures Load(storage) == Success(None)
    {
      storage := storage - {HistoryKey};
    }
  }

  /** Two saves in a row: only the second record survives, and a clear afterwards
      leaves nothing. */
  method SaveSaveClear(h: HistoryService, s1: int, a1: int, t1: int, s2: int, a2: int, t2: int)
    returns (afterSaves: Result<Option<ReadingHistory>, ParseError>, afterClear: Result<Option<ReadingHistory>, ParseError>)
    modifies h
    ensures afterSaves == Success(Some(ReadingHistory(s2, a2, t2)))
    ensures afterClear == Success(None)
  {
    h.SaveProgress(s1, a1, t1);
    h.SaveProgress(s2, a2, t2);
    afterSaves := h.GetLastProgress();
    h.ClearHistory();
    afterClear := h.GetLastProgress();
  }
}

/** The renderer's reading-progress service (src/services/historyService.ts): one
    JSON record under the key `quran_reading_progress`. `new Date().toISOString()` is
    the parameter `now`. */
module ProgressStorage {
  import opened Wrappers
  import opened LocalStorage

  const StorageKey := "quran_reading_progress"

  /** The stored record; an absent field (`undefined`, dropped by `JSON.stringify`)
      is `None`. */
  datatype ReadingProgress = ReadingProgress(
    lastSurah: Option<int>,
    lastAyah: Option<int>,
    lastPage: Option<int>,
    lastReadAt: string)

  /** `n || undefined` on a `number | null`: both `null` and `0` become absent. */
  function OrUndefined(n: Option<int>): (r: Option<int>)
    ensures r.None? <==> n.None? || n.value == 0
    ensures r.Some? ==> r == n
  {
    if n.None? || n.value == 0 then None else n
  }

  /** The record `saveProgress` writes: surah and ayah through `|| undefined`, the
      page exactly as passed (0 included). */
  function ProgressOf(surahNumber: Option<int>, ayahNumber: Option<int>, pageNumber: Option<int>, now: string): (p: ReadingProgress)
    ensures p.lastSurah == OrUndefined(surahNumber) && p.lastAyah == OrUndefined(ayahNumber)
    ensures p.lastPage == pageNumber && p.lastReadAt == now
  {
    ReadingProgress(OrUndefined(surahNumber), OrUndefined(ayahNumber), pageNumber, now)
  }

  /** `getLastProgress`: nothing for an absent or empty item, and nothing for text
      `JSON.parse` rejects (the exception is caught). */
  function Load(storage: map<string, Entry<ReadingProgress>>): (r: Option<ReadingProgress>)
    ensures r.Some? <==> StorageKey in storage && storage[StorageKey].Record?
    ensures r.Some? ==> r.value == storage[StorageKey].value
  {
    if Falsy(storage, StorageKey) then None
    else match storage[StorageKey]
      case Record(p) => Some(p)
      case _ => None
  }

  /** What a save stores is what the next load returns, whatever was there before. */
  lemma LoadAfterSave(storage: map<string, Entry<ReadingProgress>>, s: Option<int>, a: Option<int>, p: Option<int>, now: string)
    ensures Load(storage[StorageKey := Record(ProgressOf(s, a, p, now))]) == Some(ProgressOf(s, a, p, now))
  {
  }

  /** Surah 0 is not remembered, while page 0 is. */
  lemma ZeroSurahDroppedZeroPageKept(now: string)
    ensures ProgressOf(Some(0), Some(7), Some(0), now) == ReadingProgress(None, Some(7), Some(0), now)
  {
  }

  class HistoryService {
    var storage: map<string, Entry<ReadingProgress>>

    constructor (storage: map<string, Entry<ReadingProgress>>)
      ensures this.storage == storage
    {
      this.storage := storage;
    }

    /** Overwrites the one key; every other key keeps its item. */
    method SaveProgress(surahNumber: Option<int>, ayahNumber: Option<int>, pageNumber: Option<int>, now: string)
      modifies this
      ensures storage == old(storage)[StorageKey := Record(ProgressOf(surahNumber, ayahNumber, pageNumber, now))]
      ensures Load(storage) == Some(ProgressOf(surahNumber, ayahNumber, pageNumber, now))
    {
      var progress := ReadingProgress(OrUndefined(surahNumber), OrUndefined(ayahNumber), pageNumber, now);
      storage := storage[StorageKey := Record(progress)];
    }

    method GetLastProgress() returns (r: Option<ReadingProgress>)
      ensures r == Load(storage)
    {
      if StorageKey !in storage || storage[StorageKey].EmptyText? {
        return None;
      }
      match storage[StorageKey]
      case Record(p) => r := Some(p);
      case _ => r := None;
    }

    method ClearProgress()
      modifies this
      ensures storage == old(storage) - {StorageKey}
      ensures Load(storage).None?
    {
      storage := storage - {StorageKey};
    }
  }

  /** Two saves in a row: only the second record survives. */
  method LatestSaveWins(h: HistoryService, s1: Option<int>, a1: Option<int>, p1: Option<int>, t1: string,
                        s2: Option<int>, a2: Option<int>, p2: Option<int>, t2: string) returns (r: Option<ReadingProgress>)
    modifies h
    ensures r == Some(ProgressOf(s2, a2, p2, t2))
  {
    h.SaveProgress(s1, a1, p1, t1);
    h.SaveProgress(s2, a2, p2, t2);
    r := h.GetLastProgress();
  }

  /** After a clear there is no progress. */
  method ClearThenGet(h: HistoryService) returns (r: Option<ReadingProgress>)
    modifies h
    ensures r.None?
  {
    h.ClearProgress();
    r := h.GetLastProgress();
  }
}

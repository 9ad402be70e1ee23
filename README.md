# Quran Pak desktop core, modelled in Dafny

This project models the state-keeping core of the Quran Pak Electron app:

- the manager classes of the main process:
  - bookmarks;
  - reading progress;
  - translation and recitation settings;
  - clipboard history;
  - notifications;
  - the IPC origin check;
- the pure helpers of the renderer:
  - the bookmark panel's event reducers and surah filter;
  - the history tab and the reading-history card;
  - the relative-time cascade `getTimeAgo`;
  - the Arabic/English edition merge of the Quran text client;
  - the two `localStorage`-backed history services.

One module models each source file, plus shared helpers:

- `Wrappers` holds `Option` and `Result`.
- `Seqs` holds filter, first index, remove-at and distinct, with their lemmas.
- `Decimal` renders numbers as decimal strings.
- `Numbers` holds the clamp.
- `TimeAgo` holds the relative-time cascade and its labels, which `HistoryTab.tsx` and `ReadingHistory.tsx` each define in identical copies.
- `LocalStorage` holds the stored-item shape.

A manager whose source updates fields in place is a Dafny `class`:

- Its fields are the source's fields.
- The JSON file it writes is a field of type `Option<...>`. `None` means the file is missing or unparseable.
- The messages it sends to the window (`webContents.send`) are an append-only log `sent`.
- Each method's `ensures` states the whole new state in terms of the old one.
- Pure specification functions (`Stamp`, `Merge`, `AfterSave`, `Insert`, `FirstIndex`, `Filter`, ...) carry the lemmas that relate calls to each other.

Behaviour worth noting:

- `updateSettings` of both settings managers merges any partial record with no clamping and no catalog check. Only the dedicated setters validate. `MergeBreaksWellFormed` and `UnknownReciterFallsBack` show the consequence.
- The recitation manager keeps no playing state: the play, pause, resume and stop commands only send messages.
- Bookmark ids are the clock reading as a decimal string and are not kept unique. Two bookmarks added in the same millisecond share an id (`SameInstantDuplicatesId`).
- After such a collision, the store and the panel disagree on a removal (`OnRemovedDropsDuplicates`):
  - the store removes the first match;
  - the panel filters out every match.
- The panel subscribes to no clear event. After "Clear All" it keeps showing its old list (`PanelMissesClear`).
- The history tab ignores `reading-history-cleared` (`TabClearsOnlyThroughButton`).
- In `historyManager.ts` the history message is sent inside the same `try` as the file write. A failed write therefore also drops the message: the store holds the new record while the history tab keeps the old one (`TabFollowsSave`).
- A failed deletion in `clearHistory` still sends the cleared message, and the next start of the app loads the old record again (`RestartAfterFailedClear`).

## Model

| member | source | states |
|---|---|---|
| Bookmarks.Stamp | src/electron/bookmarkManager.ts:54-59 | the new record has exactly the draft's fields, id = decimal string of the clock, timestamp = the clock |
| Bookmarks.StampIdReadsBack | src/electron/bookmarkManager.ts:57-58 | the id parses back to the clock reading; it equals the timestamp's digits when both clock reads agree |
| Bookmarks.StampIdsCollideExactlyOnSameInstant | src/electron/bookmarkManager.ts:57 | two generated ids are equal iff the clock readings are equal, whatever the drafts |
| Bookmarks.RemoveUniqueId | src/electron/bookmarkManager.ts:67-74 | with unique ids, removing the first match leaves no bookmark with that id and keeps ids unique |
| Bookmarks.RemoveDuplicateIdSurvives | src/electron/bookmarkManager.ts:68-70 | with a shared id, only the first of two bookmarks is removed |
| Bookmarks.BookmarkManager.constructor | src/electron/bookmarkManager.ts:25-41 | a missing or unparseable file gives the empty list; otherwise the stored list |
| Bookmarks.BookmarkManager.SaveBookmarks | src/electron/bookmarkManager.ts:43-52 | the file holds the list; nothing else changes |
| Bookmarks.BookmarkManager.AddBookmark | src/electron/bookmarkManager.ts:54-65 | the stamped record is prepended, the old list follows unchanged, the file is written, `bookmark-added` carries the record |
| Bookmarks.BookmarkManager.RemoveBookmark | src/electron/bookmarkManager.ts:67-76 | the first match is removed and returned with the rest in order; an absent id returns null and changes, writes and sends nothing |
| Bookmarks.BookmarkManager.UpdateBookmarkNote | src/electron/bookmarkManager.ts:78-87 | only the note of the first match changes, the updated record is returned and sent; an absent id changes nothing and returns null |
| Bookmarks.BookmarkManager.GetBookmarks | src/electron/bookmarkManager.ts:89-91 | returns the list |
| Bookmarks.BookmarkManager.GetBookmarkById | src/electron/bookmarkManager.ts:93-95 | null iff no bookmark has the id; otherwise the first bookmark with it |
| Bookmarks.BookmarkManager.GetBookmarksBySurah | src/electron/bookmarkManager.ts:97-99 | exactly the bookmarks of that surah, each as often as stored, in stored order |
| Bookmarks.BookmarkManager.ClearAllBookmarks | src/electron/bookmarkManager.ts:101-105 | the list and the file are empty and `bookmarks-cleared` is sent |
| Bookmarks.ClearTwice | src/electron/bookmarkManager.ts:101-105 | clearing twice leaves the same empty state and sends two clear events |
| Bookmarks.FreshStoreBySurah | src/electron/bookmarkManager.ts:54-99 | in a fresh store, after one add of surah 1, surah 1 lists exactly that bookmark and surah 2 none |
| Bookmarks.SameInstantDuplicatesId | src/electron/bookmarkManager.ts:54-61 | two adds within one millisecond leave two bookmarks sharing an id |
| BookmarkPanel.OnAdded | src/ui/components/quran/BookmarkPanel.tsx:19-23 | the received bookmark is prepended; the list grows by one and the rest is unchanged |
| BookmarkPanel.OnRemoved | src/ui/components/quran/BookmarkPanel.tsx:25-29 | no entry with the id remains; every entry with another id is kept exactly as often as it occurred |
| BookmarkPanel.OnRemovedKeepsOrder | src/ui/components/quran/BookmarkPanel.tsx:27 | the removal keeps a one-entry list iff its id differs, and the removal of a concatenation is the concatenation of the removals; so the survivors keep their order |
| BookmarkPanel.OnUpdated | src/ui/components/quran/BookmarkPanel.tsx:31-37 | every entry with the id becomes the received record; the length and the other entries are unchanged |
| BookmarkPanel.Apply | src/ui/components/quran/BookmarkPanel.tsx:19-37 | an add prepends; a removal is `OnRemoved`, keeping every entry without the id as often as it occurred; an update replaces the entries with the id in place, and a clear leaves the list as it was, since no handler listens for it |
| BookmarkPanel.FilteredBookmarks | src/ui/components/quran/BookmarkPanel.tsx:78-80 | no selection (null or 0) gives the full list; otherwise exactly that surah's bookmarks in order |
| BookmarkPanel.SurahNumbers | src/ui/components/quran/BookmarkPanel.tsx:119 | the surah number of each bookmark, index by index |
| BookmarkPanel.SurahOptions | src/ui/components/quran/BookmarkPanel.tsx:119 | the options are distinct, each is some bookmark's surah, and every bookmark's surah is among them |
| BookmarkPanel.SurahOptionsPrefix | src/ui/components/quran/BookmarkPanel.tsx:119 | options are in first-occurrence order: a prefix of the list gives a prefix of the options |
| BookmarkPanel.OnRemovedMatchesStore | src/ui/components/quran/BookmarkPanel.tsx:25-29 | with unique ids, the panel's filter equals the store's removal of the first match |
| BookmarkPanel.OnUpdatedMatchesStore | src/ui/components/quran/BookmarkPanel.tsx:31-37 | with unique ids, the panel's map equals the store's in-place note update |
| BookmarkPanel.OnRemovedDropsDuplicates | src/ui/components/quran/BookmarkPanel.tsx:27 | with a shared id the panel drops both bookmarks while the store drops one |
| BookmarkPanel.PanelFollowsAdd | src/ui/components/quran/BookmarkPanel.tsx:19-23 | a panel starting from the store's list matches it after an add |
| BookmarkPanel.PanelFollowsRemove | src/ui/components/quran/BookmarkPanel.tsx:25-29 | with unique ids, a panel starting from the store's list matches it after a remove |
| BookmarkPanel.PanelMissesClear | src/ui/components/quran/BookmarkPanel.tsx:14-44 | after a clear the store is empty while the panel keeps its old list |
| ReadingHistoryStore.AfterSave | src/electron/historyManager.ts:65-83 | a positive triple replaces the history with `{s, a, p, now}`; anything else leaves it unchanged |
| ReadingHistoryStore.LatestSaveWins | src/electron/historyManager.ts:67-75 | a valid save erases any trace of the save before it |
| ReadingHistoryStore.SavePreservesPositive | src/electron/historyManager.ts:67-75 | a history holding positive numbers keeps doing so after any save |
| ReadingHistoryStore.HistoryManager.constructor | src/electron/historyManager.ts:22-46 | a missing or unparseable file gives no history |
| ReadingHistoryStore.HistoryManager.SaveHistory | src/electron/historyManager.ts:48-63 | a present history is written and sent when the write succeeds; a failed write, or no history, leaves the file as it was and sends nothing |
| ReadingHistoryStore.HistoryManager.SaveProgress | src/electron/historyManager.ts:65-83 | a valid triple always replaces the history in memory; with a successful write the file holds it and exactly the new record is sent, with a failed one nothing is written or sent; an invalid triple changes, writes and sends nothing |
| ReadingHistoryStore.HistoryManager.GetLastProgress | src/electron/historyManager.ts:85-88 | returns the history; changes nothing |
| ReadingHistoryStore.HistoryManager.ClearHistory | src/electron/historyManager.ts:90-102 | no history; no file when the deletion succeeds, the old file when it throws; `reading-history-cleared` is sent in every case |
| ReadingHistoryStore.InvalidSaveKeepsHistory | src/electron/historyManager.ts:65-83 | `saveProgress(0, 5, 3)` changes nothing |
| ReadingHistoryStore.ClearThenGet | src/electron/historyManager.ts:85-102 | after a clear, `getLastProgress` is null, whether or not the file was deleted |
| ReadingHistoryStore.RestartAfterFailedClear | src/electron/historyManager.ts:29-46 | when the deletion throws, the next manager built from the file loads the record the clear forgot |
| TimeAgo.GetTimeAgo | src/ui/components/quran/HistoryTab.tsx:40-62 | "just now" iff fewer than 60 whole seconds elapsed; minutes 1..59, hours 1..23, days 1..6, weeks 1..3, months 0..11, years >= 0 |
| TimeAgo.Label | src/ui/components/quran/HistoryTab.tsx:40-62 | "just now" for the first branch and no other; every other label is the decimal count, the unit letter (`m`, `h`, `d`, `w`, `mo`, `y`) and " ago" |
| TimeAgo.LabelInjective | src/ui/components/quran/HistoryTab.tsx:40-62 | two labels are equal iff they come from the same branch with the same count |
| TimeAgo.JustNowLabel | src/ui/components/quran/HistoryTab.tsx:41-43 | the label is "just now" iff fewer than 60 whole seconds elapsed |
| TimeAgo.OnlyElapsedMatters | src/ui/components/quran/HistoryTab.tsx:41 | the result depends only on `now - timestamp` |
| TimeAgo.FutureIsJustNow | src/ui/components/quran/HistoryTab.tsx:41-43 | a timestamp in the future reads "just now" |
| TimeAgo.WholeUnitsElapsed | src/ui/components/quran/HistoryTab.tsx:45-61 | each count is the number of whole units elapsed (60 000 ms minutes, ..., 30-day months, 365-day years) |
| TimeAgo.ZeroMonths | src/ui/components/quran/HistoryTab.tsx:54-58 | an elapsed 28 or 29 days reads "0mo ago" |
| TimeAgo.ZeroYears | src/ui/components/quran/HistoryTab.tsx:57-61 | an elapsed 360 to 364 days reads "0y ago" |
| HistoryTab.Apply | src/ui/components/quran/HistoryTab.tsx:29-33 | an update message replaces the local history; a clear message is ignored |
| HistoryTab.OnClearClicked | src/ui/components/quran/HistoryTab.tsx:64-71 | a successful clear request empties the local history; a failed one keeps it |
| HistoryTab.Render | src/ui/components/quran/HistoryTab.tsx:73-143 | the empty state iff no history; otherwise surah, ayah and time-ago label |
| HistoryTab.TabFollowsSave | src/electron/historyManager.ts:48-63 | with a successful write, a tab starting from the store's history matches it after any save; with a failed write the tab keeps the old record while the store holds the new one |
| HistoryTab.TabClearsOnlyThroughButton | src/ui/components/quran/HistoryTab.tsx:64-71 | the button empties the tab; the store's clear message alone leaves it unchanged |
| TranslationSettingsStore.Merge | src/electron/translationManager.ts:108-109 | each field present in the partial takes its value, every other keeps the old one; nothing is clamped or checked |
| TranslationSettingsStore.MergeThen | src/electron/translationManager.ts:108-109 | two updates equal one update with the combined partial |
| TranslationSettingsStore.MergeNoChangeAndIdempotent | src/electron/translationManager.ts:108-109 | the empty partial changes nothing; repeating an update changes nothing more |
| TranslationSettingsStore.TranslationById | src/electron/translationManager.ts:121-123 | a catalog entry with that id, and undefined iff the catalog has none |
| TranslationSettingsStore.PrimaryTranslation | src/electron/translationManager.ts:125-130 | always a catalog entry: the configured one if present, else the first |
| TranslationSettingsStore.SecondaryTranslation | src/electron/translationManager.ts:132-137 | null when the setting is null or unknown; otherwise the catalog entry with that id |
| TranslationSettingsStore.DefaultsWellFormed | src/electron/translationManager.ts:82-90 | the defaults name catalog entries and lie in the setters' ranges |
| TranslationSettingsStore.MergeBreaksWellFormed | src/electron/translationManager.ts:108-115 | `updateSettings` stores a font size of 999 or an unknown id as given |
| TranslationSettingsStore.TranslationManager.constructor | src/electron/translationManager.ts:63-91 | the stored settings, or the defaults `en_sahih`, null, true, false, 16, 1.5 |
| TranslationSettingsStore.TranslationManager.GetSettings | src/electron/translationManager.ts:104-106 | returns the settings |
| TranslationSettingsStore.TranslationManager.UpdateSettings | src/electron/translationManager.ts:108-115 | settings become the merge; the file holds them and they are sent |
| TranslationSettingsStore.TranslationManager.GetTranslations | src/electron/translationManager.ts:117-119 | returns the four-entry catalog |
| TranslationSettingsStore.TranslationManager.GetPrimaryTranslation | src/electron/translationManager.ts:125-130 | a catalog entry, the configured one when it exists |
| TranslationSettingsStore.TranslationManager.GetSecondaryTranslation | src/electron/translationManager.ts:132-137 | the secondary lookup on the current settings |
| TranslationSettingsStore.TranslationManager.SetPrimaryTranslation | src/electron/translationManager.ts:139-143 | a catalog id changes only the primary field; any other id changes, writes and sends nothing |
| TranslationSettingsStore.TranslationManager.SetSecondaryTranslation | src/electron/translationManager.ts:145-149 | null or a catalog id changes only the secondary field; anything else is a no-op |
| TranslationSettingsStore.TranslationManager.ToggleArabic | src/electron/translationManager.ts:151-153 | flips only `showArabic` |
| TranslationSettingsStore.TranslationManager.ToggleTransliteration | src/electron/translationManager.ts:155-159 | flips only `showTransliteration` |
| TranslationSettingsStore.TranslationManager.SetFontSize | src/electron/translationManager.ts:161-163 | stores the size clamped to [12, 24], an in-range size unchanged; only the font size changes |
| TranslationSettingsStore.TranslationManager.SetLineSpacing | src/electron/translationManager.ts:165-167 | stores the spacing clamped to [1, 2]; only the spacing changes |
| TranslationSettingsStore.ToggleArabicTwice | src/electron/translationManager.ts:151-153 | toggling twice restores the settings |
| TranslationSettingsStore.SetterExamples | src/electron/translationManager.ts:139-163 | `setFontSize(999)` stores 24; an unknown primary id keeps the old primary |
| Recitation.Merge | src/electron/recitationManager.ts:95-96 | each field present in the partial takes its value, every other keeps the old one; the reciter is not validated |
| Recitation.MergeNoChangeAndIdempotent | src/electron/recitationManager.ts:95-96 | the empty partial changes nothing; repeating an update changes nothing more |
| Recitation.CurrentReciter | src/electron/recitationManager.ts:108-113 | always a catalog reciter: the configured one if present, else the first |
| Recitation.DefaultsInRange | src/electron/recitationManager.ts:70-77 | the defaults name a catalog reciter and lie in the setters' ranges |
| Recitation.UnknownReciterFallsBack | src/electron/recitationManager.ts:95-113 | an unknown reciter is stored as given, and the effective reciter is then the first |
| Recitation.RecitationManager.constructor | src/electron/recitationManager.ts:51-78 | the stored settings, or the defaults `mishary_rashid_alafasy`, true, 1, 1.0, 1.0 |
| Recitation.RecitationManager.GetSettings | src/electron/recitationManager.ts:91-93 | returns the settings |
| Recitation.RecitationManager.UpdateSettings | src/electron/recitationManager.ts:95-102 | settings become the merge; the file holds them and they are sent |
| Recitation.RecitationManager.GetReciters | src/electron/recitationManager.ts:104-106 | returns the three-entry catalog |
| Recitation.RecitationManager.GetCurrentReciter | src/electron/recitationManager.ts:108-113 | a catalog reciter, the configured one when it exists |
| Recitation.RecitationManager.PlayAyahCommand | src/electron/recitationManager.ts:115-123 | settings unchanged; `play-ayah` carries surah, ayah, the effective reciter's id and the settings |
| Recitation.RecitationManager.PlaySurahCommand | src/electron/recitationManager.ts:125-132 | settings unchanged; `play-surah` carries surah, the effective reciter's id and the settings |
| Recitation.RecitationManager.PauseCommand | src/electron/recitationManager.ts:134-136 | only sends `pause-playback` |
| Recitation.RecitationManager.ResumeCommand | src/electron/recitationManager.ts:138-140 | only sends `resume-playback` |
| Recitation.RecitationManager.StopCommand | src/electron/recitationManager.ts:142-144 | only sends `stop-playback` |
| Recitation.RecitationManager.SetVolume | src/electron/recitationManager.ts:146-148 | stores the volume clamped to [0, 1]; only the volume changes |
| Recitation.RecitationManager.SetPlaybackSpeed | src/electron/recitationManager.ts:150-152 | stores the speed clamped to [0.5, 2]; only the speed changes |
| Recitation.PlayNamesCatalogReciter | src/electron/recitationManager.ts:108-123 | whatever is configured, a play command names a catalog reciter |
| Clipboard.Insert | src/electron/clipboard.ts:29-34 | present text leaves the history unchanged (no move to front); new text becomes the head, and beyond the bound exactly the oldest element is dropped |
| Clipboard.InsertKeepsNoDuplicates | src/electron/clipboard.ts:29-34 | an insert keeps the history free of repetitions |
| Clipboard.InsertKeepsBound | src/electron/clipboard.ts:19-21 | a history within the bound stays within it; the length grows by at most one |
| Clipboard.InsertNewText | src/electron/clipboard.ts:18-21 | new text is the most recent entry and the survivors are the old history in order |
| Clipboard.ClipboardManager.constructor | src/electron/clipboard.ts:3-11 | empty history, bound 10 |
| Clipboard.ClipboardManager.Tick | src/electron/clipboard.ts:15-24 | reads the clipboard; empty or known text is ignored; otherwise it is inserted and the new history sent; the invariant is kept |
| Clipboard.ClipboardManager.CopyText | src/electron/clipboard.ts:27-36 | writes the clipboard, records the text (empty included), sends nothing, returns true |
| Clipboard.ClipboardManager.PasteText | src/electron/clipboard.ts:38-40 | returns the clipboard's text |
| Clipboard.ClipboardManager.ExternalWrite | src/electron/clipboard.ts:16 | another application's copy changes only the clipboard; the next tick and `pasteText` read it |
| Clipboard.ClipboardManager.GetHistory | src/electron/clipboard.ts:55-57 | returns the history |
| Clipboard.ClipboardManager.ClearHistory | src/electron/clipboard.ts:59-62 | empties the history and sends the empty list |
| Clipboard.ClipboardManager.SetMaxHistorySize | src/electron/clipboard.ts:64-69 | the newest `min(length, size)` entries survive as a prefix, proved through the loop's invariants |
| Clipboard.CopyThenTick | src/electron/clipboard.ts:15-36 | with a bound of at least 1, the tick after `copyText` neither records nor sends anything |
| Clipboard.ExternalCopyIsRecorded | src/electron/clipboard.ts:15-40 | text another application copies heads the history after the next tick, is sent, and is what `pasteText` returns |
| Notifications.WithDefaults | src/electron/notifications.ts:31-38 | missing urgency, silent and timeout default to normal, false and default; supplied values pass through |
| Notifications.PrayerTimeNotification | src/electron/notifications.ts:43-50 | "Prayer Time", critical, never times out, body `It's time for ...`; the body tells the times apart |
| Notifications.BookmarkNotification | src/electron/notifications.ts:52-58 | "Bookmark Added", low, body `Bookmarked ...`; the body tells the ayah numbers apart |
| Notifications.MessageNotifications | src/electron/notifications.ts:60-74 | error notices are critical and success notices normal, each carrying the message |
| Notifications.NotificationManager.constructor | src/electron/notifications.ts:14-19 | enabled, nothing shown |
| Notifications.NotificationManager.ShowNotification | src/electron/notifications.ts:28-41 | while disabled nothing is shown; otherwise the options with their defaults |
| Notifications.NotificationManager.ShowPrayerTimeNotification | src/electron/notifications.ts:43-50 | shows the prayer template when enabled |
| Notifications.NotificationManager.ShowBookmarkNotification | src/electron/notifications.ts:52-58 | shows the bookmark template when enabled |
| Notifications.NotificationManager.ShowErrorNotification | src/electron/notifications.ts:60-66 | shows the error template when enabled |
| Notifications.NotificationManager.ShowSuccessNotification | src/electron/notifications.ts:68-74 | shows the success template when enabled |
| Notifications.NotificationManager.Enable | src/electron/notifications.ts:76-78 | only the gate changes, to open |
| Notifications.NotificationManager.Disable | src/electron/notifications.ts:80-82 | only the gate changes, to closed |
| Notifications.NotificationRegistry.constructor | src/electron/notifications.ts:13 | no instance yet |
| Notifications.NotificationRegistry.GetInstance | src/electron/notifications.ts:21-26 | the first call creates the manager for its window; later calls return it and ignore their argument |
| Notifications.SingleInstance | src/electron/notifications.ts:21-26 | two calls give one manager tied to the first window |
| IpcGuard.ValidateEventFrame | src/electron/util.ts:37-44 | accepted iff (dev mode and host `localhost:5123`) or the URL equals the expected one (the host parsing, in dev mode, succeeding) |
| IpcGuard.ProductionIgnoresHost | src/electron/util.ts:38-43 | in production the host plays no part and a localhost frame with another URL is rejected |
| IpcGuard.RejectionIsMalicious | src/electron/util.ts:41-43 | rejection of a parsed frame is the "Malicious event" error |
| IpcGuard.Handle | src/electron/util.ts:9-17 | the handler's value is returned iff validation succeeds; otherwise the validation error |
| IpcGuard.On | src/electron/util.ts:19-27 | the handler gets the payload iff validation succeeds; otherwise the validation error |
| IpcGuard.OnAgreesWithHandle | src/electron/util.ts:9-27 | both wrappers give the same verdict |
| QuranText.MergeAyahs | src/services/quranService.ts:37-43 | element i takes number, number in surah and text from Arabic i, translation from English i |
| QuranText.ExtraTranslationsIgnored | src/services/quranService.ts:37-43 | English ayahs past the Arabic count do not matter |
| QuranText.GetSurahByNumber | src/services/quranService.ts:12-46 | fewer than two editions fails with "Failed to fetch surah data"; a missing surah record or a short English edition is a TypeError; otherwise as many ayahs as Arabic, each with edition 0's surah |
| QuranText.GetPage | src/services/quranService.ts:48-75 | fewer than two editions fails with "Failed to fetch page data"; otherwise as many ayahs as Arabic, each with its own Arabic ayah's surah |
| QuranText.PageOfOneSurah | src/services/quranService.ts:12-75 | when every ayah names edition 0's surah, the page and surah operations agree |
| QuranText.AudioUrl | src/services/quranService.ts:77-79 | the CDN prefix followed by the edition, `ar.alafasy` by default |
| QuranText.AudioUrlInjective | src/services/quranService.ts:77-79 | two URLs are equal iff they ask for the same edition |
| ProgressStorage.OrUndefined | src/services/historyService.ts:17-18 | null and 0 become absent; other numbers pass through |
| ProgressStorage.ProgressOf | src/services/historyService.ts:16-21 | surah and ayah with null and 0 made absent, the page exactly as passed, the time stamp given |
| ProgressStorage.Load | src/services/historyService.ts:26-35 | a record only for a well-formed item; absent, empty or malformed gives null |
| ProgressStorage.LoadAfterSave | src/services/historyService.ts:11-35 | a save is read back exactly |
| ProgressStorage.ZeroSurahDroppedZeroPageKept | src/services/historyService.ts:17-19 | surah 0 is dropped while page 0 is kept |
| ProgressStorage.HistoryService.constructor | src/services/historyService.ts:8-9 | starts from the given storage |
| ProgressStorage.HistoryService.SaveProgress | src/services/historyService.ts:11-24 | overwrites the one key; every other key is unchanged |
| ProgressStorage.HistoryService.GetLastProgress | src/services/historyService.ts:26-35 | returns the load of the current storage |
| ProgressStorage.HistoryService.ClearProgress | src/services/historyService.ts:37-39 | removes the one key; the next load is null |
| ProgressStorage.LatestSaveWins | src/services/historyService.ts:11-35 | after two saves only the second is read back |
| ProgressStorage.ClearThenGet | src/services/historyService.ts:26-39 | after a clear there is no progress |
| HistoryStorage.Load | src/ui/services/historyService.ts:19-25 | null iff the item is absent or empty; the SyntaxError iff it is malformed; else the record |
| HistoryStorage.LoadAfterSave | src/ui/services/historyService.ts:10-25 | a save of `{surah, ayah, now}` is read back exactly, with no positivity check |
| HistoryStorage.HistoryService.constructor | src/ui/services/historyService.ts:7-8 | starts from the given storage |
| HistoryStorage.HistoryService.SaveProgress | src/ui/services/historyService.ts:10-17 | overwrites the one key; every other key is unchanged |
| HistoryStorage.HistoryService.GetLastProgress | src/ui/services/historyService.ts:19-25 | returns the load of the current storage |
| HistoryStorage.HistoryService.ClearHistory | src/ui/services/historyService.ts:27-29 | removes the one key; the next load is null |
| HistoryStorage.SaveSaveClear | src/ui/services/historyService.ts:10-29 | only the latest save survives; after a clear, null |
| ReadingHistoryCard.Render | src/ui/components/quran/ReadingHistory.tsx:11-64 | nothing is rendered iff there is no progress; otherwise surah, ayah and the time-ago label |
| ReadingHistoryCard.Resume | src/ui/components/quran/ReadingHistory.tsx:56-59 | the button selects the surah of the record the card was rendered from |
| ReadingHistoryCard.RenderFromStorage | src/ui/components/quran/ReadingHistory.tsx:11-15 | a malformed item makes the render throw; an absent or empty one renders nothing; Resume selects the stored surah |
| ReadingHistoryCard.RenderAfterSave | src/ui/components/quran/ReadingHistory.tsx:17-24 | a save one minute old renders "1m ago" |
| Seqs.Filter | src/ui/components/quran/BookmarkPanel.tsx:27 | `Array.prototype.filter`: keeps exactly the elements that pass, each from the input |
| Seqs.FilterCount | src/electron/bookmarkManager.ts:97-99 | the filter keeps each passing element as often as it occurs, and no other |
| Seqs.FilterDropsOne | src/ui/components/quran/BookmarkPanel.tsx:27 | when only element i fails, the filter equals removing element i |
| Seqs.FirstIndex | src/electron/bookmarkManager.ts:68 | `findIndex`: the first index that passes, or none when no element passes |
| Seqs.RemoveAt | src/electron/bookmarkManager.ts:70 | `splice(i, 1)`: the others keep their order, and the multiset loses exactly element i |
| Seqs.Distinct | src/ui/components/quran/BookmarkPanel.tsx:119 | `Array.from(new Set(...))`: no repetitions, nothing new, nothing lost |
| Seqs.DistinctPrefix | src/ui/components/quran/BookmarkPanel.tsx:119 | first-occurrence order: distinct values of a prefix are a prefix |
| Decimal.NatToString | src/electron/bookmarkManager.ts:57 | digits only, no leading zero |
| Decimal.ParseNatToString | src/electron/bookmarkManager.ts:57 | the decimal string parses back to the number |
| Decimal.IntToStringInjective | src/electron/notifications.ts:55 | distinct integers have distinct decimal strings |
| Numbers.Clamp | src/electron/translationManager.ts:162 | `Math.max(lo, Math.min(hi, x))` lies in [lo, hi] and is x when x is in range |
| Numbers.ClampIdempotent | src/electron/translationManager.ts:162 | clamping twice is clamping once |

## Left out

- File I/O and JSON text: a file is `Option<value>`. `console` logging is not modelled. A failed write or deletion in `historyManager.ts` is a parameter of `SaveHistory`, `SaveProgress` and `ClearHistory`. A failed write leaves the file as it was; a partly written file is not modelled. A stored text that parses to a different shape is not modelled.
- Write errors in the bookmark, translation and recitation managers are not modelled: their `try` holds only the write, the error is logged, and the event is sent all the same, so the model assumes the write succeeds.
- Clocks: `Date.now()` and `new Date().toISOString()` are parameters. `addBookmark` reads the clock twice, so it takes two parameters.
- Electron: the window is reduced to the `sent` log, and showing a notification to the `shown` log. The `icon` option passes through unexamined.
- The clipboard's `setInterval` timer is left out. `Tick` is the body of one timer call, and nothing fixes when ticks happen relative to other calls.
- `copyImage` and `pasteImage` are left out because native images are opaque here.
- Clipboard.ClipboardManager.SetMaxHistorySize: requires `size >= 0`. With a negative size the source's loop never ends, and a method proved here must terminate.
- `isDev()` (an environment variable), `pathToFileURL(getUIPath())` and `new URL(...).host` are parameters of `ValidateEventFrame`.
- `ipcWebContentsSend` is only a `send`, so it is not modelled.
- `src/electron/main.ts` registers its handlers on `ipcMain` directly and never calls the validating wrappers. The preload bridge exposes only the tray. Neither file is part of this model.
- `getAllSurahs`, the `fetch` calls and their URLs, and `response.json()` are left out. The merge takes the decoded body.
- Numbers: integral JavaScript numbers are `int` and clamped settings are `real`. NaN, infinities and non-integral numbers in decimal strings are not modelled.
- React: the panel's loading and error states, `loadBookmarks`, `handleRemoveBookmark` and `handleUpdateNote` are IPC calls whose errors only set a message. Effects, subscriptions' lifetimes and `toLocaleDateString` are left out.
- Aliasing: `updateBookmarkNote` mutates the record that the list also holds. Records are values here, so the returned record equals the updated element rather than sharing it.

/** The recitation preferences and playback commands of the desktop shell
    (src/electron/recitationManager.ts): a settings record with defaults, written to
    `recitation-settings.json`, and a fixed catalog of three reciters. Every change
    and every playback command is a message to the window, kept here as one log. */
module Recitation {
  import opened Wrappers
  import opened Seqs
  import opened Numbers

  datatype Reciter = Reciter(id: string, name: string, language: string, style: string)

  /** `this.reciters`. */
  const Reciters: seq<Reciter> := [
    Reciter("mishary_rashid_alafasy", "Mishary Rashid Alafasy", "Arabic", "Modern"),
    Reciter("abdul_basit", "Abdul Basit", "Arabic", "Traditional"),
    Reciter("saad_al_ghamdi", "Saad Al-Ghamdi", "Arabic", "Modern")
  ]

  /** The stored record; it has no playing flag. */
  datatype RecitationSettings = RecitationSettings(
    currentReciter: string,
    autoPlay: bool,
    repeatCount: int,
    volume: real,
    playbackSpeed: real)

  /** `Partial<RecitationSettings>`: `None` for a field the partial does not have. */
  datatype RecitationPatch = RecitationPatch(
    currentReciter: Option<string>,
    autoPlay: Option<bool>,
    repeatCount: Option<int>,
    volume: Option<real>,
    playbackSpeed: Option<real>)

  const NoChange := RecitationPatch(None, None, None, None, None)

  /** What `loadSettings` returns when there is no readable file. */
  const Defaults := RecitationSettings("mishary_rashid_alafasy", true, 1, 1.0, 1.0)

  /** The messages the manager sends: `recitation-settings-updated`, `play-ayah`,
      `play-surah`, `pause-playback`, `resume-playback`, `stop-playback`. */
  datatype RecitationEvent =
    | SettingsUpdated(settings: RecitationSettings)
    | PlayAyah(surahNumber: int, ayahNumber: int, reciter: string, settings: RecitationSettings)
    | PlaySurah(surahNumber: int, reciter: string, settings: RecitationSettings)
    | PausePlayback
    | ResumePlayback
    | StopPlayback

  /** `{ ...s, ...p }`, with no validation of any field. */
  function Merge(s: RecitationSettings, p: RecitationPatch): (r: RecitationSettings)
    ensures r.currentReciter == (if p.currentReciter.Some? then p.currentReciter.value else s.currentReciter)
    ensures r.autoPlay == (if p.autoPlay.Some? then p.autoPlay.value else s.autoPlay)
    ensures r.repeatCount == (if p.repeatCount.Some? then p.repeatCount.value else s.repeatCount)
    ensures r.volume == (if p.volume.Some? then p.volume.value else s.volume)
    ensures r.playbackSpeed == (if p.playbackSpeed.Some? then p.playbackSpeed.value else s.playbackSpeed)
  {
    RecitationSettings(
      p.currentReciter.GetOr(s.currentReciter),
      p.autoPlay.GetOr(s.autoPlay),
      p.repeatCount.GetOr(s.repeatCount),
      p.volume.GetOr(s.volume),
      p.playbackSpeed.GetOr(s.playbackSpeed))
  }

  /** The empty partial changes nothing, and repeating an update changes nothing more. */
  lemma MergeNoChangeAndIdempotent(s: RecitationSettings, p: RecitationPatch)
    ensures Merge(s, NoChange) == s
    ensures Merge(Merge(s, p), p) == Merge(s, p)
  {
  }

  /** `this.reciters.some(r => r.id === id)`. */
  predicate InCatalog(id: string) {
    exists i :: 0 <= i < |Reciters| && Reciters[i].id == id
  }

  function ReciterIdIs(id: string): Reciter -> bool {
    (r: Reciter) => r.id == id
  }

  /** `getCurrentReciter`: the configured reciter when the catalog has it, the
      first one otherwise; never anything outside the catalog. */
  function CurrentReciter(s: RecitationSettings): (r: Reciter)
    ensures r in Reciters
    ensures InCatalog(s.currentReciter) ==> r.id == s.currentReciter
    ensures !InCatalog(s.currentReciter) ==> r == Reciters[0]
  {
    match FirstIndex(Reciters, ReciterIdIs(s.currentReciter))
    case Some(i) => Reciters[i]
    case None => Reciters[0]
  }

  /** The ranges the two numeric setters maintain. */
  predicate InRange(s: RecitationSettings) {
    0.0 <= s.volume <= 1.0 && 0.5 <= s.playbackSpeed <= 2.0
  }

  lemma DefaultsInRange()
    ensures InRange(Defaults) && InCatalog(Defaults.currentReciter)
  {
    assert Reciters[0].id == Defaults.currentReciter;
  }

  /** `updateSettings` accepts an unknown reciter, and `getCurrentReciter` then falls
      back to the first one. */
  lemma UnknownReciterFallsBack(s: RecitationSettings)
    ensures Merge(s, NoChange.(currentReciter := Some("unknown"))).currentReciter == "unknown"
    ensures CurrentReciter(Merge(s, NoChange.(currentReciter := Some("unknown")))) == Reciters[0]
  {
    assert !InCatalog("unknown") by {
      forall i | 0 <= i < |Reciters|
        ensures Reciters[i].id != "unknown"
      {
      }
    }
  }

  class RecitationManager {
    /** `this.settings`. */
    var settings: RecitationSettings
    /** The contents of `recitation-settings.json`. */
    var file: Option<RecitationSettings>
    /** Messages sent to the window, oldest first. */
    var sent: seq<RecitationEvent>

    /** `loadSettings`: the stored record, or the defaults when there is no readable file. */
    constructor (stored: Option<RecitationSettings>)
      ensures settings == (if stored.Some? then stored.value else Defaults)
      ensures file == stored && sent == []
    {
      settings := if stored.Some? then stored.value else Defaults;
      file := stored;
      sent := [];
    }

    method GetSettings() returns (r: RecitationSettings)
      ensures r == settings
    {
      r := settings;
    }

    method UpdateSettings(p: RecitationPatch)
      modifies this
      ensures settings == Merge(old(settings), p)
      ensures file == Some(settings) && sent == old(sent) + [SettingsUpdated(settings)]
    {
      settings := Merge(settings, p);
      file := Some(settings);
      sent := sent + [SettingsUpdated(settings)];
    }

    method GetReciters() returns (r: seq<Reciter>)
      ensures r == Reciters
    {
      r := Reciters;
    }

    method GetCurrentReciter() returns (r: Reciter)
      ensures r in Reciters
      ensures InCatalog(settings.currentReciter) ==> r.id == settings.currentReciter
      ensures !InCatalog(settings.currentReciter) ==> r == Reciters[0]
    {
      r := CurrentReciter(settings);
    }

    /** Asks the window to play one ayah with the effective reciter; settings and file
        are untouched. */
    method PlayAyahCommand(surahNumber: int, ayahNumber: int)
      modifies this
      ensures settings == old(settings) && file == old(file)
      ensures sent == old(sent) + [PlayAyah(surahNumber, ayahNumber, CurrentReciter(settings).id, settings)]
    {
      var reciter := CurrentReciter(settings);
      sent := sent + [PlayAyah(surahNumber, ayahNumber, reciter.id, settings)];
    }

    method PlaySurahCommand(surahNumber: int)
      modifies this
      ensures settings == old(settings) && file == old(file)
      ensures sent == old(sent) + [PlaySurah(surahNumber, CurrentReciter(settings).id, settings)]
    {
      var reciter := CurrentReciter(settings);
      sent := sent + [PlaySurah(surahNumber, reciter.id, settings)];
    }

    method PauseCommand()
      modifies this
      ensures settings == old(settings) && file == old(file) && sent == old(sent) + [PausePlayback]
    {
      sent := sent + [PausePlayback];
    }

    method ResumeCommand()
      modifies this
      ensures settings == old(settings) && file == old(file) && sent == old(sent) + [ResumePlayback]
    {
      sent := sent + [ResumePlayback];
    }

    method StopCommand()
      modifies this
      ensures settings == old(settings) && file == old(file) && sent == old(sent) + [StopPlayback]
    {
      sent := sent + [StopPlayback];
    }

    /** Stores the volume clamped to [0, 1]; only the volume changes. */
    method SetVolume(volume: real)
      modifies this
      ensures settings == old(settings).(volume := Clamp(volume, 0.0, 1.0))
      ensures 0.0 <= settings.volume <= 1.0
      ensures file == Some(settings) && sent == old(sent) + [SettingsUpdated(settings)]
      ensures InRange(old(settings)) ==> InRange(settings)
    {
      UpdateSettings(NoChange.(volume := Some(Max(0.0, Min(1.0, volume)))));
    }

    /** Stores the speed clamped to [0.5, 2]; only the speed changes. */
    method SetPlaybackSpeed(speed: real)
      modifies this
      ensures settings == old(settings).(playbackSpeed := Clamp(speed, 0.5, 2.0))
      ensures 0.5 <= settings.playbackSpeed <= 2.0
      ensures file == Some(settings) && sent == old(sent) + [SettingsUpdated(settings)]
      ensures InRange(old(settings)) ==> InRange(settings)
    {
      UpdateSettings(NoChange.(playbackSpeed := Some(Max(0.5, Min(2.0, speed)))));
    }
  }

  /** Whatever was configured, a play command always names a catalog reciter. */
  method PlayNamesCatalogReciter(m: RecitationManager, surahNumber: int, ayahNumber: int)
    modifies m
    ensures |m.sent| == |old(m.sent)| + 1
    ensures m.sent[|m.sent| - 1].PlayAyah?
    ensures exists i :: 0 <= i < |Reciters| && Reciters[i].id == m.sent[|m.sent| - 1].reciter
  {
    m.PlayAyahCommand(surahNumber, ayahNumber);
    var r := CurrentReciter(m.settings);
    assert m.sent[|m.sent| - 1].reciter == r.id;
    var i :| 0 <= i < |Reciters| && Reciters[i] == r;
  }
}

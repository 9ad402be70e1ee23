/** The translation preferences of the desktop shell
    (src/electron/translationManager.ts): one settings record with defaults,
    written to `translation-settings.json` and sent on `translation-settings-updated`
    after every change, and a fixed catalog of four translations.

    `updateSettings` merges ANY partial record without checks; only the dedicated
    setters clamp numbers or consult the catalog. */
module TranslationSettingsStore {
  import opened Wrappers
  import opened Seqs
  import opened Numbers

  datatype Translation = Translation(id: string, name: string, language: string, author: string, source: string)

  /** `this.translations`. */
  const Translations: seq<Translation> := [
    Translation("en_sahih", "Sahih International", "English", "Saheeh International", "https://quran.com"),
    Translation("en_pickthall", "Pickthall", "English", "Mohammed Marmaduke Pickthall", "https://quran.com"),
    Translation("ur_ahmed_ali", "Ahmed Ali", "Urdu", "Ahmed Ali", "https://quran.com"),
    Translation("bn_bengali", "Bengali", "Bengali", "Zohurul Hoque", "https://quran.com")
  ]

  datatype TranslationSettings = TranslationSettings(
    primaryTranslation: string,
    secondaryTranslation: Option<string>,
    showArabic: bool,
    showTransliteration: bool,
    fontSize: real,
    lineSpacing: real)

  /** `Partial<TranslationSettings>`: `None` for a field the partial does not have. */
  datatype TranslationPatch = TranslationPatch(
    primaryTranslation: Option<string>,
    secondaryTranslation: Option<Option<string>>,
    showArabic: Option<bool>,
    showTransliteration: Option<bool>,
    fontSize: Option<real>,
    lineSpacing: Option<real>)

  const NoChange := TranslationPatch(None, None, None, None, None, None)

  /** What `loadSettings` returns when there is no readable file. */
  const Defaults := TranslationSettings("en_sahih", None, true, false, 16.0, 1.5)

  /** `{ ...s, ...p }`: each field the partial has takes its value, every other field
      keeps the old one; nothing is clamped or looked up. */
  function Merge(s: TranslationSettings, p: TranslationPatch): (r: TranslationSettings)
    ensures r.primaryTranslation == (if p.primaryTranslation.Some? then p.primaryTranslation.value else s.primaryTranslation)
    ensures r.secondaryTranslation == (if p.secondaryTranslation.Some? then p.secondaryTranslation.value else s.secondaryTranslation)
    ensures r.showArabic == (if p.showArabic.Some? then p.showArabic.value else s.showArabic)
    ensures r.showTransliteration == (if p.showTransliteration.Some? then p.showTransliteration.value else s.showTransliteration)
    ensures r.fontSize == (if p.fontSize.Some? then p.fontSize.value else s.fontSize)
    ensures r.lineSpacing == (if p.lineSpacing.Some? then p.lineSpacing.value else s.lineSpacing)
  {
    TranslationSettings(
      p.primaryTranslation.GetOr(s.primaryTranslation),
      p.secondaryTranslation.GetOr(s.secondaryTranslation),
      p.showArabic.GetOr(s.showArabic),
      p.showTransliteration.GetOr(s.showTransliteration),
      p.fontSize.GetOr(s.fontSize),
      p.lineSpacing.GetOr(s.lineSpacing))
  }

  function OrElse<T>(later: Option<T>, earlier: Option<T>): Option<T> {
    if later.Some? then later else earlier
  }

  /** `{ ...p, ...q }`: the partial that merging `p` and then `q` amounts to. */
  function Then(p: TranslationPatch, q: TranslationPatch): TranslationPatch {
    TranslationPatch(
      OrElse(q.primaryTranslation, p.primaryTranslation),
      OrElse(q.secondaryTranslation, p.secondaryTranslation),
      OrElse(q.showArabic, p.showArabic),
      OrElse(q.showTransliteration, p.showTransliteration),
      OrElse(q.fontSize, p.fontSize),
      OrElse(q.lineSpacing, p.lineSpacing))
  }

  /** Two updates in a row are one update with the combined partial. */
  lemma MergeThen(s: TranslationSettings, p: TranslationPatch, q: TranslationPatch)
    ensures Merge(Merge(s, p), q) == Merge(s, Then(p, q))
  {
  }

  /** The empty partial changes nothing, and repeating an update changes nothing more. */
  lemma MergeNoChangeAndIdempotent(s: TranslationSettings, p: TranslationPatch)
    ensures Merge(s, NoChange) == s
    ensures Merge(Merge(s, p), p) == Merge(s, p)
  {
  }

  function TranslationIdIs(id: string): Translation -> bool {
    (t: Translation) => t.id == id
  }

  /** `translations.some(t => t.id === id)`. */
  predicate InCatalog(id: string) {
    exists i :: 0 <= i < |Translations| && Translations[i].id == id
  }

  /** `getTranslationById`: the catalog entry with this id, if any. */
  function TranslationById(id: string): (r: Option<Translation>)
    ensures r.Some? ==> r.value in Translations && r.value.id == id
    ensures r.None? <==> !InCatalog(id)
  {
    match FirstIndex(Translations, TranslationIdIs(id))
    case Some(i) => Some(Translations[i])
    case None => None
  }

  /** `getPrimaryTranslation`: always a catalog entry, the configured one when it
      exists and the first entry otherwise. */
  function PrimaryTranslation(s: TranslationSettings): (t: Translation)
    ensures t in Translations
    ensures InCatalog(s.primaryTranslation) ==> t.id == s.primaryTranslation
    ensures !InCatalog(s.primaryTranslation) ==> t == Translations[0]
  {
    TranslationById(s.primaryTranslation).GetOr(Translations[0])
  }

  /** `getSecondaryTranslation`: no entry when the setting is null or empty (falsy)
      or names no catalog entry. */
  function SecondaryTranslation(s: TranslationSettings): (r: Option<Translation>)
    ensures s.secondaryTranslation.None? ==> r.None?
    ensures r.Some? ==> r.value in Translations && s.secondaryTranslation == Some(r.value.id)
    ensures s.secondaryTranslation.Some? && InCatalog(s.secondaryTranslation.value) ==> r.Some?
  {
    if s.secondaryTranslation.None? || s.secondaryTranslation.value == "" then None
    else TranslationById(s.secondaryTranslation.value)
  }

  /** The ranges and references the dedicated setters maintain. */
  predicate WellFormed(s: TranslationSettings) {
    && InCatalog(s.primaryTranslation)
    && (s.secondaryTranslation.Some? ==> InCatalog(s.secondaryTranslation.value))
    && 12.0 <= s.fontSize <= 24.0
    && 1.0 <= s.lineSpacing <= 2.0
  }

  lemma DefaultsWellFormed()
    ensures WellFormed(Defaults)
  {
    assert Translations[0].id == "en_sahih";
  }

  /** `updateSettings` does not keep settings well formed: it stores an unknown id or
      a font size of 999 as given. */
  lemma MergeBreaksWellFormed(s: TranslationSettings)
    ensures !WellFormed(Merge(s, NoChange.(fontSize := Some(999.0))))
    ensures !WellFormed(Merge(s, NoChange.(primaryTranslation := Some("does-not-exist"))))
  {
    assert !InCatalog("does-not-exist") by {
      forall i | 0 <= i < |Translations|
        ensures Translations[i].id != "does-not-exist"
      {
      }
    }
  }

  class TranslationManager {
    /** `this.settings`. */
    var settings: TranslationSettings
    /** The contents of `translation-settings.json`. */
    var file: Option<TranslationSettings>
    /** Payloads sent on `translation-settings-updated`, oldest first. */
    var sent: seq<TranslationSettings>

    /** `loadSettings`: the stored record, or the defaults when there is no readable file. */
    constructor (stored: Option<TranslationSettings>)
      ensures settings == (if stored.Some? then stored.value else Defaults)
      ensures file == stored && sent == []
    {
      settings := if stored.Some? then stored.value else Defaults;
      file := stored;
      sent := [];
    }

    method GetSettings() returns (r: TranslationSettings)
      ensures r == settings
    {
      r := settings;
    }

    method UpdateSettings(p: TranslationPatch)
      modifies this
      ensures settings == Merge(old(settings), p)
      ensures file == Some(settings) && sent == old(sent) + [settings]
    {
      settings := Merge(settings, p);
      file := Some(settings);
      sent := sent + [settings];
    }

    method GetTranslations() returns (r: seq<Translation>)
      ensures r == Translations
    {
      r := Translations;
    }

    method GetPrimaryTranslation() returns (t: Translation)
      ensures t in Translations
      ensures InCatalog(settings.primaryTranslation) ==> t.id == settings.primaryTranslation
      ensures !InCatalog(settings.primaryTranslation) ==> t == Translations[0]
    {
      t := PrimaryTranslation(settings);
    }

    method GetSecondaryTranslation() returns (r: Option<Translation>)
      ensures r == SecondaryTranslation(settings)
    {
      r := SecondaryTranslation(settings);
    }

    /** An id outside the catalog is ignored: nothing changes, nothing is sent. */
    method SetPrimaryTranslation(id: string)
      modifies this
      ensures InCatalog(id) ==>
        settings == old(settings).(primaryTranslation := id) && file == Some(settings) && sent == old(sent) + [settings]
      ensures !InCatalog(id) ==> settings == old(settings) && file == old(file) && sent == old(sent)
      ensures WellFormed(old(settings)) ==> WellFormed(settings)
    {
      if TranslationById(id).Some? {
        UpdateSettings(NoChange.(primaryTranslation := Some(id)));
      }
    }

    /** Accepts `null` or a catalog id; anything else is ignored. */
    method SetSecondaryTranslation(id: Option<string>)
      modifies this
      ensures (id.None? || InCatalog(id.value)) ==>
        settings == old(settings).(secondaryTranslation := id) && file == Some(settings) && sent == old(sent) + [settings]
      ensures !(id.None? || InCatalog(id.value)) ==> settings == old(settings) && file == old(file) && sent == old(sent)
      ensures WellFormed(old(settings)) ==> WellFormed(settings)
    {
      if id.None? || TranslationById(id.value).Some? {
        UpdateSettings(NoChange.(secondaryTranslation := Some(id)));
      }
    }

    method ToggleArabic()
      modifies this
      ensures settings == old(settings).(showArabic := !old(settings).showArabic)
      ensures file == Some(settings) && sent == old(sent) + [settings]
      ensures WellFormed(old(settings)) ==> WellFormed(settings)
    {
      UpdateSettings(NoChange.(showArabic := Some(!settings.showArabic)));
    }

    method ToggleTransliteration()
      modifies this
      ensures settings == old(settings).(showTransliteration := !old(settings).showTransliteration)
      ensures file == Some(settings) && sent == old(sent) + [settings]
      ensures WellFormed(old(settings)) ==> WellFormed(settings)
    {
      UpdateSettings(NoChange.(showTransliteration := Some(!settings.showTransliteration)));
    }

    /** Stores the size clamped to [12, 24]; a size already in range is stored as given. */
    method SetFontSize(size: real)
      modifies this
      ensures settings == old(settings).(fontSize := Clamp(size, 12.0, 24.0))
      ensures 12.0 <= settings.fontSize <= 24.0
      ensures 12.0 <= size <= 24.0 ==> settings.fontSize == size
      ensures file == Some(settings) && sent == old(sent) + [settings]
      ensures WellFormed(old(settings)) ==> WellFormed(settings)
    {
      UpdateSettings(NoChange.(fontSize := Some(Max(12.0, Min(24.0, size)))));
    }

    /** Stores the spacing clamped to [1, 2]. */
    method SetLineSpacing(spacing: real)
      modifies this
      ensures settings == old(settings).(lineSpacing := Clamp(spacing, 1.0, 2.0))
      ensures 1.0 <= settings.lineSpacing <= 2.0
      ensures file == Some(settings) && sent == old(sent) + [settings]
      ensures WellFormed(old(settings)) ==> WellFormed(settings)
    {
      UpdateSettings(NoChange.(lineSpacing := Some(Max(1.0, Min(2.0, spacing)))));
    }
  }

  /** Toggling twice restores the flag (and the whole record). */
  method ToggleArabicTwice(m: TranslationManager)
    modifies m
    ensures m.settings == old(m.settings)
  {
    m.ToggleArabic();
    m.ToggleArabic();
  }

  /** `setFontSize(999)` stores 24, and `setPrimaryTranslation("does-not-exist")`
      keeps the previous primary translation. */
  method SetterExamples(m: TranslationManager)
    modifies m
    ensures m.settings.fontSize == 24.0
    ensures m.settings.primaryTranslation == old(m.settings.primaryTranslation)
  {
    m.SetFontSize(999.0);
    MergeBreaksWellFormed(m.settings);
    m.SetPrimaryTranslation("does-not-exist");
  }
}

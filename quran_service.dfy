/** The edition merge of the Quran text client (src/services/quranService.ts). The
    HTTP request is left out: each operation takes the decoded response body, whose
    `data` field is a list of editions, the Arabic text first and the English
    translation second. A field the code reads from `undefined` is the `TypeError`
    it would throw. */
module QuranText {
  import opened Wrappers

  datatype SurahInfo = SurahInfo(
    number: int,
    name: string,
    englishName: string,
    englishNameTranslation: string,
    numberOfAyahs: int,
    revelationType: string)

  /** An ayah as the API sends it; `surah` is `None` when the object has no such field. */
  datatype ApiAyah = ApiAyah(number: int, numberInSurah: int, text: string, surah: Option<SurahInfo>)

  datatype Edition = Edition(surah: Option<SurahInfo>, ayahs: seq<ApiAyah>)

  /** The response body; `data` is `None` when the field is missing or null. */
  datatype ApiResponse = ApiResponse(data: Option<seq<Edition>>)

  /** An ayah as the client returns it: the Arabic fields, the English text as its
      translation, and a surah record. */
  datatype Ayah = Ayah(number: int, numberInSurah: int, text: string, translation: string, surah: SurahInfo)

  datatype ServiceError =
    | FailedToFetchSurahData
    | FailedToFetchPageData
    | MissingField          // a `TypeError` from reading a field of `undefined`

  function ErrorMessage(e: ServiceError): string {
    match e
    case FailedToFetchSurahData => "Failed to fetch surah data"
    case FailedToFetchPageData => "Failed to fetch page data"
    case MissingField => "TypeError"
  }

  /** `!data.data || data.data.length < 2`. */
  predicate TooFewEditions(r: ApiResponse) {
    r.data.None? || |r.data.value| < 2
  }

  /** The index-wise map over the Arabic ayahs: element `i` takes its number, number
      in surah and text from Arabic ayah `i`, its translation from English ayah `i`
      and its surah from `surahs[i]`. */
  function MergeAyahs(arabic: seq<ApiAyah>, english: seq<ApiAyah>, surahs: seq<SurahInfo>): (r: seq<Ayah>)
    requires |english| >= |arabic| && |surahs| == |arabic|
    ensures |r| == |arabic|
    ensures forall i :: 0 <= i < |r| ==>
      && r[i].number == arabic[i].number && r[i].numberInSurah == arabic[i].numberInSurah
      && r[i].text == arabic[i].text && r[i].translation == english[i].text && r[i].surah == surahs[i]
  {
    seq(|arabic|, i requires 0 <= i < |arabic| =>
      Ayah(arabic[i].number, arabic[i].numberInSurah, arabic[i].text, english[i].text, surahs[i]))
  }

  /** English ayahs beyond the Arabic count are never read. */
  lemma ExtraTranslationsIgnored(arabic: seq<ApiAyah>, english: seq<ApiAyah>, extra: seq<ApiAyah>, surahs: seq<SurahInfo>)
    requires |english| >= |arabic| && |surahs| == |arabic|
    ensures MergeAyahs(arabic, english + extra, surahs) == MergeAyahs(arabic, english, surahs)
    ensures MergeAyahs(arabic, english, surahs) == MergeAyahs(arabic, english[..|arabic|], surahs)
  {
  }

  function Repeat(x: SurahInfo, n: nat): (r: seq<SurahInfo>)
    ensures |r| == n && forall i :: 0 <= i < n ==> r[i] == x
  {
    seq(n, _ => x)
  }

  /** `getSurahByNumber`: fewer than two editions is "Failed to fetch surah data"; a
      first edition without a surah record, or fewer English than Arabic ayahs, is a
      `TypeError`; otherwise every ayah carries the first edition's surah record. */
  function GetSurahByNumber(response: ApiResponse): (r: Result<(SurahInfo, seq<Ayah>), ServiceError>)
    ensures TooFewEditions(response) <==> r == Failure(FailedToFetchSurahData)
    ensures r.Success? <==>
      && !TooFewEditions(response)
      && response.data.value[0].surah.Some?
      && |response.data.value[1].ayahs| >= |response.data.value[0].ayahs|
    ensures r.Success? ==>
      var arabic, english := response.data.value[0].ayahs, response.data.value[1].ayahs;
      && r.value.0 == response.data.value[0].surah.value
      && |r.value.1| == |arabic|
      && forall i :: 0 <= i < |arabic| ==>
           r.value.1[i] == Ayah(arabic[i].number, arabic[i].numberInSurah, arabic[i].text, english[i].text, r.value.0)
  {
    if TooFewEditions(response) then Failure(FailedToFetchSurahData)
    else
      var arabic, english := response.data.value[0].ayahs, response.data.value[1].ayahs;
      match response.data.value[0].surah
      case None => Failure(MissingField)
      case Some(surah) =>
        if |english| < |arabic| then Failure(MissingField)
        else Success((surah, MergeAyahs(arabic, english, Repeat(surah, |arabic|))))
  }

  /** Every Arabic ayah names its own surah. */
  predicate AllHaveSurah(ayahs: seq<ApiAyah>) {
    forall i :: 0 <= i < |ayahs| ==> ayahs[i].surah.Some?
  }

  function SurahsOf(ayahs: seq<ApiAyah>): (r: seq<SurahInfo>)
    requires AllHaveSurah(ayahs)
    ensures |r| == |ayahs| && forall i :: 0 <= i < |ayahs| ==> r[i] == ayahs[i].surah.value
  {
    seq(|ayahs|, i requires 0 <= i < |ayahs| => ayahs[i].surah.value)
  }

  /** `getPage`: fewer than two editions is "Failed to fetch page data"; otherwise each
      ayah carries the surah record of its own Arabic ayah, and a missing English
      ayah or surah record is a `TypeError`. */
  function GetPage(response: ApiResponse): (r: Result<seq<Ayah>, ServiceError>)
    ensures TooFewEditions(response) <==> r == Failure(FailedToFetchPageData)
    ensures r.Success? <==>
      && !TooFewEditions(response)
      && AllHaveSurah(response.data.value[0].ayahs)
      && |response.data.value[1].ayahs| >= |response.data.value[0].ayahs|
    ensures r.Success? ==>
      var arabic, english := response.data.value[0].ayahs, response.data.value[1].ayahs;
      && |r.value| == |arabic|
      && forall i :: 0 <= i < |arabic| ==>
           r.value[i] == Ayah(arabic[i].number, arabic[i].numberInSurah, arabic[i].text, english[i].text, arabic[i].surah.value)
  {
    if TooFewEditions(response) then Failure(FailedToFetchPageData)
    else
      var arabic, english := response.data.value[0].ayahs, response.data.value[1].ayahs;
      if |english| < |arabic| || !AllHaveSurah(arabic) then Failure(MissingField)
      else Success(MergeAyahs(arabic, english, SurahsOf(arabic)))
  }

  /** On a response both operations accept, a page whose ayahs all name the first
      edition's surah is that surah's ayah list. */
  lemma PageOfOneSurah(response: ApiResponse)
    requires GetSurahByNumber(response).Success? && GetPage(response).Success?
    requires forall i :: 0 <= i < |response.data.value[0].ayahs| ==>
      response.data.value[0].ayahs[i].surah == response.data.value[0].surah
    ensures GetPage(response).value == GetSurahByNumber(response).value.1
  {
  }

  const AudioBase := "https://cdn.islamic.network/quran/audio/128/"

  /** `getAudioUrl`, whose edition defaults to `ar.alafasy` when omitted. */
  function AudioUrl(edition: Option<string>): (url: string)
    ensures |url| >= |AudioBase| && url[..|AudioBase|] == AudioBase
    ensures edition.Some? ==> url[|AudioBase|..] == edition.value
    ensures edition.None? ==> url[|AudioBase|..] == "ar.alafasy"
  {
    AudioBase + edition.GetOr("ar.alafasy")
  }

  /** Different editions give different URLs, and omitting the edition is asking for
      `ar.alafasy`. */
  lemma AudioUrlInjective(e1: Option<string>, e2: Option<string>)
    ensures AudioUrl(e1) == AudioUrl(e2) <==> e1.GetOr("ar.alafasy") == e2.GetOr("ar.alafasy")
  {
    if AudioUrl(e1) == AudioUrl(e2) {
      assert AudioUrl(e1)[|AudioBase|..] == AudioUrl(e2)[|AudioBase|..];
    }
  }
}

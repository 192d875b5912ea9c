/**
 * The session record that scrape.py builds for each listed talk, and the
 * derivations of its computed fields from the raw values read off the page:
 * url, slug, abstract, language code, duration and the two translation flags.
 * Instants are whole seconds since the Unix epoch; their rendering as
 * local date and `HH:MM` strings is an input.
 */
module Sessions {
  import opened Common
  import opened Text
  import opened Decimal
  import Slug
  import Abstract

  const BaseUrl := "https://re-publica.com"
  const SecondsPerDay := 86400
  /** 2023-06-05T06:00:00Z, the start used when a session has no date element. */
  const DefaultStart := 1685944800
  /** 2023-06-07T16:00:00Z, the end used when a session has no date element. */
  const DefaultEnd := 1686153600
  const MaxSentences := 1
  const MaxWords := 20

  datatype Person = Person(id: nat, publicName: string)

  /** An instant together with its local date (`%Y-%m-%d`) and time of day (`%H:%M`). */
  datatype When = When(instant: int, date: string, time: string)

  /** The fallback instants as the conference zone (UTC+2 in June) renders them. */
  const DefaultStartWhen := When(DefaultStart, "2023-06-05", "08:00")
  const DefaultEndWhen := When(DefaultEnd, "2023-06-07", "18:00")

  datatype Session = Session(
    url: string, id: int,
    start: When, end: When, duration: string,
    room: string, slug: string, title: string, persons: seq<Person>,
    track: string, sessionType: string, language: string,
    summary: string, description: string,
    translation: bool, translationDerived: bool,
    isPartnerSession: bool, isCancelled: bool)

  /** A speaker link: its `href` and its text. */
  datatype RawSpeaker = RawSpeaker(href: string, text: string)

  /** The values read off one session article; an absent optional element is `None`. */
  datatype RawSession = RawSession(
    titleText: string, href: string, cancelled: bool, speakers: seq<RawSpeaker>,
    teaserText: string, tagText: string, roomText: Option<string>,
    times: Option<(When, When)>, formatText: string, languageText: string,
    translationText: Option<string>, hasPartner: bool)

  /** Some character of `s` is a digit, so `re.search(r"\d+", s)` finds a match. */
  predicate HasNumber(s: string)
  {
    s != [] && (IsDigit(s[0]) || HasNumber(s[1..]))
  }

  lemma {:induction false} HasNumberIff(s: string)
    ensures HasNumber(s) <==> exists i :: 0 <= i < |s| && IsDigit(s[i])
  {
    if s != [] {
      HasNumberIff(s[1..]);
      if !IsDigit(s[0]) && exists i :: 0 <= i < |s| && IsDigit(s[i]) {
        var i :| 0 <= i < |s| && IsDigit(s[i]);
        assert s[1..][i - 1] == s[i];
      }
    }
  }

  /** The longest prefix of `s` made of digits. */
  function LeadingDigits(s: string): (r: string)
    ensures r <= s && AllDigits(r)
    ensures |r| < |s| ==> !IsDigit(s[|r|])
  {
    if s != [] && IsDigit(s[0]) then [s[0]] + LeadingDigits(s[1..]) else []
  }

  /** `int(re.search(r"\d+", s).group())`: the value of the first run of digits, if there is one. */
  function FirstNumber(s: string): (r: Option<nat>)
    ensures r.Some? <==> HasNumber(s)
  {
    if s == [] then None
    else if IsDigit(s[0]) then Some(ParseDecimal(LeadingDigits(s)))
    else FirstNumber(s[1..])
  }

  /**
   * The number found is the value of the first run of digits: `i` is the
   * position of the first digit, and the run starting there is read.
   */
  lemma {:induction false} FirstNumberIsFirstRun(s: string) returns (i: nat)
    requires HasNumber(s)
    ensures i < |s| && IsDigit(s[i]) && forall k :: 0 <= k < i ==> !IsDigit(s[k])
    ensures FirstNumber(s) == Some(ParseDecimal(LeadingDigits(s[i..])))
  {
    if IsDigit(s[0]) {
      i := 0;
      assert s[0..] == s;
    } else {
      var j := FirstNumberIsFirstRun(s[1..]);
      i := j + 1;
      assert s[1..][j..] == s[i..];
      forall k | 0 <= k < i ensures !IsDigit(s[k]) {
        if k > 0 {
          assert s[k] == s[1..][k - 1];
        }
      }
    }
  }

  /** One speaker: the id from the first number in the link, the name stripped. */
  function Speaker(raw: RawSpeaker): (p: Option<Person>)
    ensures p.Some? <==> HasNumber(raw.href)
    ensures p.Some? ==> Some(p.value.id) == FirstNumber(raw.href) && p.value.publicName == Strip(raw.text)
  {
    var id := FirstNumber(raw.href);
    if id.None? then None else Some(Person(id.value, Strip(raw.text)))
  }

  /** The speaker list in page order; a link without a number aborts the whole list. */
  function ParseSpeakers(raw: seq<RawSpeaker>): (r: Option<seq<Person>>)
    ensures r.Some? ==> |r.value| == |raw|
  {
    if raw == [] then Some([])
    else
      var p := Speaker(raw[0]);
      var rest := ParseSpeakers(raw[1..]);
      if p.None? || rest.None? then None else Some([p.value] + rest.value)
  }

  /** The list is produced exactly when every link has a number. */
  lemma {:induction false} ParseSpeakersSucceeds(raw: seq<RawSpeaker>)
    ensures ParseSpeakers(raw).Some? <==> forall i :: 0 <= i < |raw| ==> HasNumber(raw[i].href)
  {
    if raw != [] {
      ParseSpeakersSucceeds(raw[1..]);
      if ParseSpeakers(raw[1..]).None? {
        var k :| 0 <= k < |raw[1..]| && !HasNumber(raw[1..][k].href);
        assert raw[1..][k] == raw[k + 1];
      }
    }
  }

  /** The list then holds one person per link, in page order. */
  lemma {:induction false} ParseSpeakersAt(raw: seq<RawSpeaker>, i: nat)
    requires ParseSpeakers(raw).Some? && i < |raw|
    ensures Speaker(raw[i]).Some? && ParseSpeakers(raw).value[i] == Speaker(raw[i]).value
  {
    if i == 0 {
      ParseSpeakersCons(raw);
    } else {
      ParseSpeakersAt(raw[1..], i - 1);
      ParseSpeakersShift(raw, i);
    }
  }

  lemma ParseSpeakersCons(raw: seq<RawSpeaker>)
    requires raw != [] && ParseSpeakers(raw).Some?
    ensures Speaker(raw[0]).Some? && ParseSpeakers(raw[1..]).Some?
    ensures ParseSpeakers(raw).value == [Speaker(raw[0]).value] + ParseSpeakers(raw[1..]).value
  {
  }

  lemma ParseSpeakersShift(raw: seq<RawSpeaker>, i: nat)
    requires ParseSpeakers(raw).Some? && 0 < i < |raw|
    ensures ParseSpeakers(raw[1..]).Some? && raw[1..][i - 1] == raw[i]
    ensures ParseSpeakers(raw).value[i] == ParseSpeakers(raw[1..]).value[i - 1]
  {
    ParseSpeakersCons(raw);
  }

  /**
   * The `H:MM` duration: `timedelta.seconds` keeps the difference modulo one
   * day, so whole days are dropped; hours unpadded, minutes two digits.
   */
  function Duration(start: int, end: int): string
  {
    var d := (end - start) % SecondsPerDay;
    ToDecimal(d / 3600) + ":" + TwoDigits((d % 3600) / 60)
  }

  /** Reads an `H:MM` string back as a number of minutes. */
  function ParseDuration(s: string): (r: Option<nat>)
  {
    var h := LeadingDigits(s);
    if h != [] && |s| == |h| + 3 && s[|h|] == ':' && AllDigits(s[|h| + 1..]) then
      Some(60 * ParseDecimal(h) + ParseDecimal(s[|h| + 1..]))
    else None
  }

  lemma MinutesOfDay(d: int)
    requires 0 <= d < SecondsPerDay
    ensures d / 3600 < 24 && (d % 3600) / 60 < 60
    ensures 60 * (d / 3600) + (d % 3600) / 60 == d / 60
  {
    var h, r := d / 3600, d % 3600;
    assert d == 3600 * h + r;
    assert 3600 * h + r == 60 * (60 * h) + r;
    assert (60 * (60 * h) + r) / 60 == 60 * h + r / 60;
  }

  /** The duration string reads back as the whole minutes of the difference modulo one day. */
  lemma DurationReadsBack(start: int, end: int)
    ensures ParseDuration(Duration(start, end)) == Some(((end - start) % SecondsPerDay) / 60)
  {
    var d := (end - start) % SecondsPerDay;
    var hs, ms := ToDecimal(d / 3600), TwoDigits((d % 3600) / 60);
    var s := Duration(start, end);
    MinutesOfDay(d);
    ParseToDecimal(d / 3600);
    ParseTwoDigits((d % 3600) / 60);
    assert s == hs + (":" + ms);
    assert LeadingDigits(s) == hs by {
      LeadingDigitsStops(hs, ":" + ms);
    }
    assert s[|hs| + 1..] == ms;
  }

  lemma {:induction false} LeadingDigitsStops(h: string, t: string)
    requires AllDigits(h)
    requires t != [] && !IsDigit(t[0])
    ensures LeadingDigits(h + t) == h
  {
    if h != [] {
      assert (h + t)[1..] == h[1..] + t;
      LeadingDigitsStops(h[1..], t);
    } else {
      assert h + t == t;
    }
  }

  lemma DurationDropsOneDay(start: int, end: int)
    ensures Duration(start, end + SecondsPerDay) == Duration(start, end)
  {
    var x := end - start;
    assert end + SecondsPerDay - start == x + SecondsPerDay;
    assert (x + SecondsPerDay) % SecondsPerDay == x % SecondsPerDay;
  }

  /** Adding whole days to the end leaves the duration unchanged. */
  lemma {:induction false} DurationDropsWholeDays(start: int, end: int, days: nat)
    ensures Duration(start, end + days * SecondsPerDay) == Duration(start, end)
  {
    if days > 0 {
      var y := end + (days - 1) * SecondsPerDay;
      assert end + days * SecondsPerDay == y + SecondsPerDay;
      DurationDropsOneDay(start, y);
      DurationDropsWholeDays(start, end, days - 1);
    }
  }

  /** A session without a date element runs from the first day 08:00 to the last day 18:00, which reads as ten hours. */
  lemma DefaultDuration()
    ensures Duration(DefaultStart, DefaultEnd) == "10:00"
  {
    assert (DefaultEnd - DefaultStart) % SecondsPerDay == 36000;
    assert ToDecimal(1) == "1";
    assert ToDecimal(10) == ToDecimal(1) + [DigitChar(0)];
    assert TwoDigits(0) == "00";
  }

  /** `element.text.strip() != "" if element else False`. */
  function TranslationFlag(text: Option<string>): (r: bool)
    ensures r <==> text.Some? && exists i :: 0 <= i < |text.value| && !IsSpace(text.value[i])
  {
    if text.None? then false
    else
      StripEmptyIff(text.value);
      Strip(text.value) != ""
  }

  /** The two-letter language code: the stripped text cut to two characters and lower-cased. */
  function LanguageCode(text: string): (r: string)
    ensures |r| <= 2
    ensures forall i :: 0 <= i < |r| ==> !('A' <= r[i] <= 'Z')
    ensures |r| == (if |Strip(text)| < 2 then |Strip(text)| else 2)
    ensures forall i :: 0 <= i < |r| ==> r[i] == LowerChar(Strip(text)[i])
  {
    var t := Strip(text);
    Lower(if |t| <= 2 then t else t[..2])
  }

  predicate InTranslatedRoom(room: string)
  {
    room == "Stage 1" || room == "Stage 2"
  }

  /**
   * The record scrape.py builds from one article. It fails exactly when a
   * speaker link carries no number, where `re.search(...).group()` raises.
   */
  function BuildSession(raw: RawSession): (r: Result<Session, string>)
    ensures r.Success? <==> forall i :: 0 <= i < |raw.speakers| ==> HasNumber(raw.speakers[i].href)
  {
    var persons := ParseSpeakers(raw.speakers);
    ParseSpeakersSucceeds(raw.speakers);
    if persons.None? then Failure("speaker link without a number")
    else
      var title := Strip(raw.titleText);
      var description := Strip(raw.teaserText);
      var room := if raw.roomText.Some? then Strip(raw.roomText.value) else "";
      var start := if raw.times.Some? then raw.times.value.0 else DefaultStartWhen;
      var end := if raw.times.Some? then raw.times.value.1 else DefaultEndWhen;
      Success(Session(
        url := BaseUrl + raw.href, id := 0,
        start := start, end := end, duration := Duration(start.instant, end.instant),
        room := room, slug := Slug.GenerateSlug(title), title := title, persons := persons.value,
        track := Strip(raw.tagText), sessionType := Strip(raw.formatText),
        language := LanguageCode(raw.languageText),
        summary := Abstract.ShortenDescription(description, MaxSentences, MaxWords),
        description := description,
        translation := TranslationFlag(raw.translationText),
        translationDerived := InTranslatedRoom(room) && !raw.hasPartner,
        isPartnerSession := raw.hasPartner, isCancelled := raw.cancelled))
  }

  /** A built session has a well-formed slug that keeps the title's word characters, lower-cased. */
  lemma BuildSessionSlug(raw: RawSession)
    requires forall i :: 0 <= i < |raw.speakers| ==> HasNumber(raw.speakers[i].href)
    ensures var s := BuildSession(raw).value;
      Slug.IsSlug(s.slug) && Slug.WordChars(s.slug) == Lower(Slug.WordChars(s.title))
  {
    var title := Strip(raw.titleText);
    assert BuildSession(raw).value.slug == Slug.GenerateSlug(title);
    assert BuildSession(raw).value.title == title;
    Slug.SlugIsWellFormed(title);
    Slug.SlugKeepsWordChars(title);
  }

  /**
   * A built session's duration is derived from its own start and end (so
   * `DurationReadsBack` applies to it); without a date element it runs from
   * the fallback start to the fallback end.
   */
  lemma BuildSessionTimes(raw: RawSession)
    requires forall i :: 0 <= i < |raw.speakers| ==> HasNumber(raw.speakers[i].href)
    ensures var s := BuildSession(raw).value;
      && (raw.times.Some? ==> (s.start, s.end) == raw.times.value)
      && (raw.times.None? ==> s.start == DefaultStartWhen && s.end == DefaultEndWhen)
      && s.duration == Duration(s.start.instant, s.end.instant)
  {
  }

  /**
   * The flags of a built session: the explicit translation flag is set
   * exactly when the marker element exists and has visible text; the derived
   * flag exactly for a non-partner session in Stage 1 or Stage 2. The two are
   * kept apart. The remaining fields are as built: the link, the fixed id 0,
   * the parsed speakers (one person per link) and the language code.
   */
  lemma BuildSessionFlags(raw: RawSession)
    requires forall i :: 0 <= i < |raw.speakers| ==> HasNumber(raw.speakers[i].href)
    ensures var s := BuildSession(raw).value;
      && (s.translation <==> (raw.translationText.Some? &&
            exists i :: 0 <= i < |raw.translationText.value| && !IsSpace(raw.translationText.value[i])))
      && (s.translationDerived <==> InTranslatedRoom(s.room) && !raw.hasPartner)
      && s.isPartnerSession == raw.hasPartner
      && s.isCancelled == raw.cancelled
      && s.url == BaseUrl + raw.href
      && s.id == 0
      && s.persons == ParseSpeakers(raw.speakers).value
      && |s.persons| == |raw.speakers|
      && s.language == LanguageCode(raw.languageText)
  {
  }

  /**
   * The text fields of a built session: title, description, tag, format and
   * room are the stripped element texts (an absent room is ""), and the
   * abstract is the shortened description.
   */
  lemma BuildSessionText(raw: RawSession)
    requires forall i :: 0 <= i < |raw.speakers| ==> HasNumber(raw.speakers[i].href)
    ensures var s := BuildSession(raw).value;
      && s.title == Strip(raw.titleText)
      && s.description == Strip(raw.teaserText)
      && s.track == Strip(raw.tagText)
      && s.sessionType == Strip(raw.formatText)
      && s.room == (if raw.roomText.Some? then Strip(raw.roomText.value) else "")
      && s.summary == Abstract.ShortenDescription(s.description, MaxSentences, MaxWords)
  {
  }
}

/** parsers/parseFromCity.ts: the origin city, from "из X" / "откуда X", or
    from the whole message when the dialog has just asked for it. */
module FromCityParser {
  import opened Wrappers
  import opened Text
  import opened SlotModel
  import opened FuzzySearch
  import opened CityMatch
  import CityUtils

  const FromKeywords: seq<string> := ["из", "откуда"]

  /** The text the fallback looks up: the trimmed message, capitalised. */
  function RawFromCity(message: string): string {
    Capitalize(Trim(message))
  }

  /** The fallback runs only without a preposition match, when the origin
      city is the expected slot and the trimmed message is longer than one
      character. */
  predicate FallbackApplies(message: string, expected: Option<SlotName>) {
    PrepositionCapture(message, FromKeywords).None?
    && expected == Some(FromCity) && |Trim(message)| > 1
  }

  /** `parseFromCity`. The record holds at most the origin city or a
      candidate of type Origin, never both, and no other key. */
  function ParseFromCity(message: string, expected: Option<SlotName>, gaz: Gazetteer): (r: SlotState)
    ensures !(r.fromCity.Some? && r.cityCandidate.Some?)
    ensures CandidateTyped(r)
    ensures r.cityCandidateType.Some? ==> r.cityCandidateType == Some(Origin)
    ensures r.toCity.None? && r.date.None? && r.passengers.None? && r.transportType.None?
    ensures NoFlags(r)
  {
    match PrepositionCapture(message, FromKeywords)
    case Some(capture) => CapturePath(capture, Origin, gaz)
    case None =>
      if expected == Some(FromCity) && |Trim(message)| > 1 then
        var rawCity := RawFromCity(message);
        match Resolve(rawCity, gaz.search(rawCity))
        case Some(res) => Record(Origin, Some(res))
        case None => Empty.(cityCandidate := Some(rawCity), cityCandidateType := Some(Origin))
      else Empty
  }

  /** The text handed to the fuzzy search, if any: the cleaned capture, or
      on the fallback the raw message. */
  function LookedUp(message: string, expected: Option<SlotName>, gaz: Gazetteer): Option<string> {
    match PrepositionCapture(message, FromKeywords)
    case Some(capture) =>
      var clean := CityUtils.CleanCity(Capitalize(Trim(capture)), gaz.cities);
      if clean != "" then Some(clean) else None
    case None => if FallbackApplies(message, expected) then Some(RawFromCity(message)) else None
  }

  /** On the preposition path, a capture the cleaner finds no city in gives
      the empty record. */
  lemma FromEmptyClean(message: string, expected: Option<SlotName>, gaz: Gazetteer)
    requires PrepositionCapture(message, FromKeywords).Some?
    requires CityUtils.CleanCity(Capitalize(Trim(PrepositionCapture(message, FromKeywords).value)), gaz.cities) == ""
    ensures ParseFromCity(message, expected, gaz) == Empty
  {
  }

  /** How the top hit of the looked-up text decides the record: a score of
      0 sets the origin city to the hit; a score below 0.3 sets it when the
      two differ in case alone, and otherwise records the hit as a
      candidate; anything else records nothing, except on the fallback,
      which keeps the raw text as a candidate. */
  lemma FromTiers(message: string, expected: Option<SlotName>, gaz: Gazetteer)
    requires LookedUp(message, expected, gaz).Some?
    ensures var text := LookedUp(message, expected, gaz).value;
      var r := ParseFromCity(message, expected, gaz);
      match gaz.search(text)
      case Hit(item, Exact) => r == Empty.(fromCity := Some(item))
      case Hit(item, Close) =>
        if LowerStr(text) == LowerStr(item) then r == Empty.(fromCity := Some(item))
        else r == Empty.(cityCandidate := Some(item), cityCandidateType := Some(Origin))
      case _ =>
        if FallbackApplies(message, expected) then
          r == Empty.(cityCandidate := Some(text), cityCandidateType := Some(Origin))
        else r == Empty
  {
  }

  /** Anything other than the empty record comes from the preposition
      pattern or from the fallback's conditions. */
  lemma FromFallbackOnly(message: string, expected: Option<SlotName>, gaz: Gazetteer)
    requires PrepositionCapture(message, FromKeywords).None?
    requires ParseFromCity(message, expected, gaz) != Empty
    ensures expected == Some(FromCity) && |Trim(message)| > 1
  {
  }

  /** Without an expected slot only the preposition path can contribute,
      and with a preposition match the expected slot is never read. */
  lemma FromWithoutExpectation(message: string, expected: Option<SlotName>, gaz: Gazetteer)
    ensures ParseFromCity(message, None, gaz) ==
      if PrepositionCapture(message, FromKeywords).Some? then ParseFromCity(message, expected, gaz)
      else Empty
  {
  }

  /** "из X" with X a known city in any case: the lookup is X capitalised,
      whatever the expected slot. */
  lemma {:induction false} FromPhrase(x: string, expected: Option<SlotName>, gaz: Gazetteer)
    requires CityPhrase(LowerStr(x)) && LowerStr(x) in gaz.cities
    ensures var text := Capitalize(LowerStr(x));
      ParseFromCity("из " + x, expected, gaz) == Record(Origin, Resolve(text, gaz.search(text)))
  {
    assert LowerStr("из") == "из" by {
      assert Lower('и') == 'и' && Lower('з') == 'з';
    }
    assert "из " + x == FromKeywords[0] + " " + x;
    PhrasePath(FromKeywords, x, Origin, gaz);
  }

  /** A known city after "из" that the search matches with score 0 becomes
      the origin, and no candidate is produced. */
  lemma FromExactPhrase(x: string, expected: Option<SlotName>, gaz: Gazetteer, item: string)
    requires CityPhrase(LowerStr(x)) && LowerStr(x) in gaz.cities
    requires gaz.search(Capitalize(LowerStr(x))) == Hit(item, Exact)
    ensures ParseFromCity("из " + x, expected, gaz).fromCity == Some(item)
    ensures ParseFromCity("из " + x, expected, gaz).cityCandidate.None?
  {
    FromPhrase(x, expected, gaz);
  }

  /** A known city after "из" that the search only comes close to, under a
      different name, becomes a candidate and never the origin. */
  lemma FromClosePhrase(x: string, expected: Option<SlotName>, gaz: Gazetteer, item: string)
    requires CityPhrase(LowerStr(x)) && LowerStr(x) in gaz.cities
    requires gaz.search(Capitalize(LowerStr(x))) == Hit(item, Close)
    requires LowerStr(item) != LowerStr(x)
    ensures ParseFromCity("из " + x, expected, gaz).cityCandidate == Some(item)
    ensures ParseFromCity("из " + x, expected, gaz).cityCandidateType == Some(Origin)
    ensures ParseFromCity("из " + x, expected, gaz).fromCity.None?
  {
    FromPhrase(x, expected, gaz);
    LowerOfCapitalize(LowerStr(x));
    LowerStrTwice(x);
  }

  /** A misspelt city after "из" is dropped without a word: a single word
      the city list does not hold gives the empty record, whatever the
      expected slot, so the fuzzy search is never consulted. */
  lemma FromUnknownWordDropped(x: string, expected: Option<SlotName>, gaz: Gazetteer)
    requires CityPhrase(LowerStr(x)) && ' ' !in LowerStr(x)
    requires LowerStr(x) !in gaz.cities
    ensures ParseFromCity("из " + x, expected, gaz) == Empty
  {
    assert LowerStr("из") == "из" by {
      assert Lower('и') == 'и' && Lower('з') == 'з';
    }
    assert "из " + x == FromKeywords[0] + " " + x;
    PhraseCapture(FromKeywords, x);
    LowerStrTwice(x);
    UnknownWordDropped(LowerStr(x), Origin, gaz);
  }

  /** "из мнск" against a city list holding "минск" records nothing, while
      the bare "мнск", with the origin expected, reaches the search and
      becomes a candidate when the search comes close to "Минск". */
  lemma MisspeltOriginDropped(expected: Option<SlotName>, gaz: Gazetteer)
    requires gaz.cities == {"минск"}
    ensures ParseFromCity("из мнск", expected, gaz) == Empty
    ensures gaz.search("Мнск") == Hit("Минск", Close) ==>
      ParseFromCity("мнск", Some(FromCity), gaz) == Empty.(cityCandidate := Some("Минск"), cityCandidateType := Some(Origin))
  {
    var x := "мнск";
    assert LowerStr(x) == x;
    assert CityPhrase(x);
    assert "из мнск" == "из " + x;
    FromUnknownWordDropped(x, expected, gaz);
    NoCaptureWithoutSpace(x, FromKeywords, 0);
    TrimOfTrimmed(x);
    assert RawFromCity(x) == "Мнск";
    assert LowerStr("Мнск") != LowerStr("Минск") by {
      assert LowerStr("Мнск")[1] == 'н' && LowerStr("Минск")[1] == 'и';
    }
    assert LookedUp(x, Some(FromCity), gaz) == Some("Мнск");
    FromTiers(x, Some(FromCity), gaz);
  }
}

/** parsers/parseToCity.ts: the destination city, from "в X" / "куда X" /
    "поехать в X", or from the message's last word when the dialog has
    just asked for it. */
module ToCityParser {
  import opened Wrappers
  import opened Text
  import opened SlotModel
  import opened FuzzySearch
  import opened CityMatch

  const ToKeywords: seq<string> := ["в", "куда", "поехать в"]

  /** `rawCity` on the fallback: the whole trimmed message when splitting
      it at spaces gives one part, otherwise its last part. */
  function FallbackCity(trimmed: string): string {
    var words := SplitOn(trimmed, ' ');
    if |words| == 1 then Capitalize(trimmed) else Capitalize(words[|words| - 1])
  }

  /** `rawCity`: set only when the preposition pattern fails and the
      destination is the expected slot. */
  function RawToCity(message: string, expected: Option<SlotName>): string {
    if PrepositionCapture(message, ToKeywords).None? && expected == Some(ToCity) then
      FallbackCity(Trim(message))
    else ""
  }

  /** `parseToCity`. The record holds at most the destination or a
      candidate of type Destination, never both, and no other key. */
  function ParseToCity(message: string, expected: Option<SlotName>, gaz: Gazetteer): (r: SlotState)
    ensures !(r.toCity.Some? && r.cityCandidate.Some?)
    ensures CandidateTyped(r)
    ensures r.cityCandidateType.Some? ==> r.cityCandidateType == Some(Destination)
    ensures r.fromCity.None? && r.date.None? && r.passengers.None? && r.transportType.None?
    ensures NoFlags(r)
  {
    var fromCapture :=
      match PrepositionCapture(message, ToKeywords)
      case Some(capture) => CapturePath(capture, Destination, gaz)
      case None => Empty;
    var rawCity := RawToCity(message, expected);
    if rawCity != "" && ' ' !in rawCity then
      Merge(fromCapture, Record(Destination, Resolve(rawCity, gaz.search(rawCity))))
    else fromCapture
  }

  /** The fallback word is the last space-separated part of the trimmed
      message, capitalised: for a one-word message that is the message. */
  lemma {:induction false} FallbackIsLastWord(trimmed: string)
    ensures var words := SplitOn(trimmed, ' ');
      FallbackCity(trimmed) == Capitalize(words[|words| - 1])
  {
    var words := SplitOn(trimmed, ' ');
    if |words| == 1 {
      JoinSplit(trimmed, ' ');
      assert Join(words, [' ']) == words[0];
      assert trimmed == words[0];
    }
  }

  /** The fallback word never holds a space, so the `includes(' ')` guard
      never rejects it. */
  lemma FallbackHasNoSpace(trimmed: string)
    ensures ' ' !in FallbackCity(trimmed)
  {
    var words := SplitOn(trimmed, ' ');
    var w := words[|words| - 1];
    FallbackIsLastWord(trimmed);
    SplitOnFields(trimmed, ' ');
    assert ' ' !in w;
    if |w| > 0 {
      assert Capitalize(w) == [Upper(w[0])] + w[1..];
      assert w[0] != ' ';
      assert ' ' !in w[1..] by {
        forall k | 0 <= k < |w[1..]| ensures w[1..][k] != ' ' { assert w[1..][k] == w[k + 1]; }
      }
    }
  }

  /** A message with no space inside its trimmed text is looked up whole. */
  lemma FallbackOneWord(trimmed: string)
    requires ' ' !in trimmed
    ensures FallbackCity(trimmed) == Capitalize(trimmed)
  {
    SplitOnNone(trimmed, ' ');
  }

  /** The preposition path and the fallback lookup exclude each other: a
      capture leaves no raw city, and a raw city means there was none. */
  lemma ToPathsExclusive(message: string, expected: Option<SlotName>, gaz: Gazetteer)
    ensures PrepositionCapture(message, ToKeywords).Some? ==> RawToCity(message, expected) == ""
    ensures RawToCity(message, expected) != "" ==>
      expected == Some(ToCity) && PrepositionCapture(message, ToKeywords).None?
  {
  }

  /** On the fallback the lookup of the last word decides alone; unlike the
      origin parser, no good hit records nothing. */
  lemma ToFallback(message: string, expected: Option<SlotName>, gaz: Gazetteer)
    requires PrepositionCapture(message, ToKeywords).None?
    ensures var raw := RawToCity(message, expected);
      ParseToCity(message, expected, gaz) ==
        if raw == "" then Empty else Record(Destination, Resolve(raw, gaz.search(raw)))
  {
    var raw := RawToCity(message, expected);
    if raw != "" {
      FallbackHasNoSpace(Trim(message));
      MergeEmpty(Record(Destination, Resolve(raw, gaz.search(raw))));
    }
  }

  /** A fallback lookup with no hit under 0.3 leaves the record empty. */
  lemma ToFallbackMissRecordsNothing(message: string, expected: Option<SlotName>, gaz: Gazetteer)
    requires PrepositionCapture(message, ToKeywords).None?
    requires var raw := RawToCity(message, expected);
      gaz.search(raw).NoHit? || gaz.search(raw).tier == Distant
    ensures ParseToCity(message, expected, gaz) == Empty
  {
    ToFallback(message, expected, gaz);
  }

  /** Anything other than the empty record comes from the preposition
      pattern or from the destination being the expected slot. */
  lemma ToFallbackOnly(message: string, expected: Option<SlotName>, gaz: Gazetteer)
    requires PrepositionCapture(message, ToKeywords).None?
    requires ParseToCity(message, expected, gaz) != Empty
    ensures expected == Some(ToCity)
  {
  }

  /** Without an expected slot only the preposition path can contribute,
      and with a preposition match the expected slot is never read. */
  lemma ToWithoutExpectation(message: string, expected: Option<SlotName>, gaz: Gazetteer)
    ensures ParseToCity(message, None, gaz) ==
      if PrepositionCapture(message, ToKeywords).Some? then ParseToCity(message, expected, gaz)
      else Empty
  {
  }

  /** "в X" with X a known city in any case: the lookup is X capitalised,
      whatever the expected slot. */
  lemma {:induction false} ToPhrase(x: string, expected: Option<SlotName>, gaz: Gazetteer)
    requires CityPhrase(LowerStr(x)) && LowerStr(x) in gaz.cities
    ensures var text := Capitalize(LowerStr(x));
      ParseToCity("в " + x, expected, gaz) == Record(Destination, Resolve(text, gaz.search(text)))
  {
    assert LowerStr("в") == "в" by {
      assert Lower('в') == 'в';
    }
    assert "в " + x == ToKeywords[0] + " " + x;
    PhrasePath(ToKeywords, x, Destination, gaz);
  }

  /** A known city after "в" that the search matches with score 0 becomes
      the destination, and no candidate is produced. */
  lemma ToExactPhrase(x: string, expected: Option<SlotName>, gaz: Gazetteer, item: string)
    requires CityPhrase(LowerStr(x)) && LowerStr(x) in gaz.cities
    requires gaz.search(Capitalize(LowerStr(x))) == Hit(item, Exact)
    ensures ParseToCity("в " + x, expected, gaz).toCity == Some(item)
    ensures ParseToCity("в " + x, expected, gaz).cityCandidate.None?
  {
    ToPhrase(x, expected, gaz);
  }

  /** A known city after "в" that the search only comes close to, under a
      different name, becomes a candidate and never the destination. */
  lemma ToClosePhrase(x: string, expected: Option<SlotName>, gaz: Gazetteer, item: string)
    requires CityPhrase(LowerStr(x)) && LowerStr(x) in gaz.cities
    requires gaz.search(Capitalize(LowerStr(x))) == Hit(item, Close)
    requires LowerStr(item) != LowerStr(x)
    ensures ParseToCity("в " + x, expected, gaz).cityCandidate == Some(item)
    ensures ParseToCity("в " + x, expected, gaz).cityCandidateType == Some(Destination)
    ensures ParseToCity("в " + x, expected, gaz).toCity.None?
  {
    ToPhrase(x, expected, gaz);
    LowerOfCapitalize(LowerStr(x));
    LowerStrTwice(x);
  }
}

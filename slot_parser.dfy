/** parsers/slotParser.ts: every extractor runs on the message and the
    partial records are spread into one, left to right. The extractors
    never read the dialog state that the source passes along, so the model
    leaves that argument out. */
module SlotParser {
  import opened Wrappers
  import opened Text
  import opened SlotModel
  import opened FuzzySearch
  import opened FromCityParser
  import opened ToCityParser
  import opened DateParser
  import opened PassengersParser
  import opened TransportParser
  import CityMatch

  /** The guard of the two retries: the slot and any candidate are still
      unset, the slot is the expected one, and the trimmed message is
      longer than one character. */
  predicate RetryApplies(slots: SlotState, slot: SlotName, value: Option<string>,
                         message: string, expected: Option<SlotName>)
  {
    !Present(value) && !Present(slots.cityCandidate) && expected == Some(slot) && |Trim(message)| > 1
  }

  /** `parseSlotsFromMessage`: the city passes with their retries, then
      the date, passengers and transport extractors. */
  function ParseSlotsFromMessage(message: string, expected: Option<SlotName>, gaz: Gazetteer, year: nat): (r: SlotState)
    ensures NoFlags(r)
    ensures CandidateTyped(r)
  {
    var d := ParseDate(message, year);
    var p := ParsePassengers(message, expected);
    var x := ParseTransportType(message, expected);
    SingleKeyExtracted(d);
    SingleKeyExtracted(p);
    SingleKeyExtracted(x);
    var s3 := CityPasses(message, expected, gaz);
    var s4 := Spread(s3, d);
    var s5 := Spread(s4, p);
    Spread(s5, x)
  }

  /** The origin and destination extractors, each followed by its retry
      without an expected slot, as written. */
  function CityPasses(message: string, expected: Option<SlotName>, gaz: Gazetteer): (r: SlotState)
    ensures Extracted(r)
  {
    var s0 := Spread(Empty, ParseFromCity(message, expected, gaz));
    var s1 :=
      if RetryApplies(s0, FromCity, s0.fromCity, message, expected) then
        Spread(s0, ParseFromCity(message, None, gaz))
      else s0;
    var s2 := Spread(s1, ParseToCity(message, expected, gaz));
    if RetryApplies(s2, ToCity, s2.toCity, message, expected) then
      Spread(s2, ParseToCity(message, None, gaz))
    else s2
  }

  /** A record that holds at most a date, a passenger count or a transport
      type is an extractor record. */
  lemma SingleKeyExtracted(r: SlotState)
    requires r == Empty || r == Empty.(date := r.date) || r == Empty.(passengers := r.passengers)
      || r == Empty.(transportType := r.transportType)
    ensures Extracted(r)
  {
  }

  /** An extractor record: no flags, and a candidate only with its type. */
  predicate Extracted(r: SlotState) {
    NoFlags(r) && CandidateTyped(r)
  }

  /** `{...slots, ...x}` for extractor records, which keeps that shape. */
  function Spread(slots: SlotState, x: SlotState): (r: SlotState)
    requires Extracted(slots) && Extracted(x)
    ensures Extracted(r)
  {
    MergeKeepsCandidateTyped(slots, x);
    Merge(slots, x)
  }

  /** The five extractor records, in merge order. */
  function Extractions(message: string, expected: Option<SlotName>, gaz: Gazetteer, year: nat): seq<SlotState> {
    [ParseFromCity(message, expected, gaz), ParseToCity(message, expected, gaz), ParseDate(message, year),
     ParsePassengers(message, expected), ParseTransportType(message, expected)]
  }

  /** Spreading records one after another into `base`. */
  function MergeAll(base: SlotState, records: seq<SlotState>): SlotState
    decreases |records|
  {
    if |records| == 0 then base else MergeAll(Merge(base, records[0]), records[1..])
  }

  /** Each retry adds nothing: without an expected slot an extractor either
      repeats its preposition result, already spread in, or returns `{}`.
      The orchestrator is the plain left-to-right merge of the five
      extractor records. */
  lemma RetriesChangeNothing(message: string, expected: Option<SlotName>, gaz: Gazetteer, year: nat)
    ensures ParseSlotsFromMessage(message, expected, gaz, year) ==
      MergeAll(Empty, Extractions(message, expected, gaz, year))
  {
    var f := ParseFromCity(message, expected, gaz);
    var t := ParseToCity(message, expected, gaz);
    CityRetriesChangeNothing(message, expected, gaz);
    MergeAllFive(Empty, f, t, ParseDate(message, year), ParsePassengers(message, expected),
                 ParseTransportType(message, expected));
  }

  /** Neither city retry adds anything to the two city records. */
  lemma CityRetriesChangeNothing(message: string, expected: Option<SlotName>, gaz: Gazetteer)
    ensures CityPasses(message, expected, gaz) ==
      Merge(Merge(Empty, ParseFromCity(message, expected, gaz)), ParseToCity(message, expected, gaz))
  {
    var f := ParseFromCity(message, expected, gaz);
    var t := ParseToCity(message, expected, gaz);
    FromWithoutExpectation(message, expected, gaz);
    ToWithoutExpectation(message, expected, gaz);
    MergeEmpty(f);
    var s0 := Spread(Empty, f);
    assert s0 == f;
    MergeSelf(f);
    var s1 :=
      if RetryApplies(s0, FromCity, s0.fromCity, message, expected) then
        Spread(s0, ParseFromCity(message, None, gaz))
      else s0;
    assert s1 == f;
    var s2 := Spread(s1, t);
    MergeTwice(s1, t);
    MergeEmpty(s2);
  }

  lemma MergeAllFive(base: SlotState, a: SlotState, b: SlotState, c: SlotState, d: SlotState, e: SlotState)
    ensures MergeAll(base, [a, b, c, d, e]) == Merge(Merge(Merge(Merge(Merge(base, a), b), c), d), e)
  {
    var m1 := Merge(base, a);
    var m2 := Merge(m1, b);
    var m3 := Merge(m2, c);
    var m4 := Merge(m3, d);
    assert [a, b, c, d, e][1..] == [b, c, d, e];
    assert [b, c, d, e][1..] == [c, d, e];
    assert [c, d, e][1..] == [d, e];
    assert [d, e][1..] == [e];
    assert [e][1..] == [];
    assert MergeAll(m4, [e]) == Merge(m4, e);
    assert MergeAll(m3, [d, e]) == MergeAll(m4, [e]);
    assert MergeAll(m2, [c, d, e]) == MergeAll(m3, [d, e]);
    assert MergeAll(m1, [b, c, d, e]) == MergeAll(m2, [c, d, e]);
    assert MergeAll(base, [a, b, c, d, e]) == MergeAll(m1, [b, c, d, e]);
  }

  /** Where each key of the result comes from: each slot from its own
      extractor, and the candidate from the destination parser when it
      produced one, otherwise from the origin parser. A destination
      candidate thus overwrites an origin one together with its type. */
  lemma {:induction false} SlotsFromExtractors(message: string, expected: Option<SlotName>, gaz: Gazetteer, year: nat)
    ensures var r := ParseSlotsFromMessage(message, expected, gaz, year);
      var f := ParseFromCity(message, expected, gaz);
      var t := ParseToCity(message, expected, gaz);
      r.fromCity == f.fromCity && r.toCity == t.toCity
      && r.date == ParseDate(message, year).date
      && r.passengers == ParsePassengers(message, expected).passengers
      && r.transportType == ParseTransportType(message, expected).transportType
      && r.cityCandidate == (if t.cityCandidate.Some? then t.cityCandidate else f.cityCandidate)
      && r.cityCandidateType == (if t.cityCandidate.Some? then Some(Destination) else f.cityCandidateType)
  {
    var f := ParseFromCity(message, expected, gaz);
    var t := ParseToCity(message, expected, gaz);
    var d := ParseDate(message, year);
    var p := ParsePassengers(message, expected);
    var x := ParseTransportType(message, expected);
    RetriesChangeNothing(message, expected, gaz, year);
    MergeAllFive(Empty, f, t, d, p, x);
    assert Extractions(message, expected, gaz, year) == [f, t, d, p, x];
  }

  /** When only the origin extractor finds anything, the parse is its
      record. */
  lemma OriginAlone(message: string, expected: Option<SlotName>, gaz: Gazetteer, year: nat)
    requires ParseToCity(message, expected, gaz) == Empty && ParseDate(message, year) == Empty
    requires ParsePassengers(message, expected) == Empty && ParseTransportType(message, expected) == Empty
    ensures ParseSlotsFromMessage(message, expected, gaz, year) == ParseFromCity(message, expected, gaz)
  {
    SlotsFromExtractors(message, expected, gaz, year);
  }

  /** While the origin city is expected, the answer "да" is itself read as
      the origin: it holds no preposition, so the fallback takes the
      capitalised message, and when the search finds nothing for it, it
      becomes a candidate of type Origin. Nothing else is parsed. */
  lemma YesReadAsOrigin(gaz: Gazetteer, year: nat)
    requires gaz.search("Да") == NoHit
    ensures ParseSlotsFromMessage("да", Some(FromCity), gaz, year) ==
      Empty.(cityCandidate := Some("Да"), cityCandidateType := Some(Origin))
  {
    YesFromCity(gaz);
    YesToCity(gaz, Some(FromCity));
    YesNoDate(year);
    YesNoCount(Some(FromCity));
    YesNoTransport(Some(FromCity));
    OriginAlone("да", Some(FromCity), gaz, year);
  }

  // What each extractor makes of "да": a word of two letters, with no
  // whitespace, no digit and no transport keyword in it.

  lemma YesCapture(keywords: seq<string>)
    ensures CityMatch.PrepositionCapture("да", keywords).None?
  {
    assert LowerStr("да") == "да";
    CityMatch.NoCaptureWithoutSpace("да", keywords, 0);
  }

  lemma YesFromCity(gaz: Gazetteer)
    requires gaz.search("Да") == NoHit
    ensures ParseFromCity("да", Some(FromCity), gaz) == Empty.(cityCandidate := Some("Да"), cityCandidateType := Some(Origin))
  {
    YesCapture(FromKeywords);
    TrimOfTrimmed("да");
    assert Capitalize("да") == "Да";
    assert LookedUp("да", Some(FromCity), gaz) == Some("Да");
    FromTiers("да", Some(FromCity), gaz);
  }

  lemma YesToCity(gaz: Gazetteer, expected: Option<SlotName>)
    requires expected != Some(ToCity)
    ensures ParseToCity("да", expected, gaz) == Empty
  {
    YesCapture(ToKeywords);
  }

  lemma YesNoDate(year: nat)
    ensures ParseDate("да", year) == Empty
  {
    var m := "да";
    assert LowerStr(m) == m;
    assert forall k :: 0 <= k < |m| ==> !IsDigit(m[k]);
    NoDigitNoDate(m, year);
  }

  lemma YesNoCount(expected: Option<SlotName>)
    ensures ParsePassengers("да", expected) == Empty
  {
    var m := "да";
    assert LowerStr(m) == m;
    assert forall k :: 0 <= k < |m| ==> !IsDigit(m[k]);
    NoDigitNoCount(m, expected);
  }

  lemma YesNoTransport(expected: Option<SlotName>)
    ensures ParseTransportType("да", expected) == Empty
  {
    var m := "да";
    assert LowerStr(m) == m;
    forall i | 0 <= i < |TransportWords| ensures !Contains(LowerStr(m), TransportWords[i]) {
      ShorterContainsNot(m, TransportWords[i]);
    }
    NoKeywordNoTransport(m, expected);
  }
}

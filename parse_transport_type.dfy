/** parsers/parseTransportType.ts: the transport type, from the first
    keyword the message contains. */
module TransportParser {
  import opened Wrappers
  import opened Text
  import opened SlotModel

  /** The three values the parser writes. */
  predicate IsTransport(t: string) {
    t == "поезд" || t == "автобус" || t == "самолет"
  }

  /** The words the expected-slot branch accepts. */
  const TransportWords: seq<string> := ["поезд", "автобус", "самолет", "самолёт", "plane"]

  /** The substring tests, in their order: train, then bus, then plane in
      its three spellings. */
  function KeywordHit(lower: string): Option<string> {
    if Contains(lower, "поезд") then Some("поезд")
    else if Contains(lower, "автобус") then Some("автобус")
    else if Contains(lower, "самолет") || Contains(lower, "самолёт") || Contains(lower, "plane") then Some("самолет")
    else None
  }

  /** `parseTransportType`, with the branch for an expected transport slot
      as written. The record holds one of the three values alone, or
      nothing. */
  function ParseTransportType(message: string, expected: Option<SlotName>): (r: SlotState)
    ensures r == Empty || (r.transportType.Some? && r == Empty.(transportType := r.transportType))
    ensures r.transportType.Some? ==> IsTransport(r.transportType.value)
  {
    var lower := LowerStr(message);
    match KeywordHit(lower)
    case Some(t) => Empty.(transportType := Some(t))
    case None =>
      var trimmed := Trim(lower);
      if expected == Some(TransportType) && trimmed in TransportWords then
        var t0 := if trimmed == "поезд" then Some("поезд") else None;
        var t1 := if trimmed == "автобус" then Some("автобус") else t0;
        var t2 := if trimmed in ["самолет", "самолёт", "plane"] then Some("самолет") else t1;
        Empty.(transportType := t2)
      else Empty
  }

  /** The expected-slot branch is dead: a message whose trimmed form is one
      of the words already contains it, so the substring tests have fired.
      The result never depends on the expected slot. */
  lemma ExpectedSlotIgnored(message: string, a: Option<SlotName>, b: Option<SlotName>)
    ensures ParseTransportType(message, a) == ParseTransportType(message, b)
  {
    var lower := LowerStr(message);
    ContainsTrim(lower);
    if Trim(lower) in TransportWords {
      assert KeywordHit(lower).Some?;
    }
  }

  /** The value is the first keyword found, in the order train, bus,
      plane; "самолёт" and "plane" both become "самолет". */
  lemma TransportPriority(message: string, expected: Option<SlotName>)
    ensures var lower := LowerStr(message);
      var t := ParseTransportType(message, expected).transportType;
      (Contains(lower, "поезд") ==> t == Some("поезд"))
      && (!Contains(lower, "поезд") && Contains(lower, "автобус") ==> t == Some("автобус"))
      && (!Contains(lower, "поезд") && !Contains(lower, "автобус")
          && (Contains(lower, "самолет") || Contains(lower, "самолёт") || Contains(lower, "plane"))
          ==> t == Some("самолет"))
  {
  }

  /** With no keyword in the message, the record is empty. */
  lemma NoKeywordNoTransport(message: string, expected: Option<SlotName>)
    requires forall i :: 0 <= i < |TransportWords| ==> !Contains(LowerStr(message), TransportWords[i])
    ensures ParseTransportType(message, expected) == Empty
  {
    ExpectedSlotIgnored(message, expected, None);
    assert !Contains(LowerStr(message), TransportWords[0]);
    assert !Contains(LowerStr(message), TransportWords[1]);
    assert !Contains(LowerStr(message), TransportWords[2]);
    assert !Contains(LowerStr(message), TransportWords[3]);
    assert !Contains(LowerStr(message), TransportWords[4]);
  }

  /** A keyword inside a longer word counts: a trip ("поездка") is a
      train. */
  lemma WordInsideWord(expected: Option<SlotName>)
    ensures ParseTransportType("поездка", expected).transportType == Some("поезд")
  {
    assert LowerStr("поездка") == "поездка";
    assert StartsWith("поездка", "поезд");
  }
}

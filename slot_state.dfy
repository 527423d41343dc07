/** The per-session slot state of models/dialogSession.ts, with the two
    candidate fields the handlers reach through `as any`. A JavaScript key
    that is absent (or `undefined`) is `None`. */
module SlotModel {
  import opened Wrappers

  /** The five slots a booking needs. */
  datatype SlotName = FromCity | ToCity | Date | Passengers | TransportType

  /** Which city slot a fuzzy candidate would fill ('from_city' / 'to_city'). */
  datatype CityRole = Origin | Destination

  function RoleSlot(role: CityRole): SlotName {
    match role
    case Origin => FromCity
    case Destination => ToCity
  }

  datatype SlotState = SlotState(
    fromCity: Option<string>,
    toCity: Option<string>,
    date: Option<string>,
    passengers: Option<int>,
    transportType: Option<string>,
    correctionMode: Option<bool>,
    confirmationStage: Option<bool>,
    cityCandidate: Option<string>,
    cityCandidateType: Option<CityRole>)

  /** `{}`. */
  const Empty := SlotState(None, None, None, None, None, None, None, None, None)

  /** JavaScript truthiness of an optional string: present and not ''. */
  predicate Present(o: Option<string>) {
    o.Some? && o.value != ""
  }

  /** JavaScript truthiness of an optional flag. */
  predicate IsSet(o: Option<bool>) {
    o == Some(true)
  }

  function Pick<T>(a: Option<T>, b: Option<T>): Option<T> {
    if b.Some? then b else a
  }

  /** The object spread `{...a, ...b}`: every key `b` holds overwrites the
      same key of `a`, every other key of `a` is kept. */
  function Merge(a: SlotState, b: SlotState): SlotState {
    SlotState(
      Pick(a.fromCity, b.fromCity),
      Pick(a.toCity, b.toCity),
      Pick(a.date, b.date),
      Pick(a.passengers, b.passengers),
      Pick(a.transportType, b.transportType),
      Pick(a.correctionMode, b.correctionMode),
      Pick(a.confirmationStage, b.confirmationStage),
      Pick(a.cityCandidate, b.cityCandidate),
      Pick(a.cityCandidateType, b.cityCandidateType))
  }

  /** Spreading the same record twice is spreading it once. */
  lemma MergeTwice(a: SlotState, b: SlotState)
    ensures Merge(Merge(a, b), b) == Merge(a, b)
  {
  }

  lemma MergeSelf(a: SlotState)
    ensures Merge(a, a) == a
  {
  }

  lemma MergeEmpty(a: SlotState)
    ensures Merge(a, Empty) == a && Merge(Empty, a) == a
  {
  }

  /** The two states agree on the five slots (flags and candidate aside). */
  predicate SameSlots(a: SlotState, b: SlotState) {
    a.fromCity == b.fromCity && a.toCity == b.toCity && a.date == b.date
    && a.passengers == b.passengers && a.transportType == b.transportType
  }

  /** A city candidate is only ever recorded together with its type, and
      the type only together with a candidate. */
  predicate CandidateTyped(s: SlotState) {
    s.cityCandidate.Some? <==> s.cityCandidateType.Some?
  }

  lemma MergeKeepsCandidateTyped(a: SlotState, b: SlotState)
    requires CandidateTyped(a) && CandidateTyped(b)
    ensures CandidateTyped(Merge(a, b))
  {
  }

  /** The record carries none of the dialog flags. */
  predicate NoFlags(s: SlotState) {
    s.correctionMode.None? && s.confirmationStage.None?
  }
}

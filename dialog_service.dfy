/** services/dialogService.ts: the fixed slot order, the search for the
    first missing slot, the completeness test, the question table and the
    one-line confirmation text. */
module DialogService {
  import opened Wrappers
  import opened Text
  import opened SlotModel

  const SlotOrder: seq<SlotName> := [FromCity, ToCity, Date, Passengers, TransportType]

  /** Position of a slot in SlotOrder. */
  function Rank(slot: SlotName): nat {
    match slot
    case FromCity => 0
    case ToCity => 1
    case Date => 2
    case Passengers => 3
    case TransportType => 4
  }

  lemma RankOfOrder(i: nat)
    requires i < |SlotOrder|
    ensures Rank(SlotOrder[i]) == i
  {
  }

  /** `state[slot]` is undefined, null or ''. A passenger count is a number,
      so only its absence makes it missing: 0 is a filled slot. */
  predicate IsMissing(s: SlotState, slot: SlotName) {
    match slot
    case FromCity => !Present(s.fromCity)
    case ToCity => !Present(s.toCity)
    case Date => !Present(s.date)
    case Passengers => s.passengers.None?
    case TransportType => !Present(s.transportType)
  }

  /** The search of `getMissingSlot` from position `i` of SlotOrder on. */
  function MissingFrom(s: SlotState, i: nat): (r: Option<SlotName>)
    requires i <= |SlotOrder|
    ensures r.Some? ==> IsMissing(s, r.value) && i <= Rank(r.value)
    ensures r.Some? ==> forall n :: i <= Rank(n) < Rank(r.value) ==> !IsMissing(s, n)
    ensures r.None? <==> forall n :: i <= Rank(n) ==> !IsMissing(s, n)
    decreases |SlotOrder| - i
  {
    if i == |SlotOrder| then None
    else if IsMissing(s, SlotOrder[i]) then Some(SlotOrder[i])
    else MissingFrom(s, i + 1)
  }

  /** `getMissingSlot`: the first slot, in the order from_city, to_city,
      date, passengers, transport_type, that is missing; None when there is
      none. */
  function GetMissingSlot(s: SlotState): (r: Option<SlotName>)
    ensures r.Some? ==> IsMissing(s, r.value)
    ensures r.Some? ==> forall n :: Rank(n) < Rank(r.value) ==> !IsMissing(s, n)
    ensures r.None? <==> forall n :: !IsMissing(s, n)
  {
    MissingFrom(s, 0)
  }

  /** `isAllSlotsFilled`: `slotOrder.every(...)`. */
  predicate IsAllSlotsFilled(s: SlotState) {
    forall i :: 0 <= i < |SlotOrder| ==> !IsMissing(s, SlotOrder[i])
  }

  /** The state is complete exactly when no slot is missing, and exactly
      when getMissingSlot finds nothing. */
  lemma AllFilledIffNoneMissing(s: SlotState)
    ensures IsAllSlotsFilled(s) <==> forall n :: !IsMissing(s, n)
    ensures IsAllSlotsFilled(s) <==> GetMissingSlot(s).None?
  {
    if IsAllSlotsFilled(s) {
      forall n ensures !IsMissing(s, n) {
        RankOfOrder(Rank(n));
        assert SlotOrder[Rank(n)] == n;
      }
    }
  }

  /** Both tests read only the five slots: the flags and the candidate
      fields never change their answer. */
  lemma {:induction false} OnlySlotsMatter(a: SlotState, b: SlotState, i: nat)
    requires SameSlots(a, b)
    requires i <= |SlotOrder|
    ensures MissingFrom(a, i) == MissingFrom(b, i)
    ensures IsAllSlotsFilled(a) == IsAllSlotsFilled(b)
    decreases |SlotOrder| - i
  {
    assert forall n :: IsMissing(a, n) == IsMissing(b, n);
    if i < |SlotOrder| {
      OnlySlotsMatter(a, b, i + 1);
    }
  }

  /** `getSlotQuestion`, over the question table `slotQuestions`. */
  function SlotQuestion(slot: SlotName): string {
    match slot
    case FromCity => "Из какого города вы выезжаете?"
    case ToCity => "В какой город вы хотите поехать?"
    case Date => "На какую дату планируете поездку?"
    case Passengers => "Сколько пассажиров?"
    case TransportType => "Какой способ передвижения " + "предпочитаете (поезд, автобус, самолет)?"
  }

  /** Each slot has its own question. */
  lemma SlotQuestionInjective(a: SlotName, b: SlotName)
    ensures SlotQuestion(a) == SlotQuestion(b) ==> a == b
  {
    QuestionInitial(a);
    QuestionInitial(b);
  }

  /** The questions open with five different letters. */
  function Initial(slot: SlotName): char {
    match slot
    case FromCity => 'И'
    case ToCity => 'В'
    case Date => 'Н'
    case Passengers => 'С'
    case TransportType => 'К'
  }

  lemma QuestionInitial(slot: SlotName)
    ensures |SlotQuestion(slot)| > 0 && SlotQuestion(slot)[0] == Initial(slot)
  {
    match slot
    case FromCity =>
    case ToCity =>
    case Date =>
    case Passengers =>
    case TransportType =>
  }

  /** A template literal's rendering of a possibly undefined string. */
  function ShowText(o: Option<string>): string {
    match o
    case Some(v) => v
    case None => "undefined"
  }

  /** A template literal's rendering of a possibly undefined number. */
  function ShowCount(o: Option<int>): string {
    match o
    case Some(v) => IntToString(v)
    case None => "undefined"
  }

  /** Six fixed texts with the five slots shown between them, in the
      order origin, destination, date, passengers, transport. */
  function ShowSlots(texts: seq<string>, s: SlotState): (r: string)
    requires |texts| == 6
    ensures Contains(r, ShowText(s.fromCity)) && Contains(r, ShowText(s.toCity))
    ensures Contains(r, ShowText(s.date)) && Contains(r, ShowCount(s.passengers))
    ensures Contains(r, ShowText(s.transportType))
  {
    var parts := [texts[0], ShowText(s.fromCity), texts[1], ShowText(s.toCity),
                  texts[2], ShowText(s.date), texts[3], ShowCount(s.passengers),
                  texts[4], ShowText(s.transportType), texts[5]];
    ContainsPart(parts, 1);
    ContainsPart(parts, 3);
    ContainsPart(parts, 5);
    ContainsPart(parts, 7);
    ContainsPart(parts, 9);
    Concat(parts)
  }

  /** `buildConfirmation`: one line that echoes the five slots. */
  function BuildConfirmation(s: SlotState): (r: string)
    ensures Contains(r, ShowText(s.fromCity)) && Contains(r, ShowText(s.toCity))
    ensures Contains(r, ShowText(s.date)) && Contains(r, ShowCount(s.passengers))
    ensures Contains(r, ShowText(s.transportType))
  {
    ShowSlots(["Подтверждаю: ", " → ", ", дата: ", ", пассажиров: ", ", транспорт: ", ". Все верно?"], s)
  }
}

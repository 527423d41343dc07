/** The five handlers under handlers/, as what each one leaves behind: the
    slot state, whether it wrote that state to the session store, the
    booking it saved and the reply. The imperative versions, which change
    a session store in place, are the methods of Controller.DialogEngine;
    each of them is proved to do what the function of the same name here
    states. */
module Handlers {
  import opened Wrappers
  import opened Text
  import opened SlotModel
  import opened FuzzySearch
  import opened DialogService
  import opened SlotParser
  import opened BookingStore

  /** The `order` object of the booking reply: the five slots as held. */
  datatype Order = Order(fromCity: Option<string>, toCity: Option<string>, date: Option<string>,
                         passengers: Option<int>, transportType: Option<string>)

  function OrderOf(s: SlotState): Order {
    Order(s.fromCity, s.toCity, s.date, s.passengers, s.transportType)
  }

  /** The JSON body of a reply. `confirmation` and `finished` are keys that
      only some replies carry; `false` stands for an absent key. */
  datatype Reply = Reply(sessionId: int, response: string, allFilled: bool,
                         confirmation: bool, finished: bool, order: Option<Order>)

  function Say(id: int, text: string, allFilled: bool): Reply {
    Reply(id, text, allFilled, false, false, None)
  }

  /** What a handler leaves behind. `writes` tells whether it called
      `updateSession` (with `state`, its last write); a handler that does
      not write leaves the state as it found it. */
  datatype Outcome = Outcome(state: SlotState, writes: bool, booking: Option<Booking>, reply: Reply)

  /** `message.trim().toLowerCase()`. */
  function Answer(message: string): string {
    LowerStr(Trim(message))
  }

  const Thanks := "Спасибо! Ваша заявка принята и будет обработана."
  const WhatToFix := "Что вы хотите исправить? (город отправления, город прибытия, дата, количество пассажиров, тип транспорта)"
  const AskCity := "Пожалуйста, укажите город."
  const CityAgain := "Пожалуйста, введите город ещё раз."
  const AllReceived := "Все данные получены. Пожалуйста, проверьте заказ."
  const Clarify := "Пожалуйста, уточните детали поездки."
  const RePrompt := "Пожалуйста, укажите, что нужно исправить и новое значение (например: \"город отправления Минск\" или \"дата 15-07-2025\")"
  const NotUnderstood := "Я не смог распознать ваш ответ. "

  /** The order summary; it shows each of the five slots. */
  function Summary(s: SlotState): (text: string)
    ensures Contains(text, ShowText(s.fromCity)) && Contains(text, ShowText(s.toCity))
    ensures Contains(text, ShowText(s.date)) && Contains(text, ShowCount(s.passengers))
    ensures Contains(text, ShowText(s.transportType))
  {
    ShowSlots(["Проверьте, пожалуйста, все данные заказа:\nГород отправления: ", "\nГород прибытия: ",
               "\nДата: ", "\nПассажиров: ", "\nТранспорт: ", "\n\nВсё верно? (да/нет)"], s)
  }

  function SummaryReply(id: int, s: SlotState): Reply {
    Reply(id, Summary(s), true, true, false, None)
  }

  /** `confirmationHandler`. "да" saves the booking of the five slots and
      ends the confirmation stage; "нет" switches to correction; anything
      else shows the summary and changes nothing. No branch touches a slot
      or the city candidate. */
  function Confirmation(id: int, s: SlotState, message: string): (o: Outcome)
    ensures SameSlots(o.state, s)
    ensures o.state.cityCandidate == s.cityCandidate && o.state.cityCandidateType == s.cityCandidateType
    ensures o.booking.Some? <==> Answer(message) == "да"
    ensures o.booking.Some? ==>
      o.booking.value == BookingRow(s) && o.reply.finished && o.reply.order == Some(OrderOf(s))
    ensures o.writes <==> Answer(message) == "да" || Answer(message) == "нет"
    ensures o.writes ==> o.state.confirmationStage.None?
    ensures !o.writes ==> o.state == s && o.reply == SummaryReply(id, s)
    ensures Answer(message) == "да" ==>
      o.state == s.(confirmationStage := None) && o.reply == Reply(id, Thanks, true, false, true, Some(OrderOf(s)))
    ensures Answer(message) == "нет" ==>
      o.state == s.(correctionMode := Some(true), confirmationStage := None) && o.booking.None?
      && o.reply == Say(id, WhatToFix, false)
  {
    var answer := Answer(message);
    if answer == "да" then
      Outcome(s.(confirmationStage := None), true, Some(BookingRow(s)),
              Reply(id, Thanks, true, false, true, Some(OrderOf(s))))
    else if answer == "нет" then
      Outcome(s.(correctionMode := Some(true), confirmationStage := None), true, None, Say(id, WhatToFix, false))
    else
      Outcome(s, false, None, SummaryReply(id, s))
  }

  /** The empty message the correction handler passes always gets the
      summary: it is neither "да" nor "нет". */
  lemma EmptyMessageShowsSummary(id: int, s: SlotState)
    ensures Confirmation(id, s, "") == Outcome(s, false, None, SummaryReply(id, s))
  {
    assert Answer("") == "";
  }

  /** `slotQuestionHandler`: the state is written back unchanged and the
      reply is the slot's question. */
  function SlotQuestionStep(id: int, s: SlotState, slot: SlotName): (o: Outcome)
    ensures o.state == s && o.writes && o.booking.None?
    ensures o.reply == Say(id, SlotQuestion(slot), false)
  {
    Outcome(s, true, None, Say(id, SlotQuestion(slot), false))
  }

  const Rephrase := "Пожалуйста, попробуйте переформулировать запрос или начать заново."

  /** `fallbackHandler`: with a missing slot, its question; otherwise a
      request to rephrase or start over. Never "all filled". */
  function Fallback(id: int, missing: Option<SlotName>): (r: Reply)
    ensures !r.allFilled && r.sessionId == id
    ensures missing.Some? ==> Contains(r.response, SlotQuestion(missing.value))
    ensures missing.None? ==> r == Say(id, NotUnderstood + Rephrase, false)
  {
    match missing
    case Some(slot) =>
      ContainsAfter(NotUnderstood + "Пожалуйста, уточните: ", SlotQuestion(slot), SlotQuestion(slot));
      Say(id, NotUnderstood + "Пожалуйста, уточните: " + SlotQuestion(slot), false)
    case None =>
      Say(id, NotUnderstood + Rephrase, false)
  }

  /** `slot_state[candidateType] = candidate`. */
  function Assign(s: SlotState, role: CityRole, city: string): SlotState {
    match role
    case Origin => s.(fromCity := Some(city))
    case Destination => s.(toCity := Some(city))
  }

  /** `delete city_candidate; delete city_candidate_type`. */
  function DropCandidate(s: SlotState): (r: SlotState)
    ensures CandidateTyped(r) && SameSlots(r, s)
  {
    s.(cityCandidate := None, cityCandidateType := None)
  }

  /** The "да" branch once the city is written: on to the confirmation when
      every slot is filled, otherwise the next question. */
  function AfterCityYes(id: int, s: SlotState, message: string): Outcome {
    if IsAllSlotsFilled(s) then Confirmation(id, s.(confirmationStage := Some(true)), message).(writes := true)
    else match GetMissingSlot(s)
      case Some(slot) => SlotQuestionStep(id, s, slot)
      case None => Outcome(s, true, None, Say(id, AllReceived, true))
  }

  /** The answer to "did you mean this city?". */
  function CityAnswer(id: int, s: SlotState, candidate: string, role: CityRole, message: string): Outcome {
    var answer := Answer(message);
    if answer == "да" then AfterCityYes(id, DropCandidate(Assign(s, role, candidate)), message)
    else if answer == "нет" then Outcome(DropCandidate(s), true, None, Say(id, CityAgain, false))
    else Outcome(s, false, None, Say(id, "Вы имели в виду город " + candidate + "? (да/нет)", false))
  }

  /** `cityConfirmationHandler`. Without a candidate and its type it asks
      for a city and writes nothing. "да" writes the candidate into the slot
      its type names, deletes both candidate fields and books when that
      completes the state, otherwise asks the next missing slot; "нет"
      deletes the candidate fields only and asks again; any other answer
      repeats the question and writes nothing. */
  function CityConfirmation(id: int, s: SlotState, message: string): (o: Outcome)
    ensures CandidateTyped(s) ==> CandidateTyped(o.state)
    ensures o.booking.Some? ==> Answer(message) == "да"
    ensures !o.writes ==> o.state == s
    ensures !Present(s.cityCandidate) || s.cityCandidateType.None? ==> o == Outcome(s, false, None, Say(id, AskCity, false))
    ensures Present(s.cityCandidate) && s.cityCandidateType.Some? && Answer(message) == "да" ==>
      var filled := Assign(s, s.cityCandidateType.value, s.cityCandidate.value);
      o.writes && SameSlots(o.state, filled) && o.state.cityCandidate.None? && o.state.cityCandidateType.None?
      && o.state.correctionMode == s.correctionMode
      && (o.booking.Some? <==> IsAllSlotsFilled(filled))
      && (IsAllSlotsFilled(filled) ==> o.state.confirmationStage.None?)
      && (!IsAllSlotsFilled(filled) ==>
            (o.state.confirmationStage == s.confirmationStage && GetMissingSlot(filled).Some?
             && o.reply == Say(id, SlotQuestion(GetMissingSlot(filled).value), false)))
    ensures Present(s.cityCandidate) && s.cityCandidateType.Some? && Answer(message) == "нет" ==>
      o == Outcome(DropCandidate(s), true, None, Say(id, CityAgain, false))
    ensures Present(s.cityCandidate) && s.cityCandidateType.Some? && Answer(message) != "да" && Answer(message) != "нет" ==>
      !o.writes && o.booking.None? && Contains(o.reply.response, s.cityCandidate.value)
  {
    if !Present(s.cityCandidate) || s.cityCandidateType.None? then Outcome(s, false, None, Say(id, AskCity, false))
    else
      var filled := Assign(s, s.cityCandidateType.value, s.cityCandidate.value);
      OnlySlotsMatter(DropCandidate(filled), filled, 0);
      AllFilledIffNoneMissing(filled);
      ContainsMiddle("Вы имели в виду город ", s.cityCandidate.value, "? (да/нет)");
      CityAnswer(id, s, s.cityCandidate.value, s.cityCandidateType.value, message)
  }

  /** The "Все данные получены" reply is dead: after the city is written,
      either every slot is filled or one is missing. */
  lemma {:induction false} AfterCityYesTwoWays(id: int, s: SlotState, message: string)
    ensures AfterCityYes(id, s, message) ==
      if IsAllSlotsFilled(s) then Confirmation(id, s.(confirmationStage := Some(true)), message).(writes := true)
      else SlotQuestionStep(id, s, GetMissingSlot(s).value)
  {
    AllFilledIffNoneMissing(s);
  }

  /** "да" to the last missing city books the order in the same turn: the
      confirmation handler receives the same "да". */
  lemma {:induction false} CityYesBooksAtOnce(id: int, s: SlotState, message: string)
    requires CandidateTyped(s) && Present(s.cityCandidate) && Answer(message) == "да"
    requires IsAllSlotsFilled(Assign(s, s.cityCandidateType.value, s.cityCandidate.value))
    ensures CityConfirmation(id, s, message).booking ==
      Some(BookingRow(Assign(s, s.cityCandidateType.value, s.cityCandidate.value)))
  {
    var filled := DropCandidate(Assign(s, s.cityCandidateType.value, s.cityCandidate.value));
    OnlySlotsMatter(filled, Assign(s, s.cityCandidateType.value, s.cityCandidate.value), 0);
    assert IsAllSlotsFilled(filled);
  }

  /** The slot a correction phrase names (`message.toLowerCase()`, not
      trimmed). */
  function PhraseSlot(lowered: string): Option<SlotName> {
    if lowered == "город отправления" then Some(FromCity)
    else if lowered == "город прибытия" then Some(ToCity)
    else if lowered == "дата" then Some(Date)
    else if lowered == "количество пассажиров" then Some(Passengers)
    else if lowered == "тип транспорта" then Some(TransportType)
    else None
  }

  /** Two states agree on one slot. */
  predicate SameSlot(a: SlotState, b: SlotState, n: SlotName) {
    match n
    case FromCity => a.fromCity == b.fromCity
    case ToCity => a.toCity == b.toCity
    case Date => a.date == b.date
    case Passengers => a.passengers == b.passengers
    case TransportType => a.transportType == b.transportType
  }

  /** `delete slot_state[slot]`. */
  function Clear(s: SlotState, slot: SlotName): SlotState {
    match slot
    case FromCity => s.(fromCity := None)
    case ToCity => s.(toCity := None)
    case Date => s.(date := None)
    case Passengers => s.(passengers := None)
    case TransportType => s.(transportType := None)
  }

  /** The test of the correction loop for one key: the parsed value is
      defined and differs from the one held. */
  predicate Differs(s: SlotState, parsed: SlotState, key: SlotName) {
    match key
    case FromCity => parsed.fromCity.Some? && parsed.fromCity != s.fromCity
    case ToCity => parsed.toCity.Some? && parsed.toCity != s.toCity
    case Date => parsed.date.Some? && parsed.date != s.date
    case Passengers => parsed.passengers.Some? && parsed.passengers != s.passengers
    case TransportType => parsed.transportType.Some? && parsed.transportType != s.transportType
  }

  /** `slot_state[key] = value`. */
  function Take(s: SlotState, parsed: SlotState, key: SlotName): SlotState {
    match key
    case FromCity => s.(fromCity := parsed.fromCity)
    case ToCity => s.(toCity := parsed.toCity)
    case Date => s.(date := parsed.date)
    case Passengers => s.(passengers := parsed.passengers)
    case TransportType => s.(transportType := parsed.transportType)
  }

  /** The state after the first `i` keys of the correction loop. */
  function ApplyUpTo(s: SlotState, parsed: SlotState, i: nat): SlotState
    requires i <= |SlotOrder|
  {
    if i == 0 then s
    else
      var t := ApplyUpTo(s, parsed, i - 1);
      if Differs(t, parsed, SlotOrder[i - 1]) then Take(t, parsed, SlotOrder[i - 1]) else t
  }

  /** The `changed` flag after the first `i` keys. */
  predicate ChangedUpTo(s: SlotState, parsed: SlotState, i: nat)
    requires i <= |SlotOrder|
  {
    i > 0 && (ChangedUpTo(s, parsed, i - 1) || Differs(ApplyUpTo(s, parsed, i - 1), parsed, SlotOrder[i - 1]))
  }

  /** The five slots of `parsed` spread over those of `s`. */
  function SpreadSlots(s: SlotState, parsed: SlotState): SlotState {
    s.(fromCity := Pick(s.fromCity, parsed.fromCity), toCity := Pick(s.toCity, parsed.toCity),
       date := Pick(s.date, parsed.date), passengers := Pick(s.passengers, parsed.passengers),
       transportType := Pick(s.transportType, parsed.transportType))
  }

  /** The correction loop spreads the parsed slots over the held ones, and
      reports a change exactly when some parsed slot differs from the held
      one. */
  lemma {:induction false} CorrectionLoop(s: SlotState, parsed: SlotState)
    ensures ApplyUpTo(s, parsed, 5) == SpreadSlots(s, parsed)
    ensures ChangedUpTo(s, parsed, 5) <==>
      Differs(s, parsed, FromCity) || Differs(s, parsed, ToCity) || Differs(s, parsed, Date)
      || Differs(s, parsed, Passengers) || Differs(s, parsed, TransportType)
  {
    assert SlotOrder[0] == FromCity && SlotOrder[1] == ToCity && SlotOrder[2] == Date;
    assert SlotOrder[3] == Passengers && SlotOrder[4] == TransportType;
    assert ApplyUpTo(s, parsed, 0) == s;
    var s1 := ApplyUpTo(s, parsed, 1);
    var s2 := ApplyUpTo(s, parsed, 2);
    var s3 := ApplyUpTo(s, parsed, 3);
    var s4 := ApplyUpTo(s, parsed, 4);
    assert s1 == s.(fromCity := Pick(s.fromCity, parsed.fromCity));
    assert s2 == s1.(toCity := Pick(s.toCity, parsed.toCity));
    assert s3 == s2.(date := Pick(s.date, parsed.date));
    assert s4 == s3.(passengers := Pick(s.passengers, parsed.passengers));
    assert Differs(s1, parsed, ToCity) == Differs(s, parsed, ToCity);
    assert Differs(s2, parsed, Date) == Differs(s, parsed, Date);
    assert Differs(s3, parsed, Passengers) == Differs(s, parsed, Passengers);
    assert Differs(s4, parsed, TransportType) == Differs(s, parsed, TransportType);
    assert ApplyUpTo(s, parsed, 5) == s4.(transportType := Pick(s.transportType, parsed.transportType));
    assert ChangedUpTo(s, parsed, 1) == Differs(s, parsed, FromCity);
    assert ChangedUpTo(s, parsed, 2) == (ChangedUpTo(s, parsed, 1) || Differs(s1, parsed, ToCity));
    assert ChangedUpTo(s, parsed, 3) == (ChangedUpTo(s, parsed, 2) || Differs(s2, parsed, Date));
    assert ChangedUpTo(s, parsed, 4) == (ChangedUpTo(s, parsed, 3) || Differs(s3, parsed, Passengers));
    assert ChangedUpTo(s, parsed, 5) == (ChangedUpTo(s, parsed, 4) || Differs(s4, parsed, TransportType));
  }

  /** The branches after the loop when nothing changed: a correction phrase
      clears its slot, anything else asks again. */
  function PhraseCorrection(id: int, s: SlotState, message: string): Outcome {
    match PhraseSlot(LowerStr(message))
    case Some(slot) => Outcome(Clear(s, slot).(correctionMode := Some(false)), true, None, Say(id, Clarify, false))
    case None => Outcome(s, false, None, Say(id, RePrompt, false))
  }

  /** Some slot the parse defines differs from the one held. */
  predicate AnyDiffers(s: SlotState, parsed: SlotState) {
    Differs(s, parsed, FromCity) || Differs(s, parsed, ToCity) || Differs(s, parsed, Date)
    || Differs(s, parsed, Passengers) || Differs(s, parsed, TransportType)
  }

  /** `correctionHandler`. The message is parsed with no expected slot; a
      change leaves correction mode, writes, and shows the summary with the
      confirmation stage as it was; otherwise a phrase clears one slot, or
      the handler asks again and writes nothing. */
  function Correction(id: int, s: SlotState, message: string, gaz: Gazetteer, year: nat): (o: Outcome)
    ensures CandidateTyped(s) ==> CandidateTyped(o.state)
    ensures o.booking.None?
    ensures !o.writes ==> o.state == s
    ensures var parsed := ParseSlotsFromMessage(message, None, gaz, year);
      AnyDiffers(s, parsed) ==>
        o.writes && o.state == SpreadSlots(s, parsed).(correctionMode := Some(false)) && o.reply == SummaryReply(id, o.state)
    ensures var parsed := ParseSlotsFromMessage(message, None, gaz, year);
      !AnyDiffers(s, parsed) && PhraseSlot(LowerStr(message)).None? ==> o == Outcome(s, false, None, Say(id, RePrompt, false))
  {
    CorrectWith(id, s, message, ParseSlotsFromMessage(message, None, gaz, year))
  }

  /** The correction handler once the message is parsed: a difference gives
      the spread, correction mode off, a write and the summary; otherwise a
      phrase clears its slot with a write, and anything else re-prompts with
      nothing written. */
  function CorrectWith(id: int, s: SlotState, message: string, parsed: SlotState): (o: Outcome)
    ensures CandidateTyped(s) ==> CandidateTyped(o.state)
    ensures o.booking.None?
    ensures !o.writes ==> o.state == s
    ensures AnyDiffers(s, parsed) ==>
      var t := SpreadSlots(s, parsed).(correctionMode := Some(false));
      o == Outcome(t, true, None, SummaryReply(id, t))
    ensures !AnyDiffers(s, parsed) ==>
      match PhraseSlot(LowerStr(message))
      case Some(slot) =>
        o == Outcome(Clear(s, slot).(correctionMode := Some(false)), true, None, Say(id, Clarify, false))
      case None => o == Outcome(s, false, None, Say(id, RePrompt, false))
  {
    CorrectionLoop(s, parsed);
    NoDifferenceKeeps(s, parsed);
    EmptyMessageShowsSummary(id, ApplyUpTo(s, parsed, 5).(correctionMode := Some(false)));
    if ChangedUpTo(s, parsed, 5) then
      Confirmation(id, ApplyUpTo(s, parsed, 5).(correctionMode := Some(false)), "").(writes := true)
    else
      PhraseCorrection(id, ApplyUpTo(s, parsed, 5), message)
  }

  /** With no differing slot, the spread of the parse keeps the state. */
  lemma NoDifferenceKeeps(s: SlotState, parsed: SlotState)
    ensures !AnyDiffers(s, parsed) ==> SpreadSlots(s, parsed) == s
  {
  }

  /** A correction phrase clears exactly its slot and leaves correction
      mode; the other slots and the confirmation stage stay. */
  lemma PhraseClearsOne(id: int, s: SlotState, message: string, slot: SlotName)
    requires PhraseSlot(LowerStr(message)) == Some(slot)
    ensures var o := PhraseCorrection(id, s, message);
      IsMissing(o.state, slot) && o.state.correctionMode == Some(false)
      && o.state.confirmationStage == s.confirmationStage
      && forall n :: n != slot ==> SameSlot(o.state, s, n)
  {
  }

  /** A state into which the same parse was just spread has nothing left to
      correct: the loop finds no difference. */
  lemma {:induction false} NothingLeftToCorrect(s: SlotState, parsed: SlotState)
    ensures !ChangedUpTo(Merge(s, parsed), parsed, 5)
  {
    CorrectionLoop(Merge(s, parsed), parsed);
  }
}

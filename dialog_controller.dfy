/** controllers/dialogController.ts: one turn of the dialog. The session is
    looked up (or a new one opened), a reset word clears it, otherwise the
    message is parsed and spread into the state, the state is written back,
    and the turn goes to the first handler whose condition holds. */
module Controller {
  import opened Wrappers
  import opened Text
  import opened SlotModel
  import opened FuzzySearch
  import opened DialogService
  import opened SlotParser
  import opened BookingStore
  import opened Handlers

  /** The handler a merged state is sent to. */
  datatype Route = ToCityConfirmation | ToCorrection | ToConfirmation | ToFirstConfirmation
                 | ToSlotQuestion(slot: SlotName) | ToFallback

  /** The routing cascade, in its priority order: a pending city candidate,
      then correction mode, then the confirmation stage, then a complete
      state (which enters the confirmation stage), then the next missing
      slot, then the fallback. */
  function Routing(s: SlotState): Route {
    if Present(s.cityCandidate) then ToCityConfirmation
    else if IsSet(s.correctionMode) then ToCorrection
    else if IsSet(s.confirmationStage) then ToConfirmation
    else if IsAllSlotsFilled(s) then ToFirstConfirmation
    else match GetMissingSlot(s)
      case Some(slot) => ToSlotQuestion(slot)
      case None => ToFallback
  }

  /** The fallback handler is never reached: a state that is not complete
      has a missing slot. */
  lemma {:induction false} FallbackUnreachable(s: SlotState)
    ensures Routing(s) != ToFallback
    ensures Routing(s).ToSlotQuestion? ==> IsMissing(s, Routing(s).slot) && !IsAllSlotsFilled(s)
  {
    AllFilledIffNoneMissing(s);
  }

  /** The turn after the routing decision. */
  function Dispatch(id: int, s: SlotState, message: string, missing: Option<SlotName>,
                    gaz: Gazetteer, year: nat): (o: Outcome)
    ensures CandidateTyped(s) ==> CandidateTyped(o.state)
    ensures o.booking.Some? ==> Answer(message) == "да"
    ensures !o.writes ==> o.state == s
  {
    match Routing(s)
    case ToCityConfirmation => CityConfirmation(id, s, message)
    case ToCorrection => Correction(id, s, message, gaz, year)
    case ToConfirmation => Confirmation(id, s, message)
    case ToFirstConfirmation => Confirmation(id, s.(confirmationStage := Some(true)), message).(writes := true)
    case ToSlotQuestion(slot) => SlotQuestionStep(id, s, slot)
    case ToFallback => Outcome(s, false, None, Fallback(id, missing))
  }

  const ResetWords: seq<string> := ["начать заново", "restart", "сброс"]
  const DescribeRequest := "Пожалуйста, опишите ваш запрос для начала бронирования."

  function ResetReply(id: int): Reply {
    var next := GetMissingSlot(Empty);
    Say(id, if next.Some? then SlotQuestion(next.value) else DescribeRequest, false)
  }

  /** One turn on a session whose stored state is `stored`: the state the
      session is left with, the booking saved, and the reply. The state is
      always written back; a booking is only ever saved on a "да"; and a
      city candidate stays together with its type. */
  function Turn(id: int, stored: SlotState, message: string, gaz: Gazetteer, year: nat): (o: Outcome)
    ensures o.writes
    ensures o.booking.Some? ==> Answer(message) == "да"
    ensures CandidateTyped(stored) ==> CandidateTyped(o.state)
  {
    if Answer(message) in ResetWords then Outcome(Empty, true, None, ResetReply(id))
    else
      var missing := GetMissingSlot(stored);
      var parsed := ParseSlotsFromMessage(message, missing, gaz, year);
      var merged := Merge(stored, parsed);
      assert CandidateTyped(stored) ==> CandidateTyped(merged) by {
        if CandidateTyped(stored) { MergeKeepsCandidateTyped(stored, parsed); }
      }
      Dispatch(id, merged, message, missing, gaz, year).(writes := true)
  }

  /** A reset word empties the state and asks for the departure city. */
  lemma ResetAsksOrigin(id: int, stored: SlotState, message: string, gaz: Gazetteer, year: nat)
    requires Answer(message) in ResetWords
    ensures Turn(id, stored, message, gaz, year) ==
      Outcome(Empty, true, None, Say(id, SlotQuestion(FromCity), false))
  {
    assert IsMissing(Empty, FromCity);
  }

  /** A turn without a reset word dispatches the stored state with the
      parsed message spread in, and writes the state back. */
  lemma TurnDispatches(id: int, stored: SlotState, message: string, gaz: Gazetteer, year: nat)
    requires Answer(message) !in ResetWords
    ensures var missing := GetMissingSlot(stored);
      var merged := Merge(stored, ParseSlotsFromMessage(message, missing, gaz, year));
      Turn(id, stored, message, gaz, year) == Dispatch(id, merged, message, missing, gaz, year).(writes := true)
  {
  }

  /** "да" while the departure city is still missing, as when it answers a
      question about an origin candidate: the turn first parses the answer
      as a departure city, the fallback keeps "Да" as the candidate in
      place of the one asked about, and the confirmation then commits
      that. */
  lemma YesCommitsItself(id: int, stored: SlotState, gaz: Gazetteer, year: nat)
    requires !Present(stored.fromCity)
    requires gaz.search("Да") == NoHit
    ensures Turn(id, stored, "да", gaz, year).state.fromCity == Some("Да")
    ensures Turn(id, stored, "да", gaz, year).state.cityCandidate.None?
  {
    TrimOfTrimmed("да");
    assert Answer("да") == "да";
    TurnDispatches(id, stored, "да", gaz, year);
    assert IsMissing(stored, FromCity);
    assert GetMissingSlot(stored) == Some(FromCity);
    YesReadAsOrigin(gaz, year);
    var merged := Merge(stored, Empty.(cityCandidate := Some("Да"), cityCandidateType := Some(Origin)));
    assert Routing(merged) == ToCityConfirmation;
  }

  /** A complete state in correction mode: the message was already spread
      in with no expected slot, so the correction loop finds nothing to
      change and only a correction phrase still acts. */
  lemma {:induction false} CorrectionAfterCompleteState(id: int, stored: SlotState, message: string,
                                                        gaz: Gazetteer, year: nat)
    requires IsAllSlotsFilled(stored) && Answer(message) !in ResetWords
    requires var merged := Merge(stored, ParseSlotsFromMessage(message, None, gaz, year));
      Routing(merged) == ToCorrection
    ensures var merged := Merge(stored, ParseSlotsFromMessage(message, None, gaz, year));
      Turn(id, stored, message, gaz, year) == PhraseCorrection(id, merged, message).(writes := true)
  {
    AllFilledIffNoneMissing(stored);
    var parsed := ParseSlotsFromMessage(message, None, gaz, year);
    var merged := Merge(stored, parsed);
    TurnDispatches(id, stored, message, gaz, year);
    assert Dispatch(id, merged, message, None, gaz, year) == CorrectWith(id, merged, message, parsed);
    NothingLeftToCorrect(stored, parsed);
    CorrectionLoop(merged, parsed);
    assert ApplyUpTo(merged, parsed, 5) == merged;
  }

  /** The session row: its slot state and whether it is active. */
  datatype StoredSession = StoredSession(slotState: SlotState, isActive: bool)

  /** `updateSession(id, s)`: an UPDATE of an existing row only. */
  function WithState(sessions: map<int, StoredSession>, id: int, s: SlotState): map<int, StoredSession> {
    if id in sessions then sessions[id := sessions[id].(slotState := s)] else sessions
  }

  function Saved(b: Option<Booking>): seq<Booking> {
    if b.Some? then [b.value] else []
  }

  /** The request names an active session: `session_id` is truthy and the
      SELECT of an active row finds it. */
  predicate Resumes(sessions: map<int, StoredSession>, sessionId: Option<int>) {
    sessionId.Some? && sessionId.value != 0 && sessionId.value in sessions && sessions[sessionId.value].isActive
  }

  ghost predicate SessionsValid(sessions: map<int, StoredSession>, nextId: int) {
    forall id :: id in sessions ==> 1 <= id < nextId && CandidateTyped(sessions[id].slotState)
  }

  /** Writing a typed state back keeps the sessions table valid. */
  lemma WithStateValid(sessions: map<int, StoredSession>, nextId: int, id: int, s: SlotState)
    requires SessionsValid(sessions, nextId) && CandidateTyped(s)
    ensures SessionsValid(WithState(sessions, id, s), nextId)
  {
  }

  /** The dialog engine over its two tables: the sessions and the bookings.
      `nextId` is the next id the sessions table hands out. */
  class DialogEngine {
    var sessions: map<int, StoredSession>
    var nextId: int
    var bookings: seq<Booking>
    const gaz: Gazetteer
    const year: nat

    /** Ids are below the next one, and every stored state keeps a city
        candidate together with its type. */
    ghost predicate Valid()
      reads this
    {
      1 <= nextId && SessionsValid(sessions, nextId)
    }

    constructor (gaz: Gazetteer, year: nat)
      ensures Valid()
      ensures sessions == map[] && bookings == [] && this.gaz == gaz && this.year == year
    {
      sessions := map[];
      nextId := 1;
      bookings := [];
      this.gaz := gaz;
      this.year := year;
    }

    /** `updateSession`. */
    method UpdateSession(id: int, s: SlotState)
      modifies this
      ensures sessions == WithState(old(sessions), id, s)
      ensures bookings == old(bookings) && nextId == old(nextId)
    {
      if id in sessions {
        sessions := sessions[id := sessions[id].(slotState := s)];
      }
    }

    /** `saveBooking`: one row appended. */
    method SaveBooking(s: SlotState)
      modifies this
      ensures bookings == old(bookings) + [BookingRow(s)]
      ensures sessions == old(sessions) && nextId == old(nextId)
    {
      bookings := bookings + [BookingRow(s)];
    }

    /** `confirmationHandler`. */
    method ConfirmationHandler(id: int, s: SlotState, message: string) returns (s': SlotState, reply: Reply)
      modifies this
      ensures var o := Confirmation(id, s, message);
        s' == o.state && reply == o.reply && bookings == old(bookings) + Saved(o.booking)
        && sessions == (if o.writes then WithState(old(sessions), id, o.state) else old(sessions))
        && nextId == old(nextId)
    {
      var answer := LowerStr(Trim(message));
      if answer == "да" {
        SaveBooking(s);
        s' := s.(confirmationStage := None);
        UpdateSession(id, s');
        reply := Reply(id, Thanks, true, false, true, Some(OrderOf(s')));
      } else if answer == "нет" {
        s' := s.(correctionMode := Some(true));
        s' := s'.(confirmationStage := None);
        UpdateSession(id, s');
        reply := Say(id, WhatToFix, false);
      } else {
        s' := s;
        reply := SummaryReply(id, s);
      }
    }

    /** `slotQuestionHandler`. */
    method SlotQuestionHandler(id: int, s: SlotState, slot: SlotName) returns (reply: Reply)
      modifies this
      ensures reply == SlotQuestionStep(id, s, slot).reply
      ensures sessions == WithState(old(sessions), id, s)
      ensures bookings == old(bookings) && nextId == old(nextId)
    {
      UpdateSession(id, s);
      reply := Say(id, SlotQuestion(slot), false);
    }

    /** `cityConfirmationHandler`. */
    method CityConfirmationHandler(id: int, s: SlotState, message: string) returns (s': SlotState, reply: Reply)
      modifies this
      ensures var o := CityConfirmation(id, s, message);
        s' == o.state && reply == o.reply && bookings == old(bookings) + Saved(o.booking)
        && sessions == (if o.writes then WithState(old(sessions), id, o.state) else old(sessions))
        && nextId == old(nextId)
    {
      if !Present(s.cityCandidate) || s.cityCandidateType.None? {
        return s, Say(id, AskCity, false);
      }
      var candidate := s.cityCandidate.value;
      var role := s.cityCandidateType.value;
      var answer := LowerStr(Trim(message));
      assert CityConfirmation(id, s, message) == CityAnswer(id, s, candidate, role, message);
      if answer == "да" {
        s' := Assign(s, role, candidate);
        s' := s'.(cityCandidate := None, cityCandidateType := None);
        UpdateSession(id, s');
        if IsAllSlotsFilled(s') {
          s' := s'.(confirmationStage := Some(true));
          UpdateSession(id, s');
          s', reply := ConfirmationHandler(id, s', message);
          return;
        }
        var next := GetMissingSlot(s');
        if next.Some? {
          reply := SlotQuestionHandler(id, s', next.value);
          return;
        }
        reply := Say(id, AllReceived, true);
      } else if answer == "нет" {
        s' := s.(cityCandidate := None, cityCandidateType := None);
        UpdateSession(id, s');
        reply := Say(id, CityAgain, false);
      } else {
        s' := s;
        reply := Say(id, "Вы имели в виду город " + candidate + "? (да/нет)", false);
      }
    }

    /** The branches of `correctionHandler` after a loop that changed
        nothing: a correction phrase clears its slot, anything else asks
        again. */
    method PhraseHandler(id: int, s: SlotState, message: string) returns (s': SlotState, reply: Reply)
      modifies this
      ensures var o := PhraseCorrection(id, s, message);
        s' == o.state && reply == o.reply && bookings == old(bookings)
        && sessions == (if o.writes then WithState(old(sessions), id, o.state) else old(sessions))
        && nextId == old(nextId)
    {
      var slotToCorrect := LowerStr(message);
      s' := s;
      var deleted := true;
      if slotToCorrect == "город отправления" {
        s' := s'.(fromCity := None);
      } else if slotToCorrect == "город прибытия" {
        s' := s'.(toCity := None);
      } else if slotToCorrect == "дата" {
        s' := s'.(date := None);
      } else if slotToCorrect == "количество пассажиров" {
        s' := s'.(passengers := None);
      } else if slotToCorrect == "тип транспорта" {
        s' := s'.(transportType := None);
      } else {
        deleted := false;
      }
      if deleted {
        s' := s'.(correctionMode := Some(false));
        UpdateSession(id, s');
        reply := Say(id, Clarify, false);
      } else {
        reply := Say(id, RePrompt, false);
      }
    }

    /** `correctionHandler`: the message is parsed afresh with no expected
        slot. */
    method CorrectionHandler(id: int, s: SlotState, message: string) returns (s': SlotState, reply: Reply)
      modifies this
      ensures var o := Correction(id, s, message, gaz, year);
        s' == o.state && reply == o.reply && bookings == old(bookings) + Saved(o.booking)
        && sessions == (if o.writes then WithState(old(sessions), id, o.state) else old(sessions))
        && nextId == old(nextId)
    {
      var parsed := ParseSlotsFromMessage(message, None, gaz, year);
      s', reply := CorrectParsed(id, s, message, parsed);
    }

    /** The rest of `correctionHandler`, once the message is parsed. */
    method CorrectParsed(id: int, s: SlotState, message: string, parsed: SlotState) returns (s': SlotState, reply: Reply)
      modifies this
      ensures var o := CorrectWith(id, s, message, parsed);
        s' == o.state && reply == o.reply && bookings == old(bookings) + Saved(o.booking)
        && sessions == (if o.writes then WithState(old(sessions), id, o.state) else old(sessions))
        && nextId == old(nextId)
    {
      CorrectionLoop(s, parsed);
      var changed;
      s', changed := ApplyCorrections(s, parsed);
      if changed {
        s' := s'.(correctionMode := Some(false));
        UpdateSession(id, s');
        EmptyMessageShowsSummary(id, s');
        s', reply := ConfirmationHandler(id, s', "");
      } else {
        s', reply := PhraseHandler(id, s', message);
      }
    }

    /** A complete state enters the confirmation stage, which is written
        back before the confirmation handler reads the message. */
    method FirstConfirmation(id: int, s: SlotState, message: string) returns (reply: Reply)
      modifies this
      ensures var o := Confirmation(id, s.(confirmationStage := Some(true)), message);
        reply == o.reply && bookings == old(bookings) + Saved(o.booking)
        && sessions == WithState(old(sessions), id, o.state) && nextId == old(nextId)
    {
      var s' := s.(confirmationStage := Some(true));
      UpdateSession(id, s');
      s', reply := ConfirmationHandler(id, s', message);
      WithStateTwice(old(sessions), id, s.(confirmationStage := Some(true)), s');
    }

    /** The routing cascade of `dialogHandler`, on the merged state already
        written back: the handler `Routing` picks takes the turn. */
    method Route(id: int, s: SlotState, message: string, missing: Option<SlotName>) returns (reply: Reply)
      modifies this
      ensures var o := Dispatch(id, s, message, missing, gaz, year);
        reply == o.reply && bookings == old(bookings) + Saved(o.booking)
        && sessions == (if o.writes then WithState(old(sessions), id, o.state) else old(sessions))
        && nextId == old(nextId)
    {
      var s' := s;
      match Routing(s)
      case ToCityConfirmation =>
        s', reply := CityConfirmationHandler(id, s, message);
      case ToCorrection =>
        s', reply := CorrectionHandler(id, s, message);
      case ToConfirmation =>
        s', reply := ConfirmationHandler(id, s, message);
      case ToFirstConfirmation =>
        reply := FirstConfirmation(id, s, message);
      case ToSlotQuestion(slot) =>
        reply := SlotQuestionHandler(id, s, slot);
      case ToFallback =>
        reply := Fallback(id, missing);
    }

    /** `dialogHandler`: one turn. A request that names no active session
        opens a new one with an empty state; the session is then left with
        the state the turn computes, and a booking is saved exactly when the
        turn saves one. */
    method DialogHandler(sessionId: Option<int>, message: string) returns (reply: Reply)
      requires Valid()
      modifies this
      ensures Valid()
      ensures var known := Resumes(old(sessions), sessionId);
        var id := if known then sessionId.value else old(nextId);
        var start := if known then old(sessions) else old(sessions)[id := StoredSession(Empty, true)];
        var o := Turn(id, start[id].slotState, message, gaz, year);
        reply == o.reply && sessions == WithState(start, id, o.state)
        && bookings == old(bookings) + Saved(o.booking)
        && nextId == (if known then old(nextId) else old(nextId) + 1)
    {
      var id: int;
      if Resumes(sessions, sessionId) {
        id := sessionId.value;
      } else {
        id := nextId;
        sessions := sessions[id := StoredSession(Empty, true)];
        nextId := nextId + 1;
      }
      ghost var start := sessions;
      assert SessionsValid(start, nextId) && CandidateTyped(start[id].slotState);
      ghost var o := Turn(id, start[id].slotState, message, gaz, year);
      reply := TakeTurn(id, message);
      WithStateValid(start, nextId, id, o.state);
    }

    /** The turn on a session that exists: reset, or parse, merge, write
        back and route. */
    method TakeTurn(id: int, message: string) returns (reply: Reply)
      requires id in sessions
      modifies this
      ensures var o := Turn(id, old(sessions)[id].slotState, message, gaz, year);
        reply == o.reply && sessions == WithState(old(sessions), id, o.state)
        && bookings == old(bookings) + Saved(o.booking) && nextId == old(nextId)
    {
      var slotState := sessions[id].slotState;
      if LowerStr(Trim(message)) in ResetWords {
        slotState := Empty;
        UpdateSession(id, slotState);
        var nextSlot := GetMissingSlot(slotState);
        reply := Say(id, if nextSlot.Some? then SlotQuestion(nextSlot.value) else DescribeRequest, false);
      } else {
        ghost var stored := slotState;
        var missingSlot := GetMissingSlot(slotState);
        var parsed := ParseSlotsFromMessage(message, missingSlot, gaz, year);
        slotState := Merge(slotState, parsed);
        UpdateSession(id, slotState);
        ghost var o := Dispatch(id, slotState, message, missingSlot, gaz, year);
        assert Turn(id, stored, message, gaz, year) == o.(writes := true);
        reply := Route(id, slotState, message, missingSlot);
        WithStateTwice(old(sessions), id, slotState, o.state);
      }
    }
  }

  /** The loop of `correctionHandler` over the five slot keys: every parsed
      slot that differs from the held one replaces it, and `changed` records
      whether any did. */
  method ApplyCorrections(s: SlotState, parsed: SlotState) returns (s': SlotState, changed: bool)
    ensures s' == SpreadSlots(s, parsed)
    ensures changed <==>
      Differs(s, parsed, FromCity) || Differs(s, parsed, ToCity) || Differs(s, parsed, Date)
      || Differs(s, parsed, Passengers) || Differs(s, parsed, TransportType)
  {
    CorrectionLoop(s, parsed);
    changed := false;
    s' := s;
    for i := 0 to |SlotOrder|
      invariant s' == ApplyUpTo(s, parsed, i)
      invariant changed == ChangedUpTo(s, parsed, i)
    {
      var key := SlotOrder[i];
      if Differs(s', parsed, key) {
        s' := Take(s', parsed, key);
        changed := true;
      }
    }
  }

  /** Writing a session twice leaves the second state. */
  lemma WithStateTwice(sessions: map<int, StoredSession>, id: int, a: SlotState, b: SlotState)
    ensures WithState(WithState(sessions, id, a), id, b) == WithState(sessions, id, b)
  {
  }
}

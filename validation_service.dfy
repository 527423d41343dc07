/** services/validationService.ts: checks on a city name, a passenger count
    and a transport type, each answering valid or an error message. */
module ValidationService {
  import opened Wrappers
  import opened Text
  import opened SlotModel
  import TransportParser

  /** `{ isValid, errorMessage? }`. */
  datatype Verdict = Verdict(isValid: bool, errorMessage: Option<string>)

  const Valid := Verdict(true, None)

  function Invalid(message: string): Verdict {
    Verdict(false, Some(message))
  }

  const NoCityMessage := "Пожалуйста, укажите город"
  const CityCharsMessage := "Название города может содержать только буквы, пробелы и дефисы"
  const CityLengthMessage := "Название города должно быть от 2 до 50 символов"
  const PassengersMessage := "Количество пассажиров должно быть целым числом от 1 до 10"
  const TransportPrefix := "Поддерживаются только следующие типы транспорта: "

  /** `[\p{L}\s-]`: a letter (the Unicode letter property, given as
      `isLetter`), whitespace or a hyphen. */
  predicate CityChar(c: char, isLetter: char -> bool) {
    isLetter(c) || IsSpace(c) || c == '-'
  }

  /** `validateCity`. Valid exactly when the name is non-empty, made of
      letters, whitespace and hyphens, and 2 to 50 characters long; the
      error names the first check that fails, in that order. */
  function ValidateCity(city: string, isLetter: char -> bool): (r: Verdict)
    ensures r.isValid <==>
      city != "" && (forall i :: 0 <= i < |city| ==> CityChar(city[i], isLetter)) && 2 <= |city| <= 50
    ensures r.isValid <==> r.errorMessage.None?
    ensures city == "" ==> r.errorMessage == Some(NoCityMessage)
    ensures city != "" && (exists i :: 0 <= i < |city| && !CityChar(city[i], isLetter)) ==>
      r.errorMessage == Some(CityCharsMessage)
    ensures city != "" && (forall i :: 0 <= i < |city| ==> CityChar(city[i], isLetter)) && !(2 <= |city| <= 50) ==>
      r.errorMessage == Some(CityLengthMessage)
  {
    if city == "" then Invalid(NoCityMessage)
    else if exists i :: 0 <= i < |city| && !CityChar(city[i], isLetter) then Invalid(CityCharsMessage)
    else if |city| < 2 || |city| > 50 then Invalid(CityLengthMessage)
    else Valid
  }

  /** `Number.isInteger`. */
  predicate IsInteger(x: real) {
    x == x.Floor as real
  }

  /** `validatePassengers`: valid exactly for the whole numbers 1 to 10;
      a fraction is never valid. */
  function ValidatePassengers(count: real): (r: Verdict)
    ensures r.isValid <==> IsInteger(count) && 1 <= count.Floor <= 10
    ensures r.isValid <==> r.errorMessage.None?
    ensures !r.isValid ==> r.errorMessage == Some(PassengersMessage)
  {
    if !IsInteger(count) || count < 1.0 || count > 10.0 then Invalid(PassengersMessage) else Valid
  }

  /** On whole numbers the check is the range 1..10. */
  lemma WholeCounts(n: int)
    ensures ValidatePassengers(n as real).isValid <==> 1 <= n <= 10
  {
    assert (n as real).Floor == n;
  }

  /** The three accepted transport types. */
  const ValidTransports: seq<string> := ["поезд", "автобус", "самолет"]

  /** `validateTransport`: valid exactly when the lower-cased, trimmed
      input is one of the three types; "самолёт" is not among them. */
  function ValidateTransport(transport: string): (r: Verdict)
    ensures r.isValid <==> Trim(LowerStr(transport)) in ValidTransports
    ensures r.isValid <==> r.errorMessage.None?
    ensures !r.isValid ==>
      r.errorMessage == Some(TransportPrefix + "поезд, автобус, самолет")
  {
    JoinTransports();
    var normalized := Trim(LowerStr(transport));
    if normalized !in ValidTransports then
      Invalid(TransportPrefix + Join(ValidTransports, ", "))
    else Valid
  }

  lemma JoinTransports()
    ensures Join(ValidTransports, ", ") == "поезд, автобус, самолет"
  {
    assert ValidTransports[1..][1..] == ["самолет"];
    assert Join(ValidTransports[1..], ", ") == "автобус" + ", " + "самолет";
  }

  /** The spelling with ё is rejected, although the transport parser
      accepts it and writes "самолет". */
  lemma YoSpellingRejected()
    ensures !ValidateTransport("самолёт").isValid
  {
    assert LowerStr("самолёт") == "самолёт";
    assert Trim("самолёт") == "самолёт";
    assert "самолёт"[5] != "самолет"[5];
  }

  /** Every value the transport parser writes passes the transport check. */
  lemma ParsedTransportIsValid(message: string, expected: Option<SlotName>)
    requires TransportParser.ParseTransportType(message, expected).transportType.Some?
    ensures ValidateTransport(TransportParser.ParseTransportType(message, expected).transportType.value).isValid
  {
    var t := TransportParser.ParseTransportType(message, expected).transportType.value;
    assert LowerStr(t) == t;
    assert Trim(t) == t;
  }
}

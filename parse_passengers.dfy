/** parsers/parsePassengers.ts: a passenger count, from "<digits> чел…" or
    from a bare number when the dialog has just asked for it. */
module PassengersParser {
  import opened Wrappers
  import opened Text
  import opened SlotModel

  /** The alternation `(пассажир|чел|человека|людей)`. */
  const PassengerWords: seq<string> := ["пассажир", "чел", "человека", "людей"]

  predicate WordAt(s: string, q: nat)
    requires q <= |s|
  {
    exists i :: 0 <= i < |PassengerWords| && StartsWith(s[q..], PassengerWords[i])
  }

  /** `\s?(пассажир|…)` after the digits end at `e`. */
  predicate WordAfterDigits(s: string, e: nat)
    requires e <= |s|
  {
    (e < |s| && IsSpace(s[e]) && WordAt(s, e + 1)) || WordAt(s, e)
  }

  /** Length of the digit run that starts at `p`. */
  function DigitRun(s: string, p: nat): (n: nat)
    requires p <= |s|
    ensures p + n <= |s| && AllDigits(s[p..p + n])
    ensures p + n < |s| ==> !IsDigit(s[p + n])
    decreases |s| - p
  {
    if p < |s| && IsDigit(s[p]) then
      var n := DigitRun(s, p + 1);
      assert s[p..p + 1 + n] == [s[p]] + s[p + 1..p + 1 + n];
      1 + n
    else 0
  }

  /** `(\d+)` ending at `e` and then the word: a greedy `\d+` gives back
      digits one at a time until the rest matches. */
  function DigitsBack(s: string, p: nat, e: nat): (r: Option<string>)
    requires p < e <= |s| && AllDigits(s[p..e])
    ensures r.Some? ==> |r.value| >= 1 && AllDigits(r.value)
    decreases e - p
  {
    if WordAfterDigits(s, e) then Some(s[p..e])
    else if e == p + 1 then None
    else
      DigitsShorter(s, p, e);
      DigitsBack(s, p, e - 1)
  }

  lemma DigitsShorter(s: string, p: nat, e: nat)
    requires p < e <= |s| && AllDigits(s[p..e])
    ensures AllDigits(s[p..e - 1])
  {
    assert s[p..e - 1] == s[p..e][..e - 1 - p];
  }

  /** The leftmost match of `(\d+)\s?(пассажир|чел|человека|людей)` from
      `p` on: its digits. */
  function CountMatch(s: string, p: nat): (r: Option<string>)
    requires p <= |s|
    ensures r.Some? ==> |r.value| >= 1 && AllDigits(r.value)
    decreases |s| - p
  {
    var n := DigitRun(s, p);
    if n > 0 && DigitsBack(s, p, p + n).Some? then DigitsBack(s, p, p + n)
    else if p == |s| then None
    else CountMatch(s, p + 1)
  }

  /** `/^\d+$/`. */
  predicate IsNumeral(s: string) {
    |s| > 0 && AllDigits(s)
  }

  /** `parsePassengers`. The record holds the passenger count alone, or
      nothing; the count is a digit string's value, so never negative, and
      no range is checked. */
  function ParsePassengers(message: string, expected: Option<SlotName>): (r: SlotState)
    ensures r == Empty || (r.passengers.Some? && r == Empty.(passengers := r.passengers))
    ensures r.passengers.Some? ==> r.passengers.value >= 0
  {
    var lower := LowerStr(message);
    match CountMatch(lower, 0)
    case Some(digits) => Empty.(passengers := Some(DigitsValue(digits)))
    case None =>
      if expected == Some(Passengers) && IsNumeral(Trim(lower)) then
        Empty.(passengers := Some(DigitsValue(Trim(lower))))
      else Empty
  }

  /** Without the count pattern, a number is read only when passengers is
      the expected slot and the trimmed message is nothing but digits. */
  lemma BareNumberOnlyWhenExpected(message: string, expected: Option<SlotName>)
    requires CountMatch(LowerStr(message), 0).None?
    requires ParsePassengers(message, expected) != Empty
    ensures expected == Some(Passengers) && IsNumeral(Trim(LowerStr(message)))
  {
  }

  /** Digits from `p` up to a non-digit at `m` make a digit run of exactly
      that length. */
  lemma {:induction false} DigitRunUpTo(s: string, p: nat, m: nat)
    requires p <= m < |s| && !IsDigit(s[m])
    requires forall k :: p <= k < m ==> IsDigit(s[k])
    ensures DigitRun(s, p) == m - p
    decreases m - p
  {
    if p < m {
      DigitRunUpTo(s, p + 1, m);
    }
  }

  lemma DigitRunOfPrefix(digits: string, rest: string)
    requires AllDigits(digits) && |rest| > 0 && !IsDigit(rest[0])
    ensures DigitRun(digits + rest, 0) == |digits|
  {
    var s := digits + rest;
    assert s[|digits|] == rest[0];
    DigitRunUpTo(s, 0, |digits|);
  }

  /** "человека" after a space ends the count pattern. */
  lemma WordAfterSpace(s: string, e: nat)
    requires e < |s| && s[e] == ' ' && s[e + 1..] == "человека"
    ensures WordAfterDigits(s, e)
  {
    assert StartsWith(s[e + 1..], PassengerWords[2]);
  }

  /** The count pattern matches at the start when the digit run there is
      followed by a passenger word. */
  lemma CountAtStart(s: string, e: nat)
    requires 0 < e <= |s| && DigitRun(s, 0) == e && WordAfterDigits(s, e)
    ensures CountMatch(s, 0) == Some(s[0..e])
  {
    assert DigitsBack(s, 0, e) == Some(s[0..e]);
  }

  /** "<digits> человека" is its own lower case. */
  lemma LowerCountPhrase(digits: string)
    requires AllDigits(digits)
    ensures LowerStr(digits + " человека") == digits + " человека"
  {
    LowerStrConcat(digits, " человека");
    var w := " человека";
    forall k | 0 <= k < |w| ensures Lower(w[k]) == w[k] {
    }
  }

  /** "<n> человека" gives back n, for every n: 0 and counts above ten
      included, as nothing here checks a range. */
  lemma {:induction false} CountRoundTrip(n: nat, expected: Option<SlotName>)
    ensures ParsePassengers(NatToString(n) + " человека", expected).passengers == Some(n)
  {
    NatToStringDigits(n);
    var digits := NatToString(n);
    var s := digits + " человека";
    LowerCountPhrase(digits);
    var e := |digits|;
    DigitRunOfPrefix(digits, " человека");
    WordAfterSpace(s, e);
    CountAtStart(s, e);
    assert s[0..e] == digits;
  }

  /** A bare number is read only on request: the same reply means nothing
      when another slot is expected. */
  lemma {:induction false} BareNumber(n: nat)
    ensures ParsePassengers(NatToString(n), Some(Passengers)).passengers == Some(n)
    ensures ParsePassengers(NatToString(n), Some(Date)) == Empty
  {
    NatToStringDigits(n);
    var s := NatToString(n);
    assert LowerStr(s) == s;
    NoCountInDigits(s, 0);
    assert Trim(s) == s by {
      assert !IsSpace(s[0]) && !IsSpace(s[|s| - 1]);
      TrimOfTrimmed(s);
    }
  }

  /** Digits alone hold no passenger word, so the count pattern fails. */
  lemma {:induction false} NoCountInDigits(s: string, p: nat)
    requires AllDigits(s) && p <= |s|
    ensures CountMatch(s, p).None?
    decreases |s| - p
  {
    var n := DigitRun(s, p);
    if n > 0 {
      NoWordInDigits(s, p, p + n);
    }
    if p < |s| {
      NoCountInDigits(s, p + 1);
    }
  }

  lemma {:induction false} NoWordInDigits(s: string, p: nat, e: nat)
    requires AllDigits(s) && p < e <= |s| && AllDigits(s[p..e])
    ensures DigitsBack(s, p, e).None?
    decreases e - p
  {
    NoWordAt(s, e);
    if e < |s| {
      NoWordAt(s, e + 1);
    }
    if e > p + 1 {
      DigitsShorter(s, p, e);
      NoWordInDigits(s, p, e - 1);
    }
  }

  /** No passenger word starts inside a digit string. */
  lemma NoWordAt(s: string, q: nat)
    requires AllDigits(s) && q <= |s|
    ensures !WordAt(s, q)
  {
    if q < |s| {
      forall i | 0 <= i < |PassengerWords| ensures !StartsWith(s[q..], PassengerWords[i]) {
        assert s[q..][0] == s[q];
      }
    }
  }

  /** A message without a digit gives no passenger count, whatever slot is
      expected. */
  lemma NoDigitNoCount(message: string, expected: Option<SlotName>)
    requires forall k :: 0 <= k < |LowerStr(message)| ==> !IsDigit(LowerStr(message)[k])
    ensures ParsePassengers(message, expected) == Empty
  {
    var lower := LowerStr(message);
    NoDigitNoMatch(lower, 0);
    TrimStartIsSuffix(lower);
    TrimEndKeepsStart(TrimStart(lower));
    if |Trim(lower)| > 0 {
      assert Trim(lower)[0] == lower[|lower| - |TrimStart(lower)|];
    }
  }

  lemma {:induction false} NoDigitNoMatch(s: string, p: nat)
    requires p <= |s| && forall k :: 0 <= k < |s| ==> !IsDigit(s[k])
    ensures CountMatch(s, p).None?
    decreases |s| - p
  {
    if p < |s| {
      NoDigitNoMatch(s, p + 1);
    }
  }
}

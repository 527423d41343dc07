/** services/saveBooking.ts: the row written for a finished order. A date
    in the dialog's day-month-year shape is stored year first; anything
    else is stored as it is. */
module BookingStore {
  import opened Wrappers
  import opened Text
  import opened SlotModel
  import opened DateParser

  /** A row of the bookings table. */
  datatype Booking = Booking(fromCity: Option<string>, toCity: Option<string>, date: Option<string>,
                             passengers: Option<int>, transportType: Option<string>)

  /** The shape `yyyy-mm-dd`. */
  predicate IsYyyyMmDd(d: string) {
    |d| == 10 && d[4] == '-' && d[7] == '-'
    && forall i :: 0 <= i < 10 && i != 4 && i != 7 ==> IsDigit(d[i])
  }

  /** `date.split('-').reverse().join('-')`. */
  function ReverseDateParts(d: string): string {
    Join(Reverse(SplitOn(d, '-')), "-")
  }

  /** The date column: a string of the shape `dd-mm-yyyy` is rewritten as
      `yyyy-mm-dd` with the same three fields; any other value, a missing
      date included, passes through. */
  function StoredDate(date: Option<string>): (r: Option<string>)
    ensures date.Some? && IsDdMmYyyy(date.value) ==>
      r == Some(date.value[6..] + "-" + date.value[3..5] + "-" + date.value[..2]) && IsYyyyMmDd(r.value)
    ensures !(date.Some? && IsDdMmYyyy(date.value)) ==> r == date
  {
    if date.Some? && IsDdMmYyyy(date.value) then
      DdMmYyyyReversed(date.value);
      Some(ReverseDateParts(date.value))
    else date
  }

  /** The three fields of a `dd-mm-yyyy` date, split on the hyphen. */
  lemma DdMmYyyyFields(d: string)
    requires IsDdMmYyyy(d)
    ensures SplitOn(d, '-') == [d[..2], d[3..5], d[6..]]
  {
    var parts := [d[..2], d[3..5], d[6..]];
    forall k | 0 <= k < |parts| ensures '-' !in parts[k] {
      forall j | 0 <= j < |parts[k]| ensures parts[k][j] != '-' {
        if k == 0 { assert parts[k][j] == d[j]; }
        else if k == 1 { assert parts[k][j] == d[3 + j]; }
        else { assert parts[k][j] == d[6 + j]; }
      }
    }
    JoinThree(d[..2], d[3..5], d[6..], "-");
    Fields(d, 2, 5);
    SplitJoin(parts, '-');
  }

  lemma DdMmYyyyReversed(d: string)
    requires IsDdMmYyyy(d)
    ensures ReverseDateParts(d) == d[6..] + "-" + d[3..5] + "-" + d[..2]
    ensures IsYyyyMmDd(ReverseDateParts(d))
  {
    DdMmYyyyFields(d);
    var rev := [d[6..], d[3..5], d[..2]];
    assert Reverse(SplitOn(d, '-')) == rev;
    JoinThree(d[6..], d[3..5], d[..2], "-");
    var r := d[6..] + "-" + d[3..5] + "-" + d[..2];
    forall i | 0 <= i < 10 && i != 4 && i != 7 ensures IsDigit(r[i]) {
      if i < 4 { assert r[i] == d[6 + i]; }
      else if i < 7 { assert r[i] == d[i - 2]; }
      else { assert r[i] == d[i - 8]; }
    }
  }

  /** Reversing the fields of the stored date again gives back the date the
      dialog held: nothing of the date is lost on the way to the table. */
  lemma StoredDateRoundTrip(d: string)
    requires IsDdMmYyyy(d)
    ensures ReverseDateParts(StoredDate(Some(d)).value) == d
  {
    var r := StoredDate(Some(d)).value;
    var parts := [r[..4], r[5..7], r[8..]];
    FieldsOfJoined(d[6..], d[3..5], d[..2]);
    forall k | 0 <= k < |parts| ensures '-' !in parts[k] {
      forall j | 0 <= j < |parts[k]| ensures parts[k][j] != '-' {
        if k == 0 { assert parts[k][j] == r[j]; }
        else if k == 1 { assert parts[k][j] == r[5 + j]; }
        else { assert parts[k][j] == r[8 + j]; }
      }
    }
    JoinThree(r[..4], r[5..7], r[8..], "-");
    Fields(r, 4, 7);
    SplitJoin(parts, '-');
    var rev := [d[..2], d[3..5], d[6..]];
    assert Reverse(parts) == rev;
    JoinThree(d[..2], d[3..5], d[6..], "-");
    Fields(d, 2, 5);
  }

  lemma JoinThree(a: string, b: string, c: string, sep: string)
    ensures Join([a, b, c], sep) == a + sep + b + sep + c
  {
    assert [a, b, c][1..] == [b, c];
    assert [b, c][1..] == [c];
    assert Join([b, c], sep) == b + sep + c;
  }

  /** The fields of `a-b-c` where `a` has four characters and `b` two. */
  lemma FieldsOfJoined(a: string, b: string, c: string)
    requires |a| == 4 && |b| == 2
    ensures var r := a + "-" + b + "-" + c;
      r[..4] == a && r[5..7] == b && r[8..] == c
  {
  }

  /** A text with hyphens at `i` and `j` is its three fields joined by
      hyphens. */
  lemma Fields(d: string, i: nat, j: nat)
    requires i < j < |d| && d[i] == '-' && d[j] == '-'
    ensures d == d[..i] + "-" + d[i + 1..j] + "-" + d[j + 1..]
  {
    assert d[..i] + [d[i]] + d[i + 1..j] + [d[j]] + d[j + 1..] == d;
  }

  /** `saveBooking`: the five slots as one row, the date as above. */
  function BookingRow(slots: SlotState): (b: Booking)
    ensures b.fromCity == slots.fromCity && b.toCity == slots.toCity
    ensures b.passengers == slots.passengers && b.transportType == slots.transportType
    ensures b.date == StoredDate(slots.date)
  {
    Booking(slots.fromCity, slots.toCity, StoredDate(slots.date), slots.passengers, slots.transportType)
  }

  /** A date the dialog parsed in a four-digit year is stored year first. */
  lemma ParsedDateStoredYearFirst(message: string, year: nat)
    requires 1000 <= year <= 9999
    requires ParseDate(message, year).date.Some?
    ensures IsYyyyMmDd(StoredDate(ParseDate(message, year).date).value)
  {
    DateShape(message, year);
  }
}

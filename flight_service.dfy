/** services/flightService.ts: the SQL text and parameter list that
    `listFlights` and `updateFlight` assemble, and the transport-type map
    of the list filter. The queries themselves are not run here. */
module FlightQueries {
  import opened Wrappers
  import opened Text

  /** A query parameter: a string or a JavaScript number. */
  datatype Param = Str(s: string) | Num(x: real)

  datatype Query = Query(sql: string, params: seq<Param>)

  /** `FlightFilters`; an absent key is `None`. */
  datatype FlightFilters = FlightFilters(
    departureCity: Option<string>,
    arrivalCity: Option<string>,
    departureDate: Option<string>,
    minSeats: Option<real>,
    transportType: Option<string>)

  /** The two day strings the date filter computes from its input: the
      local calendar day and the following day. */
  datatype DayRange = DayRange(day: string, nextDay: string)

  /** The date arithmetic of JavaScript's `Date`: `None` where the input is
      not a date (`getTime()` is NaN). */
  type Calendar = string -> Option<DayRange>

  /** JavaScript truthiness of an optional string and of an optional number. */
  predicate Truthy(o: Option<string>) {
    o.Some? && o.value != ""
  }

  predicate NonZero(o: Option<real>) {
    o.Some? && o.value != 0.0
  }

  const DateError := "Неверный формат даты. Используйте ГГГГ-ММ-ДД"
  const ListBase := "SELECT * FROM flights WHERE 1=1"
  const ListOrder := " ORDER BY departure_time ASC"

  /** One filter clause ` AND <lead>$<k><tail>` with the parameter bound to
      its placeholder. */
  datatype Filter = Filter(lead: string, tail: string, param: Param)

  function Condition(f: Filter, k: nat): string {
    " AND " + f.lead + "$" + NatToString(k) + f.tail
  }

  /** The clauses in order, their placeholders numbered from `k` on. */
  function RenderFilters(fs: seq<Filter>, k: nat): string
    decreases |fs|
  {
    if |fs| == 0 then "" else Condition(fs[0], k) + RenderFilters(fs[1..], k + 1)
  }

  function Params(fs: seq<Filter>): (ps: seq<Param>)
    ensures |ps| == |fs|
    ensures forall i :: 0 <= i < |fs| ==> ps[i] == fs[i].param
  {
    seq(|fs|, i requires 0 <= i < |fs| => fs[i].param)
  }

  /** A city filter, matched anywhere in the column with `ILIKE`. */
  function CityFilter(lead: string, city: Option<string>): seq<Filter> {
    if Truthy(city) then [Filter(lead, "", Str("%" + city.value + "%"))] else []
  }

  /** The departure-day filter: from the day (inclusive) to the next day
      (exclusive); `None` when the date does not parse. */
  function DateFilters(date: Option<string>, calendar: Calendar): Option<seq<Filter>> {
    if !Truthy(date) then Some([])
    else match calendar(date.value)
      case None => None
      case Some(range) =>
        Some([Filter("departure_time >= ", "::timestamp", Str(range.day)),
              Filter("departure_time < ", "::timestamp", Str(range.nextDay))])
  }

  function SeatsFilter(minSeats: Option<real>): seq<Filter> {
    if NonZero(minSeats) then [Filter("available_seats >= ", "", Num(minSeats.value))] else []
  }

  function TransportFilter(transport: Option<string>): seq<Filter> {
    if Truthy(transport) then [Filter("LOWER(transport_type) = ", "", Str(TransportCode(transport.value)))]
    else []
  }

  /** The filters `listFlights` applies, in its order: departure city,
      arrival city, departure day, minimum seats, transport type. */
  function ListPlan(filters: FlightFilters, calendar: Calendar): Result<seq<Filter>> {
    match DateFilters(filters.departureDate, calendar)
    case None => Err(DateError)
    case Some(dates) =>
      Ok(CityFilter("departure_city ILIKE ", filters.departureCity) + CityFilter("arrival_city ILIKE ", filters.arrivalCity)
         + dates + SeatsFilter(filters.minSeats) + TransportFilter(filters.transportType))
  }

  /** The query for a list of filters. */
  function ListQuery(plan: seq<Filter>): Query {
    Query(ListBase + RenderFilters(plan, 1) + ListOrder, Params(plan))
  }

  /** The transport map of the list filter: the three Russian names (and
      "самолёт") become the stored codes; anything else is compared in
      lower case as it is. */
  function TransportCode(transport: string): (code: string)
    ensures var lower := LowerStr(transport);
      code == (if lower == "автобус" then "bus"
               else if lower == "поезд" then "train"
               else if lower == "самолет" || lower == "самолёт" then "airplane"
               else lower)
  {
    var lower := LowerStr(transport);
    var mapped := map["автобус" := "bus", "поезд" := "train", "самолет" := "airplane", "самолёт" := "airplane"];
    if lower in mapped && mapped[lower] != "" then mapped[lower] else lower
  }

  /** Adding one clause at the end numbers it after all the others. */
  lemma {:induction false} RenderSnoc(fs: seq<Filter>, f: Filter, k: nat)
    ensures RenderFilters(fs + [f], k) == RenderFilters(fs, k) + Condition(f, k + |fs|)
    decreases |fs|
  {
    if |fs| == 0 {
      assert [f][1..] == [];
    } else {
      assert (fs + [f])[1..] == fs[1..] + [f];
      RenderSnoc(fs[1..], f, k + 1);
    }
  }

  /** Rendering two lists of clauses one after the other numbers the second
      list on from where the first stopped. */
  lemma {:induction false} RenderAppend(a: seq<Filter>, b: seq<Filter>, k: nat)
    ensures RenderFilters(a + b, k) == RenderFilters(a, k) + RenderFilters(b, k + |a|)
    decreases |a|
  {
    if |a| == 0 {
      assert a + b == b;
    } else {
      assert (a + b)[0] == a[0];
      assert (a + b)[1..] == a[1..] + b;
      RenderAppend(a[1..], b, k + 1);
    }
  }

  /** Consecutive placeholders: the clause at position `i` carries `$(k+i)`. */
  lemma RenderAt(fs: seq<Filter>, k: nat, i: nat)
    requires i < |fs|
    ensures RenderFilters(fs, k)
         == RenderFilters(fs[..i], k) + (Condition(fs[i], k + i) + RenderFilters(fs[i + 1..], k + i + 1))
  {
    var tail := [fs[i]] + fs[i + 1..];
    assert fs == fs[..i] + tail;
    RenderAppend(fs[..i], tail, k);
    assert tail[0] == fs[i] && tail[1..] == fs[i + 1..];
  }

  /** The query text, parameters and next placeholder number after the
      clauses of `plan`. */
  ghost predicate Built(query: string, queryParams: seq<Param>, paramIndex: nat, plan: seq<Filter>) {
    query == ListBase + RenderFilters(plan, 1) && queryParams == Params(plan) && paramIndex == |plan| + 1
  }

  /** One `query += …; queryParams.push(…); paramIndex++` step. */
  method AddFilter(query: string, queryParams: seq<Param>, paramIndex: nat, f: Filter, ghost plan: seq<Filter>)
    returns (query': string, queryParams': seq<Param>, paramIndex': nat)
    requires Built(query, queryParams, paramIndex, plan)
    ensures Built(query', queryParams', paramIndex', plan + [f])
  {
    RenderSnoc(plan, f, 1);
    query' := query + Condition(f, paramIndex);
    queryParams' := queryParams + [f.param];
    paramIndex' := paramIndex + 1;
  }

  /** `listFlights` up to the query call: `Err` exactly when the date filter
      does not parse; otherwise the base query, one clause per parameter
      with the placeholders `$1..$n` in order, and the ordering clause. */
  method ListFlightsQuery(filters: FlightFilters, calendar: Calendar) returns (r: Result<Query>)
    ensures r.Err? <==> ListPlan(filters, calendar).Err?
    ensures r.Err? ==> r.error == DateError
    ensures r.Ok? ==> r.value == ListQuery(ListPlan(filters, calendar).value)
  {
    var query, queryParams, paramIndex := CityClauses(filters);
    ghost var cities := CityFilter("departure_city ILIKE ", filters.departureCity)
                        + CityFilter("arrival_city ILIKE ", filters.arrivalCity);
    var ok;
    ok, query, queryParams, paramIndex := DateClauses(query, queryParams, paramIndex, filters, calendar, cities);
    if !ok {
      return Err(DateError);
    }
    ghost var dates := DateFilters(filters.departureDate, calendar).value;
    query, queryParams, paramIndex := TailClauses(query, queryParams, paramIndex, filters, cities + dates);
    query := query + ListOrder;
    return Ok(Query(query, queryParams));
  }

  /** The two city clauses of `listFlights`, each only for a non-empty city. */
  method CityClauses(filters: FlightFilters) returns (query: string, queryParams: seq<Param>, paramIndex: nat)
    ensures Built(query, queryParams, paramIndex,
                  CityFilter("departure_city ILIKE ", filters.departureCity)
                  + CityFilter("arrival_city ILIKE ", filters.arrivalCity))
  {
    query := ListBase;
    queryParams := [];
    paramIndex := 1;
    ghost var plan: seq<Filter> := [];
    if Truthy(filters.departureCity) {
      var f := Filter("departure_city ILIKE ", "", Str("%" + filters.departureCity.value + "%"));
      query, queryParams, paramIndex := AddFilter(query, queryParams, paramIndex, f, plan);
      plan := plan + [f];
    }
    assert plan == CityFilter("departure_city ILIKE ", filters.departureCity);
    if Truthy(filters.arrivalCity) {
      var f := Filter("arrival_city ILIKE ", "", Str("%" + filters.arrivalCity.value + "%"));
      query, queryParams, paramIndex := AddFilter(query, queryParams, paramIndex, f, plan);
      plan := plan + [f];
    } else {
      assert plan + [] == plan;
    }
    assert plan == CityFilter("departure_city ILIKE ", filters.departureCity)
                   + CityFilter("arrival_city ILIKE ", filters.arrivalCity);
  }

  /** The date clauses of `listFlights`: a day range for a non-empty date,
      or failure when the date does not parse. */
  method DateClauses(query: string, queryParams: seq<Param>, paramIndex: nat, filters: FlightFilters,
                     calendar: Calendar, ghost plan: seq<Filter>)
    returns (ok: bool, query': string, queryParams': seq<Param>, paramIndex': nat)
    requires Built(query, queryParams, paramIndex, plan)
    ensures ok <==> DateFilters(filters.departureDate, calendar).Some?
    ensures ok ==> Built(query', queryParams', paramIndex', plan + DateFilters(filters.departureDate, calendar).value)
  {
    ok, query', queryParams', paramIndex' := true, query, queryParams, paramIndex;
    if Truthy(filters.departureDate) {
      var range := calendar(filters.departureDate.value);
      if range.None? {
        return false, query, queryParams, paramIndex;
      }
      var from := Filter("departure_time >= ", "::timestamp", Str(range.value.day));
      var until := Filter("departure_time < ", "::timestamp", Str(range.value.nextDay));
      query', queryParams', paramIndex' := AddFilter(query', queryParams', paramIndex', from, plan);
      query', queryParams', paramIndex' := AddFilter(query', queryParams', paramIndex', until, plan + [from]);
      assert plan + [from] + [until] == plan + [from, until];
    } else {
      assert plan + [] == plan;
    }
  }

  /** The seats and transport clauses of `listFlights`. */
  method TailClauses(query: string, queryParams: seq<Param>, paramIndex: nat, filters: FlightFilters,
                     ghost plan: seq<Filter>)
    returns (query': string, queryParams': seq<Param>, paramIndex': nat)
    requires Built(query, queryParams, paramIndex, plan)
    ensures Built(query', queryParams', paramIndex',
                  plan + SeatsFilter(filters.minSeats) + TransportFilter(filters.transportType))
  {
    query', queryParams', paramIndex' := query, queryParams, paramIndex;
    ghost var done := plan;
    if NonZero(filters.minSeats) {
      var f := Filter("available_seats >= ", "", Num(filters.minSeats.value));
      query', queryParams', paramIndex' := AddFilter(query', queryParams', paramIndex', f, done);
      done := done + [f];
    } else {
      assert done + [] == done;
    }
    assert done == plan + SeatsFilter(filters.minSeats);
    if Truthy(filters.transportType) {
      var f := Filter("LOWER(transport_type) = ", "", Str(TransportCode(filters.transportType.value)));
      query', queryParams', paramIndex' := AddFilter(query', queryParams', paramIndex', f, done);
      done := done + [f];
    } else {
      assert done + [] == done;
    }
  }

  /** The filter list: `Err` exactly for a date that does not parse. */
  lemma DateErrorOnly(filters: FlightFilters, calendar: Calendar)
    ensures ListPlan(filters, calendar).Err? <==>
      Truthy(filters.departureDate) && calendar(filters.departureDate.value).None?
  {
  }

  /** Every present filter adds its clauses and no other: one each, two for
      the date. */
  lemma PlanSize(filters: FlightFilters, calendar: Calendar)
    requires ListPlan(filters, calendar).Ok?
    ensures |ListPlan(filters, calendar).value| ==
      (if Truthy(filters.departureCity) then 1 else 0) + (if Truthy(filters.arrivalCity) then 1 else 0)
      + (if Truthy(filters.departureDate) then 2 else 0) + (if NonZero(filters.minSeats) then 1 else 0)
      + (if Truthy(filters.transportType) then 1 else 0)
  {
  }

  /** The departure city comes first and is wrapped in `%` for a substring
      match; the arrival city follows it. */
  lemma CitiesFirst(filters: FlightFilters, calendar: Calendar)
    requires ListPlan(filters, calendar).Ok?
    ensures var plan := ListPlan(filters, calendar).value;
      (Truthy(filters.departureCity) ==>
        plan[0] == Filter("departure_city ILIKE ", "", Str("%" + filters.departureCity.value + "%")))
      && (Truthy(filters.arrivalCity) ==>
        var i := if Truthy(filters.departureCity) then 1 else 0;
        plan[i] == Filter("arrival_city ILIKE ", "", Str("%" + filters.arrivalCity.value + "%")))
  {
  }

  /** The transport filter, when present, is the last clause. */
  lemma TransportLast(filters: FlightFilters, calendar: Calendar)
    requires ListPlan(filters, calendar).Ok? && Truthy(filters.transportType)
    ensures var plan := ListPlan(filters, calendar).value;
      |plan| > 0 && plan[|plan| - 1].param == Str(TransportCode(filters.transportType.value))
  {
  }

  /** With no filters the query is the base query in departure order, with
      no parameters. */
  lemma NoFilters(calendar: Calendar)
    ensures ListPlan(FlightFilters(None, None, None, None, None), calendar) == Ok([])
    ensures ListQuery([]).sql == ListBase + ListOrder
    ensures ListQuery([]).params == []
  {
    assert DateFilters(None, calendar) == Some([]);
    assert CityFilter("departure_city ILIKE ", None) == [] && CityFilter("arrival_city ILIKE ", None) == [];
    assert SeatsFilter(None) == [] && TransportFilter(None) == [];
    var none: seq<Filter> := [];
    assert ListPlan(FlightFilters(None, None, None, None, None), calendar) == Ok(none + none + none + none + none);
    assert none + none + none + none + none == none;
    assert RenderFilters(none, 1) == "";
  }

  /** The placeholders are `$1..$n` in order, one per parameter: the clause
      at position `i` carries `$(i+1)` and is bound to parameter `i`. */
  lemma PlaceholdersInOrder(plan: seq<Filter>, i: nat)
    requires i < |plan|
    ensures var q := ListQuery(plan);
      |q.params| == |plan| && q.params[i] == plan[i].param
      && q.sql == ListBase + (RenderFilters(plan[..i], 1)
                              + (Condition(plan[i], i + 1) + RenderFilters(plan[i + 1..], i + 2))) + ListOrder
  {
    RenderAt(plan, 1, i);
  }

  /** The transport map ignores case, and sends every value the dialog
      writes to a stored code. */
  lemma TransportCodeOfLower(transport: string)
    ensures TransportCode(LowerStr(transport)) == TransportCode(transport)
  {
    LowerStrTwice(transport);
  }

  lemma DialogTransportCodes()
    ensures TransportCode("поезд") == "train"
    ensures TransportCode("автобус") == "bus"
    ensures TransportCode("самолет") == "airplane"
    ensures TransportCode("самолёт") == "airplane"
  {
    assert LowerStr("поезд") == "поезд";
    assert LowerStr("автобус") == "автобус";
    assert LowerStr("самолет") == "самолет";
    assert LowerStr("самолёт") == "самолёт";
  }

  /** The updatable columns of a flight; an absent key is `None`. */
  datatype FlightUpdates = FlightUpdates(
    flightNumber: Option<string>,
    departureCity: Option<string>,
    arrivalCity: Option<string>,
    departureTime: Option<string>,
    arrivalTime: Option<string>,
    availableSeats: Option<real>,
    price: Option<real>,
    status: Option<string>)

  datatype Column = Column(name: string, value: Option<Param>)

  datatype Assignment = Assignment(column: string, value: Param)

  function StrParam(o: Option<string>): Option<Param> {
    if o.Some? then Some(Str(o.value)) else None
  }

  function NumParam(o: Option<real>): Option<Param> {
    if o.Some? then Some(Num(o.value)) else None
  }

  /** The columns in the order `updateFlight` tests them. */
  function Columns(u: FlightUpdates): (cols: seq<Column>)
    ensures |cols| == 8
  {
    [Column("flight_number", StrParam(u.flightNumber)), Column("departure_city", StrParam(u.departureCity)),
     Column("arrival_city", StrParam(u.arrivalCity)), Column("departure_time", StrParam(u.departureTime)),
     Column("arrival_time", StrParam(u.arrivalTime)), Column("available_seats", NumParam(u.availableSeats)),
     Column("price", NumParam(u.price)), Column("status", StrParam(u.status))]
  }

  /** The assignment a column contributes: one when its value is defined. */
  function Step(column: Column): seq<Assignment> {
    if column.value.Some? then [Assignment(column.name, column.value.value)] else []
  }

  /** The defined columns, in the order they are tested. */
  function Assignments(u: FlightUpdates): seq<Assignment> {
    var c := Columns(u);
    Step(c[0]) + Step(c[1]) + Step(c[2]) + Step(c[3]) + Step(c[4]) + Step(c[5]) + Step(c[6]) + Step(c[7])
  }

  /** Nothing to assign exactly when no column is defined. */
  lemma NoAssignments(u: FlightUpdates)
    ensures Assignments(u) == [] <==> forall i :: 0 <= i < 8 ==> Columns(u)[i].value.None?
  {
    var c := Columns(u);
    if Assignments(u) == [] {
      forall i | 0 <= i < 8 ensures c[i].value.None? {
        assert |Step(c[i])| == 0;
      }
    }
  }

  /** `column = $k`, numbered from 1 in order. */
  function SetClauses(assigns: seq<Assignment>): (fields: seq<string>)
    ensures |fields| == |assigns|
  {
    seq(|assigns|, i requires 0 <= i < |assigns| => assigns[i].column + " = $" + NatToString(i + 1))
  }

  function Values(assigns: seq<Assignment>): (vs: seq<Param>)
    ensures |vs| == |assigns|
  {
    seq(|assigns|, i requires 0 <= i < |assigns| => assigns[i].value)
  }

  function UpdateSql(fields: seq<string>, idIndex: nat): string {
    "\n    UPDATE flights \n    SET " + Join(fields, ", ") + "\n    WHERE id = $" + NatToString(idIndex)
    + "\n    RETURNING *\n  "
  }

  /** The SET list, parameters and next placeholder number after the
      defined columns of `assigns`. */
  ghost predicate Assigned(fields: seq<string>, values: seq<Param>, paramIndex: nat, assigns: seq<Assignment>) {
    fields == SetClauses(assigns) && values == Values(assigns) && paramIndex == |assigns| + 1
  }

  /** One `if (updates.x !== undefined)` block. */
  method AddColumn(fields: seq<string>, values: seq<Param>, paramIndex: nat, column: Column,
                   ghost assigns: seq<Assignment>)
    returns (fields': seq<string>, values': seq<Param>, paramIndex': nat)
    requires Assigned(fields, values, paramIndex, assigns)
    ensures Assigned(fields', values', paramIndex', assigns + Step(column))
  {
    fields', values', paramIndex' := fields, values, paramIndex;
    if column.value.Some? {
      fields' := fields + [column.name + " = $" + NatToString(paramIndex)];
      values' := values + [column.value.value];
      paramIndex' := paramIndex + 1;
      ghost var next := assigns + Step(column);
      assert SetClauses(next) == fields';
      assert Values(next) == values';
    } else {
      assert assigns + Step(column) == assigns;
    }
  }

  /** The blocks for the first four columns. */
  method FirstColumns(cols: seq<Column>) returns (fields: seq<string>, values: seq<Param>, paramIndex: nat)
    requires |cols| == 8
    ensures Assigned(fields, values, paramIndex, Step(cols[0]) + Step(cols[1]) + Step(cols[2]) + Step(cols[3]))
  {
    fields, values, paramIndex := [], [], 1;
    ghost var assigns: seq<Assignment> := [];
    fields, values, paramIndex := AddColumn(fields, values, paramIndex, cols[0], assigns);
    assigns := assigns + Step(cols[0]);
    assert assigns == Step(cols[0]);
    fields, values, paramIndex := AddColumn(fields, values, paramIndex, cols[1], assigns);
    assigns := assigns + Step(cols[1]);
    fields, values, paramIndex := AddColumn(fields, values, paramIndex, cols[2], assigns);
    assigns := assigns + Step(cols[2]);
    fields, values, paramIndex := AddColumn(fields, values, paramIndex, cols[3], assigns);
  }

  /** The blocks for the last four columns. */
  method LastColumns(fields: seq<string>, values: seq<Param>, paramIndex: nat, cols: seq<Column>,
                     ghost assigns: seq<Assignment>)
    returns (fields': seq<string>, values': seq<Param>, paramIndex': nat)
    requires |cols| == 8 && Assigned(fields, values, paramIndex, assigns)
    ensures Assigned(fields', values', paramIndex', assigns + Step(cols[4]) + Step(cols[5]) + Step(cols[6]) + Step(cols[7]))
  {
    ghost var done := assigns;
    fields', values', paramIndex' := AddColumn(fields, values, paramIndex, cols[4], done);
    done := done + Step(cols[4]);
    fields', values', paramIndex' := AddColumn(fields', values', paramIndex', cols[5], done);
    done := done + Step(cols[5]);
    fields', values', paramIndex' := AddColumn(fields', values', paramIndex', cols[6], done);
    done := done + Step(cols[6]);
    fields', values', paramIndex' := AddColumn(fields', values', paramIndex', cols[7], done);
  }

  /** `updateFlight` up to the query call: `None` exactly when no column is
      defined; otherwise one `column = $k` per defined column in order, then
      `updated_at = NOW()`, and the id as the last parameter, whose
      placeholder number is the number of parameters. */
  method UpdateFlightQuery(id: int, updates: FlightUpdates) returns (r: Option<Query>)
    ensures r.None? <==> Assignments(updates) == []
    ensures r.Some? ==>
      var assigns := Assignments(updates);
      r.value.params == Values(assigns) + [Num(id as real)]
      && r.value.sql == UpdateSql(SetClauses(assigns) + ["updated_at = NOW()"], |r.value.params|)
  {
    var cols := Columns(updates);
    var fields, values, paramIndex := FirstColumns(cols);
    fields, values, paramIndex := LastColumns(fields, values, paramIndex, cols,
                                              Step(cols[0]) + Step(cols[1]) + Step(cols[2]) + Step(cols[3]));
    assert Assigned(fields, values, paramIndex, Assignments(updates));

    if |fields| == 0 {
      return None;
    }

    fields := fields + ["updated_at = NOW()"];
    values := values + [Num(id as real)];
    var query := UpdateSql(fields, paramIndex);
    return Some(Query(query, values));
  }
}

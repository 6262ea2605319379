/**
 * The reservations controller: the middleware checks a request runs
 * through, the three exported chains that end in a store write (create,
 * status update, field edit), the read handler and the list handler.
 *
 * Facts that come from the calendar and the clock are inputs (`Clock`):
 * the weekday JavaScript's `getDay()` gives the reservation date, whether
 * the reservation's date and time are not before now, whether the date
 * parses to exactly the current millisecond, and the current time of day
 * as the source formats it.
 */
module ReservationsController {
  import opened Middleware
  import opened Text
  import opened Sorting
  import opened Reservations

  // ---------------------------------------------------------------------------
  // Formats

  /** One position of a pattern: a digit class `\d` or a literal character. */
  datatype Atom = Digit | Char(c: char)

  /** `/\d\d\d\d-\d\d-\d\d/` */
  const DateFormat: seq<Atom> := [Digit, Digit, Digit, Digit, Char('-'), Digit, Digit, Char('-'), Digit, Digit]

  /** `/\d\d:\d\d/` */
  const TimeFormat: seq<Atom> := [Digit, Digit, Char(':'), Digit, Digit]

  predicate AtomMatches(a: Atom, c: char) {
    match a
    case Digit => IsDigit(c)
    case Char(x) => c == x
  }

  /** The pattern matches the characters of `s` starting at index `i`. */
  predicate MatchesAt(s: string, pattern: seq<Atom>, i: int) {
    0 <= i && i + |pattern| <= |s| &&
    forall j :: 0 <= j < |pattern| ==> AtomMatches(pattern[j], s[i + j])
  }

  /**
   * `s.match(pattern)` for an unanchored pattern without the global flag:
   * the leftmost index at or after `from` where the pattern matches.
   */
  function FirstMatch(s: string, pattern: seq<Atom>, from: nat): (r: Option<nat>)
    ensures r.Some? ==>
      from <= r.value && MatchesAt(s, pattern, r.value) &&
      forall i :: from <= i < r.value ==> !MatchesAt(s, pattern, i)
    ensures r.None? ==> forall i :: from <= i ==> !MatchesAt(s, pattern, i)
    decreases |s| - from
  {
    if from + |pattern| > |s| then None
    else if MatchesAt(s, pattern, from) then Some(from)
    else FirstMatch(s, pattern, from + 1)
  }

  /** The pattern matches somewhere in `s`. */
  predicate Contains(s: string, pattern: seq<Atom>) {
    exists i | 0 <= i <= |s| :: MatchesAt(s, pattern, i)
  }

  // ---------------------------------------------------------------------------
  // Clock and messages

  /**
   * - weekday: `new Date(reservation_date).getDay()` (an unparseable date,
   *   whose weekday is NaN, is any value other than 1);
   * - notBeforeNow: `Date.parse(date + " " + time) >= Date.now()`;
   * - dateIsNow: `Date.parse(reservation_date) === Date.now()`;
   * - nowTime: the current time as `hours:minutes:seconds`, unpadded.
   */
  datatype Clock = Clock(weekday: int, notBeforeNow: bool, dateIsNow: bool, nowTime: string)

  const FormatMessage: string := "Invalid data format provided. Requires {string: [first_name, last_name, mobile_number], date: reservation_date, time: reservation_time, number: people}"
  const ClosedMessage: string := "Restaurant closed. Date must be any future non-Tuesday."
  const HoursMessage: string := "Reservation must be a future time between 10:30AM and 9:30PM."
  const FinishedMessage: string := "Cannot modify a finished reservation."
  const EditMessage: string := "Only reservations with status 'booked' can be edited."
  const CreateStatusMessage: string := "New reservations cannot have status values of 'seated' or 'finished'."

  function NotFoundMessage(id: int): string {
    "Reservation #" + IntToString(id) + " cannot be found."
  }

  function BadStatusMessage(status: Field<Status>): string {
    "Status of data must be a valid value. Given: '" + Shown(status) + "'"
  }

  // ---------------------------------------------------------------------------
  // Checks on the request body

  /** The six properties the required-properties check lists are all truthy. */
  predicate RequiredPresent(body: Reservation) {
    && Present(body.first_name)
    && Present(body.last_name)
    && Present(body.mobile_number)
    && Present(body.reservation_date)
    && Present(body.reservation_time)
    && Truthy(body.people)
  }

  /** hasAllValidProperties: the six listed properties, all truthy. */
  function HasAllValidProperties(body: Reservation): (r: Outcome)
    ensures r == Pass || r == MissingProperties
    ensures r == Pass <==>
      && body.first_name.Some? && body.first_name.value != ""
      && body.last_name.Some? && body.last_name.value != ""
      && body.mobile_number.Some? && body.mobile_number.value != ""
      && body.reservation_date.Some? && body.reservation_date.value != ""
      && body.reservation_time.Some? && body.reservation_time.value != ""
      && Truthy(body.people)
  {
    if RequiredPresent(body) then Pass else MissingProperties
  }

  /** The calendar part of the data check: not a Monday by `getDay()`, and not in the past. */
  predicate DateIsValid(clock: Clock) {
    clock.weekday != 1 && clock.notBeforeNow
  }

  /** hasValidReservationData */
  function HasValidReservationData(body: Reservation, clock: Clock): (r: Outcome)
    ensures body.reservation_date.None? || body.reservation_time.None? ==> r == Thrown
    ensures body.reservation_date.Some? && body.reservation_time.Some? ==>
      var date, time := body.reservation_date.value, body.reservation_time.value;
      && (r == Pass <==>
            Contains(date, DateFormat) && Contains(time, TimeFormat) && body.people.Num? && DateIsValid(clock))
      && (r != Pass ==>
            && r.Fail? && r.status == 400
            && r.message == (if Contains(date, DateFormat) && Contains(time, TimeFormat) && !DateIsValid(clock)
                             then ClosedMessage else FormatMessage))
  {
    if body.reservation_date.None? || body.reservation_time.None? then Thrown
    else
      var dateFormatIsValid := FirstMatch(body.reservation_date.value, DateFormat, 0).Some?;
      var timeIsValid := FirstMatch(body.reservation_time.value, TimeFormat, 0).Some?;
      var peopleIsValid := body.people.Num?;
      var dateIsValid := clock.weekday != 1 && clock.notBeforeNow;
      var message := if dateFormatIsValid && timeIsValid && !dateIsValid then Some(ClosedMessage) else None;
      if dateFormatIsValid && dateIsValid && timeIsValid && peopleIsValid then Pass
      else Fail(400, message.GetOr(FormatMessage))
  }

  /** The business-hours window: strictly after opening, strictly before the last seating. */
  predicate WithinServiceHours(time: string) {
    Compare("10:30:00", time) < 0 && Compare(time, "21:30:00") < 0
  }

  /** isDuringBusinessHours */
  function IsDuringBusinessHours(body: Reservation, clock: Clock): (r: Outcome)
    ensures body.reservation_time.None? ==> r == Thrown
    ensures body.reservation_time.Some? ==>
      && (r == Pass <==>
            WithinServiceHours(body.reservation_time.value) &&
            (clock.dateIsNow ==> Compare(clock.nowTime, body.reservation_time.value) < 0))
      && (r != Pass ==> r == Fail(400, HoursMessage))
  {
    if body.reservation_time.None? then Thrown
    else
      var time := body.reservation_time.value;
      var afterOpen := Compare(time, "10:30:00") == 1;
      var beforeClose := Compare(time, "21:30:00") == -1;
      var inFuture := if clock.dateIsNow then Compare(time, clock.nowTime) == 1 else true;
      CompareAntisymmetric(time, "10:30:00");
      CompareAntisymmetric(time, clock.nowTime);
      if afterOpen && beforeClose && inFuture then Pass
      else Fail(400, HoursMessage)
  }

  /** missingInvalidStatus: a new reservation may not arrive seated or finished. */
  function MissingInvalidStatus(body: Reservation): (r: Outcome)
    ensures r == Pass <==> (body.status.Given? ==> Name(body.status.value) !in ["seated", "finished"])
    ensures r != Pass ==> r == Fail(400, CreateStatusMessage)
  {
    if body.status == Given(Seated) || body.status == Given(Finished) then Fail(400, CreateStatusMessage)
    else Pass
  }

  /** noCrazyStatus: the status is one of the four the application knows. */
  function NoCrazyStatus(body: Reservation): (r: Outcome)
    ensures r == Pass <==> body.status.Given? && Name(body.status.value) in KnownNames
    ensures r != Pass ==> r == Fail(400, BadStatusMessage(body.status))
  {
    if body.status.Given? && body.status.value in [Finished, Seated, Booked, Cancelled] then Pass
    else Fail(400, BadStatusMessage(body.status))
  }

  /** hasBookedStatus: only a body whose own status is "booked" may be saved as an edit. */
  function HasBookedStatus(body: Reservation): (r: Outcome)
    ensures r == Pass <==> body.status.Given? && Name(body.status.value) == "booked"
    ensures r != Pass ==> r == Fail(400, EditMessage)
  {
    if body.status == Given(Booked) then Pass else Fail(400, EditMessage)
  }

  // ---------------------------------------------------------------------------
  // Checks against the stored rows

  /** reservationExists: a row with this id exists and its status is truthy. */
  function ReservationExists(rows: map<int, Reservation>, id: int): (r: Outcome)
    ensures r == Pass <==> id in rows && rows[id].status.Given? && rows[id].status.value != Other("")
    ensures r != Pass ==> r == Fail(404, NotFoundMessage(id))
  {
    if id in rows && rows[id].status.Given? && Name(rows[id].status.value) != "" then Pass
    else Fail(404, NotFoundMessage(id))
  }

  /** isUnfinished: a row with this id exists and its status is not the string "finished". */
  function IsUnfinished(rows: map<int, Reservation>, id: int): (r: Outcome)
    ensures r == Pass <==> id in rows && (rows[id].status.Given? ==> Name(rows[id].status.value) != "finished")
    ensures r != Pass ==> r == Fail(400, FinishedMessage)
  {
    if id in rows && rows[id].status != Given(Finished) then Pass
    else Fail(400, FinishedMessage)
  }

  // ---------------------------------------------------------------------------
  // The exported chains

  /** POST /reservations/new, before the insert. */
  function CreateChecks(body: Reservation, clock: Clock): Outcome {
    Run([HasAllValidProperties(body), HasValidReservationData(body, clock),
         IsDuringBusinessHours(body, clock), MissingInvalidStatus(body)])
  }

  /** PUT /reservations/:reservation_id/status, before the update. */
  function StatusChecks(rows: map<int, Reservation>, id: int, body: Reservation): Outcome {
    Run([ReservationExists(rows, id), NoCrazyStatus(body), IsUnfinished(rows, id)])
  }

  /** PUT /reservations/:reservation_id, before the update. */
  function EditChecks(rows: map<int, Reservation>, id: int, body: Reservation, clock: Clock): Outcome {
    Run([HasAllValidProperties(body), HasValidReservationData(body, clock),
         ReservationExists(rows, id), IsUnfinished(rows, id), HasBookedStatus(body)])
  }

  /** GET /reservations/:reservation_id, before the response. */
  function ReadChecks(rows: map<int, Reservation>, id: int): Outcome {
    Run([ReservationExists(rows, id)])
  }

  /** Create runs its checks in the listed order and reports the first one that fails. */
  lemma CreateInOrder(body: Reservation, clock: Clock)
    ensures CreateChecks(body, clock) ==
      if HasAllValidProperties(body) != Pass then HasAllValidProperties(body)
      else if HasValidReservationData(body, clock) != Pass then HasValidReservationData(body, clock)
      else if IsDuringBusinessHours(body, clock) != Pass then IsDuringBusinessHours(body, clock)
      else MissingInvalidStatus(body)
  {
    var a, b, c, d := HasAllValidProperties(body), HasValidReservationData(body, clock),
                      IsDuringBusinessHours(body, clock), MissingInvalidStatus(body);
    assert [a, b, c, d] == [a] + ([b] + ([c] + [d]));
    RunCons(a, [b] + ([c] + [d]));
    RunCons(b, [c] + [d]);
    RunCons(c, [d]);
    RunCons(d, []);
  }

  /** A status update runs its checks in the listed order and reports the first one that fails. */
  lemma StatusInOrder(rows: map<int, Reservation>, id: int, body: Reservation)
    ensures StatusChecks(rows, id, body) ==
      if ReservationExists(rows, id) != Pass then ReservationExists(rows, id)
      else if NoCrazyStatus(body) != Pass then NoCrazyStatus(body)
      else IsUnfinished(rows, id)
  {
    var a, b, c := ReservationExists(rows, id), NoCrazyStatus(body), IsUnfinished(rows, id);
    assert [a, b, c] == [a] + ([b] + [c]);
    RunCons(a, [b] + [c]);
    RunCons(b, [c]);
    RunCons(c, []);
  }

  /** An edit runs its checks in the listed order and reports the first one that fails. */
  lemma EditInOrder(rows: map<int, Reservation>, id: int, body: Reservation, clock: Clock)
    ensures EditChecks(rows, id, body, clock) ==
      if HasAllValidProperties(body) != Pass then HasAllValidProperties(body)
      else if HasValidReservationData(body, clock) != Pass then HasValidReservationData(body, clock)
      else if ReservationExists(rows, id) != Pass then ReservationExists(rows, id)
      else if IsUnfinished(rows, id) != Pass then IsUnfinished(rows, id)
      else HasBookedStatus(body)
  {
    var a, b, c, d, e := HasAllValidProperties(body), HasValidReservationData(body, clock),
                         ReservationExists(rows, id), IsUnfinished(rows, id), HasBookedStatus(body);
    assert [a, b, c, d, e] == [a] + ([b] + ([c] + ([d] + [e])));
    RunCons(a, [b] + ([c] + ([d] + [e])));
    RunCons(b, [c] + ([d] + [e]));
    RunCons(c, [d] + [e]);
    RunCons(d, [e]);
    RunCons(e, []);
  }

  /** A read reports exactly the existence check. */
  lemma ReadInOrder(rows: map<int, Reservation>, id: int)
    ensures ReadChecks(rows, id) == ReservationExists(rows, id)
  {
    assert [ReservationExists(rows, id)] == [ReservationExists(rows, id)] + [];
    RunCons(ReservationExists(rows, id), []);
  }

  /**
   * A reservation is accepted for creation exactly when every field is
   * present, both formats occur, the party size is a number, the date is
   * not a Monday by `getDay()` and not past, the time is inside the service
   * window (and after the current time when the date is now), and the body
   * does not arrive seated or finished.
   */
  lemma CreateAcceptsIff(body: Reservation, clock: Clock)
    ensures CreateChecks(body, clock) == Pass <==>
      && RequiredPresent(body)
      && Contains(body.reservation_date.value, DateFormat)
      && Contains(body.reservation_time.value, TimeFormat)
      && body.people.Num?
      && DateIsValid(clock)
      && WithinServiceHours(body.reservation_time.value)
      && (clock.dateIsNow ==> Compare(clock.nowTime, body.reservation_time.value) < 0)
      && (body.status.Given? ==> Name(body.status.value) !in ["seated", "finished"])
  {
    CreateInOrder(body, clock);
  }

  /**
   * Create accepts "booked", "cancelled", any other string, a null status
   * and no status at all; only seated and finished are refused.
   */
  lemma CreateStatusRule(body: Reservation, clock: Clock)
    requires CreateChecks(body, clock) == Pass
    ensures body.status != Given(Seated) && body.status != Given(Finished)
    ensures CreateChecks(body.(status := Absent), clock) == Pass
    ensures CreateChecks(body.(status := NullField), clock) == Pass
    ensures forall s: Status :: s != Seated && s != Finished ==> CreateChecks(body.(status := Given(s)), clock) == Pass
  {
    CreateAcceptsIff(body, clock);
    CreateAcceptsIff(body.(status := Absent), clock);
    CreateAcceptsIff(body.(status := NullField), clock);
    forall s: Status | s != Seated && s != Finished
      ensures CreateChecks(body.(status := Given(s)), clock) == Pass
    {
      CreateAcceptsIff(body.(status := Given(s)), clock);
      NameInjective(s, Seated);
      NameInjective(s, Finished);
    }
  }

  /** The opening and closing times themselves are refused, whatever the clock says. */
  lemma BoundaryTimesRejected(body: Reservation, clock: Clock)
    requires body.reservation_time == Some("10:30:00") || body.reservation_time == Some("21:30:00")
    ensures IsDuringBusinessHours(body, clock) == Fail(400, HoursMessage)
  {
    CompareZeroIffEqual("10:30:00", "10:30:00");
    CompareZeroIffEqual("21:30:00", "21:30:00");
  }

  /** One second before the last seating is still accepted on a day other than today. */
  lemma LastSecondAccepted(body: Reservation, clock: Clock)
    requires body.reservation_time == Some("21:29:59") && !clock.dateIsNow
    ensures IsDuringBusinessHours(body, clock) == Pass
  {
    assert Compare("10:30:00", "21:29:59") == -1;
    assert Compare("21:29:59", "21:30:00") == -1;
  }

  /** A stored finished reservation can be neither moved to another status nor edited. */
  lemma FinishedBlocksModification(rows: map<int, Reservation>, id: int, body: Reservation, clock: Clock)
    requires id in rows && rows[id].status == Given(Finished)
    ensures StatusChecks(rows, id, body) != Pass
    ensures EditChecks(rows, id, body, clock) != Pass
  {
    var status := [ReservationExists(rows, id), NoCrazyStatus(body), IsUnfinished(rows, id)];
    var edit := [HasAllValidProperties(body), HasValidReservationData(body, clock),
                 ReservationExists(rows, id), IsUnfinished(rows, id), HasBookedStatus(body)];
    RunPassesIff(status);
    RunPassesIff(edit);
    assert status[2] != Pass;
    assert edit[3] != Pass;
  }

  /** A stored cancelled reservation is not protected: any known status may be written over it. */
  lemma CancelledDoesNotBlock(rows: map<int, Reservation>, id: int, body: Reservation)
    requires id in rows && rows[id].status == Given(Cancelled)
    requires body.status.Given? && Name(body.status.value) in KnownNames
    ensures StatusChecks(rows, id, body) == Pass
  {
    RunPassesIff([ReservationExists(rows, id), NoCrazyStatus(body), IsUnfinished(rows, id)]);
  }

  /**
   * An edit goes through only with all fields present, a body whose own
   * status is "booked", and a stored row that exists and is not finished;
   * the stored status may be seated or cancelled.
   */
  lemma EditAcceptsIff(rows: map<int, Reservation>, id: int, body: Reservation, clock: Clock)
    ensures EditChecks(rows, id, body, clock) == Pass <==>
      && RequiredPresent(body)
      && Contains(body.reservation_date.value, DateFormat)
      && Contains(body.reservation_time.value, TimeFormat)
      && body.people.Num?
      && DateIsValid(clock)
      && id in rows && rows[id].status.Given? && rows[id].status != Given(Finished)
      && Name(rows[id].status.value) != ""
      && body.status == Given(Booked)
  {
    EditInOrder(rows, id, body, clock);
    if body.status.Given? { NameInjective(body.status.value, Booked); }
  }

  // ---------------------------------------------------------------------------
  // GET /reservations

  /** The query string of the list endpoint. */
  datatype Query = Query(date: Option<string>, mobile_number: Option<string>)

  /** Which service query `list` runs. */
  datatype Fetch = ListByDate(date: string) | SearchByPhone(number: string) | ListAll

  /** A date in the query wins over a phone number, which wins over listing everything. */
  function ChooseFetch(query: Query): (f: Fetch)
    ensures f.ListByDate? <==> Present(query.date)
    ensures f.SearchByPhone? <==> !Present(query.date) && Present(query.mobile_number)
    ensures f.ListByDate? ==> f.date == query.date.value
    ensures f.SearchByPhone? ==> f.number == query.mobile_number.value
  {
    if Present(query.date) then ListByDate(query.date.value)
    else if Present(query.mobile_number) then SearchByPhone(query.mobile_number.value)
    else ListAll
  }

  /** The sort key of `list`; every row the store holds has a time (`ReservationStore.Valid`). */
  function TimeKey(r: Reservation): string {
    r.reservation_time.GetOr("")
  }

  /** `res.status !== "finished"`: a left-out or null status is kept. */
  predicate NotFinished(r: Reservation) {
    r.status != Given(Finished)
  }

  /**
   * The response of `list` for the rows the chosen query fetched: sorted by
   * reservation time, with every finished row dropped and every other row
   * kept as often as it was fetched. When there are rows to sort, the
   * comparator reads the time of every row it is given, so they must all
   * carry one, as every row written through the create and edit chains
   * does.
   */
  method List(fetched: seq<Reservation>) returns (data: seq<Reservation>)
    requires |fetched| > 1 ==> forall i :: 0 <= i < |fetched| ==> fetched[i].reservation_time.Some?
    ensures SortedBy(data, TimeKey)
    ensures forall i :: 0 <= i < |data| ==> data[i].status.Given? ==> Name(data[i].status.value) != "finished"
    ensures forall r :: multiset(data)[r] == if NotFinished(r) then multiset(fetched)[r] else 0
  {
    var reservations := fetched;
    if |reservations| > 1 {
      reservations := SortBy(reservations, TimeKey);
    }
    data := Filter(reservations, NotFinished);
    FilterSorted(reservations, NotFinished, TimeKey);
    forall r ensures multiset(data)[r] == if NotFinished(r) then multiset(fetched)[r] else 0 {
      FilterCount(reservations, NotFinished, r);
    }
    forall i | 0 <= i < |data| ensures data[i].status.Given? ==> Name(data[i].status.value) != "finished" {
      if data[i].status.Given? { NameInjective(data[i].status.value, Finished); }
    }
  }

  // ---------------------------------------------------------------------------
  // The store the chains write through

  /** What an endpoint sends back: a status code with its data, or the error of the first failing check. */
  datatype Response = Respond(code: int, data: Option<Reservation>) | Rejected(error: Outcome)

  /**
   * The row the insert stores: the body under a fresh id, booked when it
   * leaves the status out; an explicit null status is inserted as null.
   */
  function Inserted(body: Reservation, id: int): Reservation {
    body.(reservation_id := Given(id), status := if body.status.Absent? then Given(Booked) else body.status)
  }

  /** The `reservations` table, keyed by id. */
  class ReservationStore {
    var rows: map<int, Reservation>
    var nextId: int

    /**
     * Every row sits under its own id, ids below `nextId` are the only ones
     * used, and every row has passed the required-properties check.
     */
    ghost predicate Valid()
      reads this
    {
      1 <= nextId &&
      forall id :: id in rows ==>
        1 <= id < nextId && rows[id].reservation_id == Given(id) && RequiredPresent(rows[id])
    }

    constructor ()
      ensures Valid() && rows == map[] && nextId == 1
    {
      rows := map[];
      nextId := 1;
    }

    /** POST /reservations/new: the four checks in order, then one insert. */
    method Create(body: Reservation, clock: Clock) returns (response: Response)
      requires Valid()
      modifies this
      ensures Valid()
      ensures CreateChecks(body, clock) != Pass ==>
        response == Rejected(CreateChecks(body, clock)) && rows == old(rows) && nextId == old(nextId)
      ensures CreateChecks(body, clock) == Pass ==>
        && old(nextId) !in old(rows)
        && rows == old(rows)[old(nextId) := Inserted(body, old(nextId))]
        && nextId == old(nextId) + 1
        && response == Respond(201, Some(Inserted(body, old(nextId))))
    {
      CreateInOrder(body, clock);
      var outcome := HasAllValidProperties(body);
      if outcome == Pass { outcome := HasValidReservationData(body, clock); }
      if outcome == Pass { outcome := IsDuringBusinessHours(body, clock); }
      if outcome == Pass { outcome := MissingInvalidStatus(body); }
      if outcome != Pass {
        response := Rejected(outcome);
        return;
      }
      var row := Inserted(body, nextId);
      rows := rows[nextId := row];
      nextId := nextId + 1;
      response := Respond(201, Some(row));
    }

    /** GET /reservations/:reservation_id */
    method Read(id: int) returns (response: Response)
      requires Valid()
      ensures ReadChecks(rows, id) == Pass ==> id in rows && response == Respond(200, Some(rows[id]))
      ensures ReadChecks(rows, id) != Pass ==> response == Rejected(Fail(404, NotFoundMessage(id)))
    {
      ReadInOrder(rows, id);
      var outcome := ReservationExists(rows, id);
      if outcome != Pass {
        response := Rejected(outcome);
        return;
      }
      response := Respond(200, Some(rows[id]));
    }

    /**
     * PUT /reservations/:reservation_id/status: the loaded row is written
     * back with only its status replaced.
     */
    method UpdateStatus(id: int, body: Reservation) returns (response: Response)
      requires Valid()
      modifies this
      ensures Valid() && nextId == old(nextId)
      ensures StatusChecks(old(rows), id, body) != Pass ==>
        response == Rejected(StatusChecks(old(rows), id, body)) && rows == old(rows)
      ensures StatusChecks(old(rows), id, body) == Pass ==>
        && id in old(rows)
        && rows == old(rows)[id := old(rows)[id].(status := body.status)]
        && response == Respond(200, Some(rows[id]))
    {
      StatusInOrder(rows, id, body);
      var outcome := ReservationExists(rows, id);
      if outcome == Pass { outcome := NoCrazyStatus(body); }
      if outcome == Pass { outcome := IsUnfinished(rows, id); }
      if outcome != Pass {
        response := Rejected(outcome);
        return;
      }
      // req.body.data.status || options.status
      var newStatus := if body.status.Given? && Name(body.status.value) != "" then body.status else Absent;
      var row := rows[id].(status := newStatus);
      rows := rows[id := row];
      response := Respond(200, Some(row));
    }

    /**
     * PUT /reservations/:reservation_id: the checks guard the row named in
     * the path, but the body is written under the body's own
     * `reservation_id`. With no id in the body the query cannot be built;
     * a null id selects the rows whose id `IS NULL`, of which there are
     * none; with an id that has no row nothing is written either, and no
     * data comes back.
     */
    method UpdateReservation(id: int, body: Reservation, clock: Clock) returns (response: Response)
      requires Valid()
      modifies this
      ensures Valid() && nextId == old(nextId)
      ensures EditChecks(old(rows), id, body, clock) != Pass ==>
        response == Rejected(EditChecks(old(rows), id, body, clock)) && rows == old(rows)
      ensures EditChecks(old(rows), id, body, clock) == Pass ==>
        match body.reservation_id
        case Absent => response == Rejected(Thrown) && rows == old(rows)
        case NullField => response == Respond(200, None) && rows == old(rows)
        case Given(target) =>
          if target in old(rows) then rows == old(rows)[target := body] && response == Respond(200, Some(body))
          else rows == old(rows) && response == Respond(200, None)
    {
      EditInOrder(rows, id, body, clock);
      var outcome := HasAllValidProperties(body);
      if outcome == Pass { outcome := HasValidReservationData(body, clock); }
      if outcome == Pass { outcome := ReservationExists(rows, id); }
      if outcome == Pass { outcome := IsUnfinished(rows, id); }
      if outcome == Pass { outcome := HasBookedStatus(body); }
      if outcome != Pass {
        response := Rejected(outcome);
        return;
      }
      match body.reservation_id {
        case Absent =>
          response := Rejected(Thrown);
        case NullField =>
          response := Respond(200, None);
        case Given(target) =>
          if target in rows {
            rows := rows[target := body];
            response := Respond(200, Some(body));
          } else {
            response := Respond(200, None);
          }
      }
    }
  }
}

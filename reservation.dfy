/**
 * The reservation record as the controllers see it: both the body of a
 * request (`req.body.data`) and a row of the `reservations` table.
 */
module Reservations {
  import opened Middleware

  /**
   * A reservation status. The four names the controllers know get their own
   * case; every other string stays representable as `Other`.
   */
  datatype StatusTag = Booked | Seated | Finished | Cancelled | Other(name: string)

  const KnownNames: seq<string> := ["booked", "seated", "finished", "cancelled"]

  /** Each string has one representation: `Other` never carries a known name. */
  predicate Canonical(t: StatusTag) {
    t.Other? ==> t.name !in KnownNames
  }

  type Status = t: StatusTag | Canonical(t) witness Booked

  /** The string the status is stored and sent as. */
  function Name(t: StatusTag): string {
    match t
    case Booked => "booked"
    case Seated => "seated"
    case Finished => "finished"
    case Cancelled => "cancelled"
    case Other(s) => s
  }

  /** Reads a status string. */
  function ParseStatus(s: string): (t: Status)
    ensures Name(t) == s
    ensures t.Other? <==> s !in KnownNames
  {
    if s == "booked" then Booked
    else if s == "seated" then Seated
    else if s == "finished" then Finished
    else if s == "cancelled" then Cancelled
    else Other(s)
  }

  /** Reading back the name of a status gives the same status. */
  lemma ParseName(t: Status)
    ensures ParseStatus(Name(t)) == t
  {
  }

  /** Two statuses are equal exactly when their strings are, as the controllers compare them. */
  lemma NameInjective(t: Status, u: Status)
    ensures Name(t) == Name(u) <==> t == u
  {
    ParseName(t);
    ParseName(u);
  }

  /** `${status}` in a message: a left-out status prints as "undefined", a null one as "null". */
  function Shown(status: Field<Status>): string {
    match status
    case Absent => "undefined"
    case NullField => "null"
    case Given(t) => Name(t)
  }

  /**
   * A reservation. The six properties the required-properties check lists
   * are `None` when the body leaves them out or sends null, which every
   * check treats alike; `people` keeps whatever JSON scalar was sent,
   * because its type is one of the things checked. `reservation_id` and
   * `status` are not among the required properties, and a left-out value
   * and an explicit null reach the later checks and the queries
   * differently, so for them the two are told apart.
   */
  datatype Reservation = Reservation(
    reservation_id: Field<int>,
    first_name: Option<string>,
    last_name: Option<string>,
    mobile_number: Option<string>,
    reservation_date: Option<string>,
    reservation_time: Option<string>,
    people: Value,
    status: Field<Status>)
}

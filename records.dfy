/** Documents kept in the portal's collections (bookings, services, payments),
    the claims a bearer token carries, and the Option type that lookups return. */
module Records {

  /** A lookup that may find nothing (`findOne` answering null). */
  datatype Option<+T> = None | Some(value: T)

  /** The identifier the store gives a booking when it is inserted; opaque here. */
  type BookingId = nat

  /** The decoded payload of a bearer token: the identity it was issued for. */
  datatype Claims = Claims(email: string)

  /** The body of a booking request. */
  datatype BookingRequest = BookingRequest(treatment: string, date: string, patient: string, slot: string)

  /** A stored booking. A booking created from the four request fields is unpaid with no
      transaction id until the payment step sets them. */
  datatype Booking = Booking(
    id: BookingId,
    treatment: string,
    date: string,
    patient: string,
    slot: string,
    paid: bool,
    transectionId: Option<string>)

  /** The key of the duplicate rule: the slot is deliberately not part of it. */
  datatype Triple = Triple(treatment: string, date: string, patient: string)

  function KeyOf(b: Booking): Triple {
    Triple(b.treatment, b.date, b.patient)
  }

  function RequestKey(r: BookingRequest): Triple {
    Triple(r.treatment, r.date, r.patient)
  }

  /** A treatment offered by the clinic with its ordered list of daily slots. */
  datatype Service = Service(name: string, price: int, slots: seq<string>)

  /** A payment body as the client sends it: its `_id` and its transaction id, either of which
      the body may lack, and its remaining string fields. */
  datatype Payment = Payment(paymentId: Option<string>, transectionId: Option<string>, details: map<string, string>)

  /** How many times `x` occurs in `s`. */
  function Count<T(==)>(s: seq<T>, x: T): nat {
    if s == [] then 0 else (if s[0] == x then 1 else 0) + Count(s[1..], x)
  }

  /** `a` is obtained from `b` by deleting elements, keeping the order of the rest. */
  predicate IsSubsequence<T(==)>(a: seq<T>, b: seq<T>)
    decreases |b|
  {
    a == [] || (b != [] && ((a[0] == b[0] && IsSubsequence(a[1..], b[1..])) || IsSubsequence(a, b[1..])))
  }

  lemma {:induction false} SubsequenceOfTail<T>(a: seq<T>, b: seq<T>)
    requires b != [] && IsSubsequence(a, b[1..])
    ensures IsSubsequence(a, b)
  {
  }
}

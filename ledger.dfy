/** The bookings and payments collections: POST /booking with its duplicate rule,
    PATCH /booking/:id (the paid step), GET /booking/:id and the per-patient listing. */
module Ledger {
  import opened Records

  /** No two bookings share a (treatment, date, patient) triple. */
  predicate UniqueTriples(bs: seq<Booking>) {
    forall i, j :: 0 <= i < j < |bs| ==> KeyOf(bs[i]) != KeyOf(bs[j])
  }

  /** No two bookings share an id. */
  predicate DistinctIds(bs: seq<Booking>) {
    forall i, j :: 0 <= i < j < |bs| ==> bs[i].id != bs[j].id
  }

  /** `findOne({treatment, date, patient})`: the position of the first booking with that triple. */
  function FindTriple(bs: seq<Booking>, key: Triple): (r: Option<nat>)
    ensures r.Some? ==> r.value < |bs| && KeyOf(bs[r.value]) == key
    ensures r.Some? ==> forall j :: 0 <= j < r.value ==> KeyOf(bs[j]) != key
    ensures r.None? <==> forall j :: 0 <= j < |bs| ==> KeyOf(bs[j]) != key
  {
    if bs == [] then None
    else if KeyOf(bs[0]) == key then Some(0)
    else match FindTriple(bs[1..], key)
      case None => None
      case Some(k) => Some(k + 1)
  }

  /** `findOne({_id: id})`: the position of the first booking with that id. */
  function FindById(bs: seq<Booking>, id: BookingId): (r: Option<nat>)
    ensures r.Some? ==> r.value < |bs| && bs[r.value].id == id
    ensures r.Some? ==> forall j :: 0 <= j < r.value ==> bs[j].id != id
    ensures r.None? <==> forall j :: 0 <= j < |bs| ==> bs[j].id != id
  {
    if bs == [] then None
    else if bs[0].id == id then Some(0)
    else match FindById(bs[1..], id)
      case None => None
      case Some(k) => Some(k + 1)
  }

  /** The document the request body becomes once inserted under `id`. */
  function NewBooking(id: BookingId, req: BookingRequest): Booking {
    Booking(id, req.treatment, req.date, req.patient, req.slot, false, None)
  }

  /** The answer of POST /booking: `{success: false, booking: exist}` or `{success: true, result}`. */
  datatype CreateOutcome = Duplicate(existing: Booking) | Created(insertedId: BookingId) {
    predicate Success() { Created? }
  }

  /** POST /booking as one step on the collection: the new collection and the answer. */
  function Admit(bs: seq<Booking>, req: BookingRequest, id: BookingId): (r: (seq<Booking>, CreateOutcome))
    ensures r.1.Success() <==> forall j :: 0 <= j < |bs| ==> KeyOf(bs[j]) != RequestKey(req)
    ensures r.1.Success() ==> r.0 == bs + [NewBooking(id, req)] && r.1.insertedId == id
    ensures !r.1.Success() ==> r.0 == bs && r.1.existing in bs && KeyOf(r.1.existing) == RequestKey(req)
  {
    match FindTriple(bs, RequestKey(req))
    case Some(k) => (bs, Duplicate(bs[k]))
    case None => (bs + [NewBooking(id, req)], Created(id))
  }

  /** A request whose triple is already booked is refused with that booking, whatever
      slot it asks for, and the collection stays as it was. */
  lemma AdmitDuplicate(bs: seq<Booking>, req: BookingRequest, id: BookingId, k: nat)
    requires UniqueTriples(bs)
    requires k < |bs| && KeyOf(bs[k]) == RequestKey(req)
    ensures Admit(bs, req, id) == (bs, Duplicate(bs[k]))
    ensures !Admit(bs, req, id).1.Success()
  {
    var r := FindTriple(bs, RequestKey(req));
    assert r.Some?;
  }

  /** A request whose triple is new appends exactly that booking and succeeds. */
  lemma AdmitFresh(bs: seq<Booking>, req: BookingRequest, id: BookingId)
    requires forall b :: b in bs ==> KeyOf(b) != RequestKey(req)
    ensures Admit(bs, req, id) == (bs + [NewBooking(id, req)], Created(id))
    ensures Admit(bs, req, id).1.Success()
  {
    var r := FindTriple(bs, RequestKey(req));
    assert forall j :: 0 <= j < |bs| ==> bs[j] in bs;
  }

  /** Admitting a request never produces two bookings with the same triple. */
  lemma AdmitKeepsUnique(bs: seq<Booking>, req: BookingRequest, id: BookingId)
    requires UniqueTriples(bs)
    ensures UniqueTriples(Admit(bs, req, id).0)
  {
    var after := Admit(bs, req, id).0;
    if FindTriple(bs, RequestKey(req)).None? {
      forall i, j | 0 <= i < j < |after|
        ensures KeyOf(after[i]) != KeyOf(after[j])
      {
        if j == |bs| {
          assert after[j] == NewBooking(id, req);
        } else {
          assert after[i] == bs[i] && after[j] == bs[j];
        }
      }
    }
  }

  /** Submitting the same triple twice: the second submission is refused and answered
      with the booking the first one created, even when it asks for another slot. */
  lemma AdmitResubmitted(bs: seq<Booking>, first: BookingRequest, second: BookingRequest, id: BookingId, id2: BookingId)
    requires UniqueTriples(bs)
    requires forall b :: b in bs ==> KeyOf(b) != RequestKey(first)
    requires RequestKey(second) == RequestKey(first)
    ensures Admit(Admit(bs, first, id).0, second, id2) == (Admit(bs, first, id).0, Duplicate(NewBooking(id, first)))
  {
    AdmitFresh(bs, first, id);
    AdmitKeepsUnique(bs, first, id);
    var after := bs + [NewBooking(id, first)];
    assert after[|bs|] == NewBooking(id, first);
    AdmitDuplicate(after, second, id2, |bs|);
  }

  /** `$set: {paid: true, transectionId}` on one booking. */
  function MarkedPaid(b: Booking, transectionId: Option<string>): Booking {
    b.(paid := true, transectionId := transectionId)
  }

  /** `updateOne({_id: id}, ...)`: the first booking with that id is marked paid; no match changes nothing. */
  function SetPaid(bs: seq<Booking>, id: BookingId, transectionId: Option<string>): (r: seq<Booking>)
    ensures |r| == |bs|
    ensures forall k :: 0 <= k < |bs| ==>
      r[k] == bs[k] || (bs[k].id == id && r[k] == MarkedPaid(bs[k], transectionId))
    ensures (forall k :: 0 <= k < |bs| ==> bs[k].id != id) ==> r == bs
  {
    match FindById(bs, id)
    case None => bs
    case Some(k) => bs[k := MarkedPaid(bs[k], transectionId)]
  }

  /** The paid step marks the booking with that id and leaves every other booking,
      and every other field of that one, as it was. */
  lemma SetPaidEffect(bs: seq<Booking>, id: BookingId, transectionId: Option<string>)
    requires DistinctIds(bs)
    ensures |SetPaid(bs, id, transectionId)| == |bs|
    ensures forall k :: 0 <= k < |bs| ==>
      SetPaid(bs, id, transectionId)[k] == if bs[k].id == id then MarkedPaid(bs[k], transectionId) else bs[k]
  {
    var r := FindById(bs, id);
    if r.Some? {
      assert forall k :: 0 <= k < |bs| && bs[k].id == id ==> k == r.value;
    }
  }

  /** The paid step keeps the uniqueness of triples and of ids. */
  lemma SetPaidKeepsInvariants(bs: seq<Booking>, id: BookingId, transectionId: Option<string>)
    requires UniqueTriples(bs) && DistinctIds(bs)
    ensures UniqueTriples(SetPaid(bs, id, transectionId)) && DistinctIds(SetPaid(bs, id, transectionId))
    ensures forall k :: 0 <= k < |bs| ==> KeyOf(SetPaid(bs, id, transectionId)[k]) == KeyOf(bs[k])
  {
    SetPaidEffect(bs, id, transectionId);
  }

  /** After the paid step, looking the booking up by its id shows it paid with that transaction. */
  lemma PaidThenFound(bs: seq<Booking>, id: BookingId, transectionId: Option<string>)
    requires DistinctIds(bs)
    requires FindById(bs, id).Some?
    ensures FindById(SetPaid(bs, id, transectionId), id).Some?
    ensures var after := SetPaid(bs, id, transectionId);
      var b := after[FindById(after, id).value];
      b.paid && b.transectionId == transectionId
  {
    var k := FindById(bs, id).value;
    var after := SetPaid(bs, id, transectionId);
    SetPaidEffect(bs, id, transectionId);
    var k' := FindById(after, id);
    assert after[k].id == id;
    if k'.Some? {
      assert after[k'.value].id == id;
      assert bs[k'.value].id == id;
    }
  }

  /** The query `{patient: patient}`, in collection order. */
  function PatientBookings(bs: seq<Booking>, patient: string): (mine: seq<Booking>)
    ensures forall b :: b in mine <==> b in bs && b.patient == patient
    ensures IsSubsequence(mine, bs)
    ensures forall b :: Count(mine, b) == if b.patient == patient then Count(bs, b) else 0
  {
    if bs == [] then []
    else
      var rest := PatientBookings(bs[1..], patient);
      assert forall b :: b in bs <==> b == bs[0] || b in bs[1..];
      if bs[0].patient == patient then
        assert ([bs[0]] + rest)[1..] == rest;
        [bs[0]] + rest
      else
        SubsequenceOfTail(rest, bs);
        rest
  }

  /** The fields the paid step sets; a `None` transaction id is the `undefined` the body lacked,
      which the echoed JSON omits. */
  datatype PaidFields = PaidFields(paid: bool, transectionId: Option<string>)

  /** The update document `{$set: {...}}` the PATCH handler builds and echoes back. */
  datatype PaidUpdate = PaidUpdate(setFields: PaidFields)

  /** `insertOne` refuses a payment whose `_id` is already logged; one without `_id` gets a fresh one. */
  predicate PaymentIdTaken(payments: seq<Payment>, p: Payment) {
    p.paymentId.Some? && exists q :: q in payments && q.paymentId == p.paymentId
  }

  /** No two logged payments share an `_id`. */
  predicate DistinctPaymentIds(payments: seq<Payment>) {
    forall i, j :: 0 <= i < j < |payments| && payments[i].paymentId.Some? ==>
      payments[i].paymentId != payments[j].paymentId
  }

  class BookingLedger {
    var bookings: seq<Booking>
    var payments: seq<Payment>
    var nextId: BookingId

    ghost predicate Valid()
      reads this
    {
      && UniqueTriples(bookings)
      && DistinctIds(bookings)
      && (forall k :: 0 <= k < |bookings| ==> bookings[k].id < nextId)
      && DistinctPaymentIds(payments)
    }

    constructor ()
      ensures Valid()
      ensures bookings == [] && payments == []
    {
      bookings, payments, nextId := [], [], 0;
    }

    /** POST /booking: refuse a repeated triple, otherwise insert under a fresh id. */
    method Create(req: BookingRequest) returns (outcome: CreateOutcome)
      requires Valid()
      modifies this
      ensures Valid()
      ensures (bookings, outcome) == Admit(old(bookings), req, old(nextId))
      ensures payments == old(payments)
      ensures nextId == old(nextId) + (if outcome.Created? then 1 else 0)
    {
      var exist := FindTriple(bookings, RequestKey(req));
      if exist.Some? {
        outcome := Duplicate(bookings[exist.value]);
        return;
      }
      AdmitKeepsUnique(bookings, req, nextId);
      bookings := bookings + [NewBooking(nextId, req)];
      outcome := Created(nextId);
      nextId := nextId + 1;
    }

    /** PATCH /booking/:id: log the payment, mark the booking paid, echo the update document.
        A payment whose `_id` is already logged is refused by the store before the booking
        is touched, and the handler answers nothing. */
    method MarkPaid(id: BookingId, payment: Payment) returns (echo: Option<PaidUpdate>)
      requires Valid()
      modifies this
      ensures Valid()
      ensures nextId == old(nextId)
      ensures echo.None? <==> PaymentIdTaken(old(payments), payment)
      ensures echo.None? ==> payments == old(payments) && bookings == old(bookings)
      ensures echo.Some? ==>
        && payments == old(payments) + [payment]
        && bookings == SetPaid(old(bookings), id, payment.transectionId)
        && echo.value == PaidUpdate(PaidFields(true, payment.transectionId))
    {
      if PaymentIdTaken(payments, payment) {
        return None;
      }
      echo := Some(PaidUpdate(PaidFields(true, payment.transectionId)));
      payments := payments + [payment];
      SetPaidKeepsInvariants(bookings, id, payment.transectionId);
      SetPaidEffect(bookings, id, payment.transectionId);
      bookings := SetPaid(bookings, id, payment.transectionId);
    }
  }
}

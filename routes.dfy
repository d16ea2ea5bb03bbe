/** The guarded routes: each guard runs first, and a handler runs only once every guard
    in front of it has decided to go on. */
module Routes {
  import opened Records
  import opened Users
  import opened Ledger
  import opened Guards

  /** What a route answers: a body, an error status with its message, or nothing at all. */
  datatype Response<T> = Ok(body: T) | Error(status: nat, message: string) | NoResponse

  /** The answer a guard gives when it stops the request. */
  function Refusal<T>(v: Verdict): (r: Response<T>)
    requires !v.Proceed?
    ensures v.Reject? ==> r == Error(v.status, v.message)
    ensures v.Fault? ==> r.NoResponse?
  {
    if v.Reject? then Error(v.status, v.message) else NoResponse
  }

  /** GET /booking?patient=: a patient lists their own bookings and nobody else's. */
  function ListBookings(header: Option<string>, verify: string -> Option<Claims>, patient: Option<string>, bookings: seq<Booking>)
    : (r: Response<seq<Booking>>)
    ensures r.Ok? <==> VerifyJwt(header, verify).Proceed? && patient == Some(VerifyJwt(header, verify).claims.email)
    ensures r.Ok? ==> forall b :: b in r.body <==> b in bookings && b.patient == patient.value
    ensures r.Ok? ==> r.body == PatientBookings(bookings, patient.value)
    ensures !r.Ok? ==> r.Error? && (r.status == 401 || r.status == 403)
    ensures !VerifyJwt(header, verify).Proceed? ==> r == Refusal(VerifyJwt(header, verify))
    ensures VerifyJwt(header, verify).Proceed? && patient != Some(VerifyJwt(header, verify).claims.email) ==>
      r == Error(403, "forbidden access")
  {
    var gate := VerifyJwt(header, verify);
    if !gate.Proceed? then Refusal(gate)
    else
      var check := PatientGate(patient, gate.claims);
      if !check.Proceed? then Refusal(check)
      else Ok(PatientBookings(bookings, patient.value))
  }

  /** A token for one identity never lists another patient's bookings. */
  lemma PatientIsolation(header: Option<string>, verify: string -> Option<Claims>, bookings: seq<Booking>, asked: string, holder: string)
    requires VerifyJwt(header, verify) == Proceed(Claims(holder))
    requires asked != holder
    ensures ListBookings(header, verify, Some(asked), bookings) == Error(403, "forbidden access")
  {
  }

  /** GET /booking/:id: any authenticated caller gets the booking with that id, or nothing. */
  function GetBooking(header: Option<string>, verify: string -> Option<Claims>, id: BookingId, bookings: seq<Booking>)
    : (r: Response<Option<Booking>>)
    ensures r.Ok? <==> VerifyJwt(header, verify).Proceed?
    ensures r.Ok? && r.body.Some? ==>
      exists k :: 0 <= k < |bookings| && bookings[k] == r.body.value && r.body.value.id == id &&
        forall i :: 0 <= i < k ==> bookings[i].id != id
    ensures r.Ok? && r.body.None? ==> forall b :: b in bookings ==> b.id != id
    ensures !r.Ok? ==> r.Error? && (r.status == 401 || r.status == 403)
    ensures !r.Ok? ==> r == Refusal(VerifyJwt(header, verify))
  {
    var gate := VerifyJwt(header, verify);
    if !gate.Proceed? then Refusal(gate)
    else match FindById(bookings, id)
      case None => Ok(None)
      case Some(k) => Ok(Some(bookings[k]))
  }

  /** PATCH /booking/:id behind `verifyjwt`; a payment whose `_id` is already logged gets no answer. */
  method PayBooking(ledger: BookingLedger, header: Option<string>, verify: string -> Option<Claims>, id: BookingId, payment: Payment)
    returns (r: Response<PaidUpdate>)
    requires ledger.Valid()
    modifies ledger
    ensures ledger.Valid()
    ensures r.Ok? <==> VerifyJwt(header, verify).Proceed? && !PaymentIdTaken(old(ledger.payments), payment)
    ensures !VerifyJwt(header, verify).Proceed? ==> r == Refusal(VerifyJwt(header, verify))
    ensures r.NoResponse? <==> VerifyJwt(header, verify).Proceed? && PaymentIdTaken(old(ledger.payments), payment)
    ensures r.Ok? ==>
      && r.body == PaidUpdate(PaidFields(true, payment.transectionId))
      && ledger.payments == old(ledger.payments) + [payment]
      && ledger.bookings == SetPaid(old(ledger.bookings), id, payment.transectionId)
    ensures !r.Ok? ==> ledger.payments == old(ledger.payments) && ledger.bookings == old(ledger.bookings)
    ensures ledger.nextId == old(ledger.nextId)
  {
    var gate := VerifyJwt(header, verify);
    if !gate.Proceed? {
      return Refusal(gate);
    }
    var echo := ledger.MarkPaid(id, payment);
    if echo.None? {
      return NoResponse;
    }
    r := Ok(echo.value);
  }

  /** PUT /user/admin/:email behind `verifyjwt` and `verifyAdmin`. */
  method PromoteUser(store: UserStore, header: Option<string>, verify: string -> Option<Claims>, target: string)
    returns (r: Response<UpdateResult>)
    modifies store
    ensures r.Ok? <==> AdminGate(header, verify, old(store.users)).Proceed?
    ensures r.Ok? ==>
      && store.users == Promoted(old(store.users), target)
      && r.body == PromoteResult(old(store.users), target)
    ensures !r.Ok? ==> store.users == old(store.users)
    ensures r.Error? ==> r.status == 401 || r == Error(403, "Forbidden Access") || r == Error(403, "forbidden")
    ensures !r.Ok? ==> r == Refusal(AdminGate(header, verify, old(store.users)))
  {
    var gate := AdminGate(header, verify, store.users);
    if !gate.Proceed? {
      return Refusal(gate);
    }
    var result := store.Promote(target);
    r := Ok(result);
  }

  /** PUT /user/:email has no guard and signs a token for the path's email. Anyone who asks with
      a stored admin's email and an empty body gets a token that passes both admin guards, and
      the collection is left as it was. `token` stands for the signed token, which the oracle
      accepts with the claims it was signed over. */
  lemma AdminTokenForAnyone(users: seq<Doc>, email: string, token: string, verify: string -> Option<Claims>)
    requires AdminStatus(users, email) == Some(true)
    requires token != "" && ' ' !in token && verify(token) == Some(Claims(email))
    ensures Upserted(users, email, map[]) == users
    ensures UpsertResult(users, email, map[]) == UpdateResult(1, 0, 0)
    ensures AdminGate(Some("Bearer " + token), verify, Upserted(users, email, map[])) == Proceed(Claims(email))
  {
    var k := FindEmail(users, email).value;
    assert users[k] + map[] == users[k];
    assert users[k := users[k]] == users;
    BearerTokenOf("Bearer", token, "");
    assert "Bearer" + " " + token + "" == "Bearer " + token;
  }
}

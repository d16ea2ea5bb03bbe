# Doctors portal server: a Dafny model of its booking and access logic

The server is a clinic's booking backend built on Express and MongoDB, and all of it sits in `index.js`. Most of that file is routing and database calls. This project models the decision and collection logic inside the handlers, over in-memory collections, one request at a time:

- **Availability calculator** (`GET /available`, module `Availability`, `availability.dfy`). For a date, every service's ordered slot list is narrowed to the slots that no booking for that service name on that date holds. When the query names no date, `"May 11, 2022"` is used. The handler's `forEach` overwrites each fetched service in place, so it is modelled as a loop over an `array<Service>` (`NarrowAll`). That loop is proved against the pure filter chain (`BookingsOn`, `BookedSlots`, `Available`, `Narrowed`).
- **Booking ledger** (`POST /booking`, `PATCH /booking/:id`, `GET /booking/:id`, the `{patient}` query; module `Ledger`, `ledger.dfy`). The class `BookingLedger` holds the `bookings` and `payments` collections and the next id to assign. Its invariant has four parts: no two bookings share a (treatment, date, patient) triple, booking ids are distinct, every booking id is below the next id to assign, and no two logged payments share an `_id`. The slot is not part of the triple. A payment whose `_id` is already logged is refused by the store before the booking is touched, and the handler then answers nothing. `Create` is proved against the step function `Admit`, and `MarkPaid` against `SetPaid`.
- **User/role store** (`PUT /user/:email`, `PUT /user/admin/:email`, `GET /admin/:email`; module `Users`, `users.dfy`). A user is a document mapping field names to values. The upsert merges the body into the first document with that email (`$set`: the body wins, other fields stay), or inserts `{email} + body` when there is none. Promotion sets `role = "admin"` on the first match and inserts nothing when nobody matches. The upsert route has no guard, so a body carrying `role: "admin"` makes its email an admin without passing `verifyAdmin` (`UpsertCanGrantAdmin`). The update counters (`matchedCount`, `modifiedCount`, `upsertedCount`) are modelled. The class `UserStore` holds the collection.
- **Access decisions** (module `Guards`, `guards.dfy`).
  - `verifyjwt`: an absent or empty `Authorization` header gives 401. The token is the second word of `header.split(' ')`. A missing or empty token, or one the verification oracle refuses, gives 403.
  - `verifyAdmin`: continues only when the requester's stored role is `"admin"`, and gives 403 otherwise. When the requester has no stored document the source dereferences null and sends nothing; this is modelled as `Fault`.
  - The patient check of `GET /booking`: the queried patient must equal the token's email.
- **Routes** (module `Routes`, `routes.dfy`). These put the guards in front of their handlers: the patient listing, the lookup by id, the paid step and the promotion. `PUT /user/:email` has no guard and signs a token for the path's email, so anyone can obtain a token that passes both admin guards by naming a stored admin's email (`AdminTokenForAnyone`).

Token verification is a parameter `verify: string -> Option<Claims>`. Signing is represented by the claims the token is issued for (`Claims(email)`). Booking ids are naturals that the ledger hands out.

## Model

| member | source | states |
|---|---|---|
| Availability.RequestedDate | index.js:111 | an absent or empty `date` query falls back to "May 11, 2022"; any other value is used as given |
| Availability.BookingsOn | index.js:114-115 | the bookings fetched for a date are exactly the stored bookings with that date, in collection order (a subsequence), each with every occurrence it had |
| Availability.BookedSlots | index.js:117-119 | a slot is booked for a service exactly when some booking of that day names the service as its treatment and holds that slot |
| Availability.Available | index.js:121 | a slot survives the filter exactly when it is in the service's list and not among the booked slots |
| Availability.Narrowed | index.js:116-123 | a narrowed service keeps its name and price; its slots are a subsequence of the original and are exactly those no booking of that day for the service holds |
| Availability.AvailableIsSubsequence | index.js:121 | the free slots keep the original order |
| Availability.AvailableCount | index.js:121 | a free slot keeps every occurrence it had and a booked slot keeps none, so the result is fixed together with the order |
| Availability.FullyBooked | index.js:121-123 | a service whose slots are all taken gets an empty list, not an error |
| Availability.NothingBooked | index.js:121 | with nothing booked, the service's whole list is offered unchanged |
| Availability.OtherBookingIgnored | index.js:114-121 | a booking for another date or another treatment never removes a slot from a service |
| Availability.FreeOnDate | index.js:110-123 | a slot is offered for a date exactly when the service has it and no booking with that date, that treatment and that slot exists |
| Availability.NarrowAll | index.js:116-124 | the in-place loop overwrites every service with its narrowed form |
| Availability.GetAvailable | index.js:110-127 | the handler narrows every fetched service against the bookings of the requested date |
| Ledger.FindTriple | index.js:151-152 | the lookup finds the first booking with the requested triple, or reports that none has it |
| Ledger.FindById | index.js:144-145 | the lookup by id finds the first booking with that id, or reports that none has it |
| Ledger.Admit | index.js:149-158 | a request is created exactly when no stored booking has its triple; then the booking is appended with the new id, otherwise the collection is unchanged and the refusal carries a booking with that triple |
| Ledger.AdmitDuplicate | index.js:151-155 | a request whose triple is already booked is refused with that booking, whatever slot it asks for, and the collection is unchanged |
| Ledger.AdmitFresh | index.js:156-157 | a request with a new triple appends exactly that booking and succeeds |
| Ledger.AdmitKeepsUnique | index.js:149-158 | creating bookings never yields two bookings with the same triple |
| Ledger.AdmitResubmitted | index.js:149-158 | submitting the same triple twice: the second submission is refused with the booking the first one created |
| Ledger.SetPaid | index.js:164-172 | the paid step keeps the collection's length and changes a booking only by marking one with that id paid; with no booking of that id nothing changes |
| Ledger.SetPaidEffect | index.js:164-172 | the paid step sets `paid` and `transectionId` on the booking with that id and changes nothing else |
| Ledger.SetPaidKeepsInvariants | index.js:164-172 | the paid step keeps triples and ids unique and leaves every triple as it was |
| Ledger.PaidThenFound | index.js:142-172 | after the paid step, looking the booking up by id shows it paid with that transaction id |
| Ledger.PatientBookings | index.js:133-134 | the patient query returns exactly that patient's bookings, every occurrence of them, in collection order |
| Ledger.BookingLedger.Create | index.js:149-158 | POST /booking keeps the ledger invariant, leaves payments alone, is the step `Admit` on the old bookings, and consumes an id exactly when it creates |
| Ledger.BookingLedger.MarkPaid | index.js:161-174 | PATCH /booking/:id answers nothing and changes nothing exactly when the payment's `_id` is already logged; otherwise it appends the payment, marks the booking paid with the body's transaction id (absent when the body has none), and echoes the update document `{$set: {paid: true, transectionId}}`; the invariant is kept either way |
| Users.FindEmail | index.js:82 | the lookup finds the first user whose email field is that email, or reports that none has it |
| Users.AdminStatus | index.js:80-85 | the admin query reports whether the first stored user with that email has role admin, and nothing exactly when no user has that email |
| Users.Promoted | index.js:88-93 | promotion keeps the collection's length and changes a user only by setting role = admin on one with that email; with no such user nothing changes |
| Users.PromoteResult | index.js:88-94 | promotion never inserts; it matches exactly when a user has that email, and modifies exactly when that user is not yet admin |
| Users.Upserted | index.js:98-105 | the upsert appends one document `{email} + body` exactly when no user has that email; otherwise it changes a user only by merging the body into one with that email |
| Users.UpsertResult | index.js:98-105 | the upsert either matches or inserts, exactly one of them, inserts exactly when the email is new, and reports one modification exactly when the body changes some field of the first matching user |
| Users.UpsertCounters | index.js:98-105 | a new email reports one insertion; when the body keeps the email, repeating an upsert reports one match and nothing modified |
| Users.UpsertCanGrantAdmin | index.js:97-105 | when the body keeps the email, the unguarded upsert with a body carrying role = admin makes the admin query answer true for that email |
| Users.PromoteIdempotent | index.js:88-93 | promoting twice gives the same collection as promoting once |
| Users.PromoteTwiceModifiesNothing | index.js:88-94 | a repeated promotion matches the user and reports nothing modified |
| Users.PromoteEffect | index.js:88-93 | promotion sets role = admin on the matching user only, keeps every other field, and changes nothing for an absent email |
| Users.PromoteGrantsAdmin | index.js:88-93 | after promotion the admin query answers true for that email |
| Users.UpsertEffect | index.js:98-105 | the upsert overwrites only the body's fields of the matching user and keeps the rest; with no match it inserts `{email} + body` |
| Users.UpsertThenFound | index.js:98-105 | unless the body rewrites the email, the user is then found by that email and holds every field of the body |
| Users.UpsertIdempotent | index.js:100-105 | when the body keeps the email, repeating the same upsert changes nothing more |
| Users.UserStore.Upsert | index.js:97-108 | PUT /user/:email stores the upserted collection, answers the update counters, and returns claims bound to that email |
| Users.UserStore.Promote | index.js:87-95 | PUT /user/admin/:email stores the promoted collection and answers its update counters |
| Users.UserStore.IsAdmin | index.js:80-85 | GET /admin/:email answers whether the first stored user with that email is admin, and nothing exactly when the email is unknown |
| Guards.Split | index.js:25 | `split(' ')` yields at least one part, no part holds a space, and a single part means the header has no space |
| Guards.JoinSplit | index.js:25 | joining the parts with the separator gives back the header |
| Guards.SplitJoin | index.js:25 | splitting gives back parts that were joined, when none of them holds the separator |
| Guards.BearerToken | index.js:25 | there is a second word exactly when the header holds a space, and it holds no space |
| Guards.BearerTokenOf | index.js:25 | a header "scheme token", with or without further space-separated words, yields exactly that token |
| Guards.VerifyJwt | index.js:20-34 | no or an empty header gives 401; otherwise a missing, empty or refused token gives 403; the guard continues exactly when the oracle accepts the token, with the claims it decodes to |
| Guards.VerifyAdmin | index.js:45-54 | the guard continues exactly for a stored admin, gives 403 for a stored non-admin, and faults for an unknown requester |
| Guards.AdminGate | index.js:45-54 | an admin-gated request goes on only with the verified claims of a requester stored as admin; a token refusal passes through unchanged and a verified token is decided by `verifyAdmin` |
| Guards.AdminGateSound | index.js:45-53 | an admin-gated route runs only after the token verified and when the first stored user with the requester's email has role admin |
| Guards.NonAdminForbidden | index.js:45-53 | a verified requester who is stored but is not admin gets 403, whatever the request carries |
| Guards.PatientGate | index.js:129-139 | the patient check passes exactly when the queried patient is the token's email, and gives 403 otherwise |
| Routes.ListBookings | index.js:129-140 | GET /booking answers only a verified caller asking for their own email, and then lists exactly that patient's bookings; a token refusal is passed on as it is, and a verified caller asking for another patient gets 403 "forbidden access" |
| Routes.PatientIsolation | index.js:129-139 | a token for one identity asking for another patient's bookings gets 403 |
| Routes.GetBooking | index.js:142-147 | GET /booking/:id answers any verified caller with the first booking with that id, or with nothing when none has it; a refused caller gets the token refusal, 401 or 403 |
| Routes.PayBooking | index.js:161-174 | PATCH /booking/:id passes a token refusal on; with a verified token it answers nothing exactly when the payment's `_id` is already logged; the ledger changes exactly when it answers the update document; no id is consumed |
| Routes.PromoteUser | index.js:87-95 | PUT /user/admin/:email promotes exactly when both guards pass; otherwise it answers what the guards decided (no response for an unknown requester) and changes nothing |
| Routes.AdminTokenForAnyone | index.js:97-107 | the unguarded upsert with an empty body, for a stored admin's email, leaves the users unchanged and hands back a token that passes both admin guards |

## Left out

- Express routing, CORS, JSON body parsing, `app.listen` and the `/` greeting (index.js:9-13, 200-206) are HTTP plumbing.
- The MongoDB client, its connection and the `run()` lifecycle are not modelled. Collections are in-memory sequences, and "first match" means first in insertion order. The store's natural order is not otherwise specified.
- `ObjectId(id)` parsing is not modelled. Ids are naturals, so a malformed id string, which makes `ObjectId` throw, does not arise.
- The JWT crypto and the one-hour expiry are not modelled. Verification is the `verify` oracle, which also covers expired tokens. Signing is not modelled: `Users.UserStore.Upsert` returns the claims the token would carry.
- The Stripe payment intent (`POST /create-payment-intent`, index.js:56-66) is left out. It is a foreign SDK call, and `price * 100` is floating-point arithmetic.
- Concurrency is left out. The race between `findOne` and `insertOne` in `POST /booking`, and the non-atomic payment-then-booking writes of `PATCH /booking/:id`, are not modelled. Each handler is one atomic step.
- Doctor CRUD, the `/service` name projection and the `/user` listing (index.js:68-78, 176-192) are pass-throughs with no logic.
- Booking bodies are modelled by their four fields (treatment, date, patient, slot), and a created booking is unpaid with no transaction id. `POST /booking` stores the body exactly as sent (index.js:150, 156), so the model does not capture these cases:
  - An `_id` in the body becomes the booking's id, which `GET` and `PATCH /booking/:id` then look up. A repeated `_id` makes `insertOne` reject, and no response is sent. Ids here are always handed out by the ledger.
  - A body carrying `paid` or `transectionId` is stored with those values before any payment.
  - A body missing a triple field queries that field as null, which matches stored bookings that lack it. Here every request carries all three fields.
- User document values, request query values and booking and payment body fields are strings. Non-string JSON values and query operators are not modelled. For example, Express parses `?date[$ne]=x` into an object, which turns the date query into "every other date"; a booking body with `treatment: {"$ne": null}` makes the duplicate check match any booking of that date and patient. Dotted `$set` paths and an `_id` in a user body are not modelled either: on a match the store refuses to change the immutable `_id`, and on the upsert's insert path it becomes the new document's `_id`.
- Users.UserStore.Upsert: returns the claims `Claims(email)` that the token is signed over, not a signed token, because signing is cryptography outside the model.
- A missing user is modelled as `Fault` in `verifyAdmin` and as `None` in `GET /admin/:email`. The source dereferences null there: the async handler's promise is rejected, Express 4 does not catch it, no response is sent, and on Node 15 and later the unhandled rejection ends the process. The model does not capture the process ending. The same unhandled rejection follows a payment body whose `_id` is already logged (index.js:171), which the model answers with `NoResponse`.
- A payment body without `transectionId` is modelled as `None`. The source then `$set`s `undefined`, which the store writes as null, and the echoed JSON omits the field. The model does not distinguish a stored null from an absent field.

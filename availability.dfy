/** GET /available: for a date, every service's slot list narrowed to the slots
    nobody has booked for that service on that date. */
module Availability {
  import opened Records

  /** The date used when the request names none. */
  const DefaultDate: string := "May 11, 2022"

  /** `req.query.date || 'May 11, 2022'`: an absent or empty query falls back to the default. */
  function RequestedDate(query: Option<string>): (date: string)
    ensures date != ""
    ensures query.Some? && query.value != "" ==> date == query.value
    ensures query.None? || query.value == "" ==> date == DefaultDate
  {
    if query.Some? && query.value != "" then query.value else DefaultDate
  }

  /** The bookings query `{date: date}`, in collection order. */
  function BookingsOn(all: seq<Booking>, date: string): (day: seq<Booking>)
    ensures forall b :: b in day <==> b in all && b.date == date
    ensures IsSubsequence(day, all)
    ensures forall b :: Count(day, b) == if b.date == date then Count(all, b) else 0
  {
    if all == [] then []
    else
      var rest := BookingsOn(all[1..], date);
      if all[0].date == date then [all[0]] + rest
      else
        SubsequenceOfTail(rest, all);
        rest
  }

  /** The slots taken for one service: filter by treatment, then map to the slot. */
  function BookedSlots(day: seq<Booking>, name: string): (booked: seq<string>)
    ensures forall x :: x in booked <==> exists b :: b in day && b.treatment == name && b.slot == x
    ensures |booked| <= |day|
  {
    if day == [] then []
    else
      var rest := BookedSlots(day[1..], name);
      assert forall b :: b in day[1..] ==> b in day;
      assert forall b :: b in day ==> b == day[0] || b in day[1..];
      if day[0].treatment == name then [day[0].slot] + rest else rest
  }

  /** `slots.filter(slot => !booked.includes(slot))`. */
  function Available(slots: seq<string>, booked: seq<string>): (free: seq<string>)
    ensures forall x :: x in free <==> x in slots && x !in booked
    ensures |free| <= |slots|
  {
    if slots == [] then []
    else if slots[0] in booked then Available(slots[1..], booked)
    else [slots[0]] + Available(slots[1..], booked)
  }

  /** A service with its slots narrowed to what is still free among `day`'s bookings. */
  function Narrowed(s: Service, day: seq<Booking>): (r: Service)
    ensures r.name == s.name && r.price == s.price
    ensures IsSubsequence(r.slots, s.slots)
    ensures forall x :: x in r.slots <==>
      x in s.slots && !exists b :: b in day && b.treatment == s.name && b.slot == x
  {
    var booked := BookedSlots(day, s.name);
    AvailableIsSubsequence(s.slots, booked);
    s.(slots := Available(s.slots, booked))
  }

  /** The free slots keep the original order: they are a subsequence of the service's list. */
  lemma {:induction false} AvailableIsSubsequence(slots: seq<string>, booked: seq<string>)
    ensures IsSubsequence(Available(slots, booked), slots)
    decreases |slots|
  {
    if slots != [] {
      AvailableIsSubsequence(slots[1..], booked);
      if slots[0] !in booked {
        var free := Available(slots, booked);
        assert free[0] == slots[0] && free[1..] == Available(slots[1..], booked);
      }
    }
  }

  /** Each free slot keeps every one of its occurrences; each booked slot loses them all. */
  lemma {:induction false} AvailableCount(slots: seq<string>, booked: seq<string>, x: string)
    ensures Count(Available(slots, booked), x) == if x in booked then 0 else Count(slots, x)
    decreases |slots|
  {
    if slots != [] {
      AvailableCount(slots[1..], booked, x);
      if slots[0] !in booked {
        var free := Available(slots, booked);
        assert free[0] == slots[0] && free[1..] == Available(slots[1..], booked);
      }
    }
  }

  lemma {:induction false} AllBooked(slots: seq<string>, booked: seq<string>)
    requires forall x :: x in slots ==> x in booked
    ensures Available(slots, booked) == []
    decreases |slots|
  {
    if slots != [] {
      assert slots[0] in slots;
      assert forall x :: x in slots[1..] ==> x in slots;
      AllBooked(slots[1..], booked);
    }
  }

  /** A service whose every slot is taken gets an empty list, not an error. */
  lemma FullyBooked(s: Service, day: seq<Booking>)
    requires forall x :: x in s.slots ==> exists b :: b in day && b.treatment == s.name && b.slot == x
    ensures Narrowed(s, day).slots == []
  {
    AllBooked(s.slots, BookedSlots(day, s.name));
  }

  /** With nothing booked for the service that day, its whole slot list is offered. */
  lemma {:induction false} NothingBooked(slots: seq<string>, booked: seq<string>)
    requires forall x :: x in slots ==> x !in booked
    ensures Available(slots, booked) == slots
    decreases |slots|
  {
    if slots != [] {
      assert slots[0] in slots;
      assert forall x :: x in slots[1..] ==> x in slots;
      NothingBooked(slots[1..], booked);
    }
  }

  lemma {:induction false} BookingsOnAppend(all: seq<Booking>, b: Booking, date: string)
    ensures BookingsOn(all + [b], date) == BookingsOn(all, date) + (if b.date == date then [b] else [])
    decreases |all|
  {
    if all == [] {
      assert [b][1..] == [];
    } else {
      assert (all + [b])[1..] == all[1..] + [b];
      BookingsOnAppend(all[1..], b, date);
    }
  }

  lemma {:induction false} BookedSlotsAppend(day: seq<Booking>, b: Booking, name: string)
    ensures BookedSlots(day + [b], name) == BookedSlots(day, name) + (if b.treatment == name then [b.slot] else [])
    decreases |day|
  {
    if day == [] {
      assert [b][1..] == [];
    } else {
      assert (day + [b])[1..] == day[1..] + [b];
      BookedSlotsAppend(day[1..], b, name);
    }
  }

  /** A booking for another date or another treatment never takes a slot away from the service. */
  lemma OtherBookingIgnored(s: Service, all: seq<Booking>, b: Booking, date: string)
    requires b.date != date || b.treatment != s.name
    ensures Narrowed(s, BookingsOn(all + [b], date)) == Narrowed(s, BookingsOn(all, date))
  {
    var day := BookingsOn(all, date);
    BookingsOnAppend(all, b, date);
    var booked := BookedSlots(day, s.name);
    if b.date == date {
      assert BookingsOn(all + [b], date) == day + [b];
      BookedSlotsAppend(day, b, s.name);
      assert booked + [] == booked;
    } else {
      assert day + [] == day;
    }
    assert BookedSlots(BookingsOn(all + [b], date), s.name) == booked;
  }

  /** The handler's result for a date: a slot is offered exactly when no booking
      for that service on that date holds it. */
  lemma FreeOnDate(s: Service, all: seq<Booking>, date: string, x: string)
    ensures x in Narrowed(s, BookingsOn(all, date)).slots <==>
      x in s.slots && !exists b :: b in all && b.date == date && b.treatment == s.name && b.slot == x
  {
  }

  /** The `forEach` of the handler: every fetched service has its slots overwritten in place. */
  method NarrowAll(services: array<Service>, day: seq<Booking>)
    modifies services
    ensures forall i :: 0 <= i < services.Length ==> services[i] == Narrowed(old(services[i]), day)
  {
    var i := 0;
    while i < services.Length
      invariant 0 <= i <= services.Length
      invariant forall k :: 0 <= k < i ==> services[k] == Narrowed(old(services[k]), day)
      invariant forall k :: i <= k < services.Length ==> services[k] == old(services[k])
    {
      var service := services[i];
      var booked := BookedSlots(day, service.name);
      var free := Available(service.slots, booked);
      services[i] := service.(slots := free);
      i := i + 1;
    }
  }

  /** GET /available with the fetched services and the whole bookings collection. */
  method GetAvailable(dateQuery: Option<string>, services: array<Service>, all: seq<Booking>)
    modifies services
    ensures forall i :: 0 <= i < services.Length ==>
      services[i] == Narrowed(old(services[i]), BookingsOn(all, RequestedDate(dateQuery)))
  {
    var date := RequestedDate(dateQuery);
    var day := BookingsOn(all, date);
    NarrowAll(services, day);
  }
}

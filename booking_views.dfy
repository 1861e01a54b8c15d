/** The booking actions of bookings/views.py (`BookingViewSet`) over the
    in-memory image of the Seat, Booking, Ticket, Combo and ComboTicket
    tables.

    Two helpers the views import are not defined in the repository and are
    parameters here: `check` is `check_seat_availability(seat, function)`
    (a ticket is issued when it returns false, as the view is written) and
    `gen` is `generate_ticket_code(user, seat, function)`. The requesting
    user is a user id; the clock is the `now` parameter (minutes). */
module BookingViews {
  import opened Wrappers
  import opened Text
  import opened BookingModels

  // ------------------------------------------------------ select_seats spec

  /** Why a seat-selection run stopped before its last seat. */
  datatype Halt =
    | SeatNotFound(seat: nat)          // get_object_or_404(Seat, id=seat_id)
    | CodeNotUnique(code: string)      // the unique constraint refuses the insert

  /** The seat and ticket tables part-way through a request, the tickets the
      request has created so far, and whether it stopped. */
  datatype Progress = Progress(seats: map<nat, Seat>, tickets: seq<Ticket>, created: seq<Ticket>, halt: Option<Halt>)

  /** One iteration of the loop over `seat_ids`. */
  function SelectStep(p: Progress, bookingId: nat, user: nat, showing: nat, seatId: nat,
                      check: (Seat, nat) -> bool, gen: (nat, nat, nat) -> string, now: int): Progress
    requires p.halt == None
  {
    if seatId !in p.seats then p.(halt := Some(SeatNotFound(seatId)))
    else if check(p.seats[seatId], showing) then p
    else
      var code := gen(user, seatId, showing);
      if code in Codes(p.tickets) then p.(halt := Some(CodeNotUnique(code)))
      else
        var t := NewTicket(bookingId, seatId, code, now);
        Progress(p.seats[seatId := p.seats[seatId].(seatAvailable := false)], p.tickets + [t], p.created + [t], None)
  }

  /** The whole loop: seats in request order, stopping at the first seat
      that raises, with no rollback of what came before. */
  function SelectRun(p: Progress, bookingId: nat, user: nat, showing: nat, seatIds: seq<nat>,
                     check: (Seat, nat) -> bool, gen: (nat, nat, nat) -> string, now: int): (r: Progress)
    requires p.halt == None
    ensures r.seats.Keys == p.seats.Keys
    ensures p.tickets <= r.tickets && p.created <= r.created
    ensures |r.tickets| - |p.tickets| == |r.created| - |p.created| <= |seatIds|
    decreases |seatIds|
  {
    if seatIds == [] then p
    else
      var q := SelectStep(p, bookingId, user, showing, seatIds[0], check, gen, now);
      if q.halt.Some? then q else SelectRun(q, bookingId, user, showing, seatIds[1..], check, gen, now)
  }

  function SeatsIn(ts: seq<Ticket>): set<nat> {
    set t | t in ts :: t.seat
  }

  /** What a run from tables `seats0`/`tickets0` has done so far: the
      ticket table is the old one followed by exactly the created tickets,
      each for this booking, unscanned, stamped `now`, coded by `gen`, for a
      requested seat that exists; the seat table keeps its keys and differs
      only in those seats, now marked unavailable. */
  ghost predicate Issued(seats0: map<nat, Seat>, tickets0: seq<Ticket>, bookingId: nat, user: nat, showing: nat,
                         seatIds: seq<nat>, gen: (nat, nat, nat) -> string, now: int, p: Progress) {
    && p.tickets == tickets0 + p.created
    && p.seats.Keys == seats0.Keys
    && (forall t :: t in p.created ==>
          t.booking == bookingId && !t.isScanned && t.issuedAt == now && t.seat in seatIds
          && t.seat in seats0 && t.ticketCode == gen(user, t.seat, showing))
    && (forall s :: s in seats0 ==>
          p.seats[s] == if s in SeatsIn(p.created) then seats0[s].(seatAvailable := false) else seats0[s])
  }

  lemma SelectStepKeepsIssued(seats0: map<nat, Seat>, tickets0: seq<Ticket>, p: Progress, bookingId: nat, user: nat,
                              showing: nat, seatIds: seq<nat>, seatId: nat,
                              check: (Seat, nat) -> bool, gen: (nat, nat, nat) -> string, now: int)
    requires p.halt == None && seatId in seatIds
    requires Issued(seats0, tickets0, bookingId, user, showing, seatIds, gen, now, p)
    ensures Issued(seats0, tickets0, bookingId, user, showing, seatIds, gen, now,
                   SelectStep(p, bookingId, user, showing, seatId, check, gen, now))
  {
    var q := SelectStep(p, bookingId, user, showing, seatId, check, gen, now);
    if q.halt.None? && q != p {
      var t := NewTicket(bookingId, seatId, gen(user, seatId, showing), now);
      assert q.created == p.created + [t];
      assert SeatsIn(q.created) == SeatsIn(p.created) + {seatId};
    }
  }

  lemma {:induction false} SelectRunKeepsIssued(seats0: map<nat, Seat>, tickets0: seq<Ticket>, p: Progress, bookingId: nat,
                                                user: nat, showing: nat, seatIds: seq<nat>, rest: seq<nat>,
                                                check: (Seat, nat) -> bool, gen: (nat, nat, nat) -> string, now: int)
    requires p.halt == None && forall x :: x in rest ==> x in seatIds
    requires Issued(seats0, tickets0, bookingId, user, showing, seatIds, gen, now, p)
    ensures Issued(seats0, tickets0, bookingId, user, showing, seatIds, gen, now,
                   SelectRun(p, bookingId, user, showing, rest, check, gen, now))
    decreases |rest|
  {
    if rest != [] {
      SelectStepKeepsIssued(seats0, tickets0, p, bookingId, user, showing, seatIds, rest[0], check, gen, now);
      var q := SelectStep(p, bookingId, user, showing, rest[0], check, gen, now);
      if q.halt.None? {
        SelectRunKeepsIssued(seats0, tickets0, q, bookingId, user, showing, seatIds, rest[1..], check, gen, now);
      }
    }
  }

  /** A request only appends tickets and only clears the flag of the seats
      it issued tickets for, whether it completes or stops part-way. */
  lemma SelectRunAppends(seats0: map<nat, Seat>, tickets0: seq<Ticket>, bookingId: nat, user: nat, showing: nat,
                         seatIds: seq<nat>, check: (Seat, nat) -> bool, gen: (nat, nat, nat) -> string, now: int)
    ensures Issued(seats0, tickets0, bookingId, user, showing, seatIds, gen, now,
                   SelectRun(Progress(seats0, tickets0, [], None), bookingId, user, showing, seatIds, check, gen, now))
  {
    SelectRunKeepsIssued(seats0, tickets0, Progress(seats0, tickets0, [], None), bookingId, user, showing,
                         seatIds, seatIds, check, gen, now);
  }
  /** A run keeps ticket codes unique. */
  lemma {:induction false} SelectRunKeepsCodesUnique(p: Progress, bookingId: nat, user: nat, showing: nat, seatIds: seq<nat>,
                                                     check: (Seat, nat) -> bool, gen: (nat, nat, nat) -> string, now: int)
    requires p.halt == None && CodesUnique(p.tickets)
    ensures CodesUnique(SelectRun(p, bookingId, user, showing, seatIds, check, gen, now).tickets)
    decreases |seatIds|
  {
    if seatIds != [] {
      var q := SelectStep(p, bookingId, user, showing, seatIds[0], check, gen, now);
      if q.halt.None? {
        if q.tickets != p.tickets {
          var t := q.tickets[|q.tickets| - 1];
          assert q.tickets == p.tickets + [t];
          forall i | 0 <= i < |p.tickets| ensures p.tickets[i].ticketCode != t.ticketCode {
            assert p.tickets[i] in p.tickets;
          }
        }
        SelectRunKeepsCodesUnique(q, bookingId, user, showing, seatIds[1..], check, gen, now);
      }
    }
  }

  /** The tickets the source means to issue: one per requested seat that
      passes the availability check, in request order. */
  function ExpectedTickets(seats: map<nat, Seat>, bookingId: nat, user: nat, showing: nat, seatIds: seq<nat>,
                           check: (Seat, nat) -> bool, gen: (nat, nat, nat) -> string, now: int): seq<Ticket>
    requires forall i :: 0 <= i < |seatIds| ==> seatIds[i] in seats
  {
    if seatIds == [] then []
    else
      var first := if check(seats[seatIds[0]], showing) then []
                   else [NewTicket(bookingId, seatIds[0], gen(user, seatIds[0], showing), now)];
      first + ExpectedTickets(seats, bookingId, user, showing, seatIds[1..], check, gen, now)
  }

  lemma {:induction false} ExpectedTicketsFrame(seats1: map<nat, Seat>, seats2: map<nat, Seat>, bookingId: nat, user: nat,
                                                showing: nat, seatIds: seq<nat>,
                                                check: (Seat, nat) -> bool, gen: (nat, nat, nat) -> string, now: int)
    requires forall i :: 0 <= i < |seatIds| ==> seatIds[i] in seats1 && seatIds[i] in seats2 && seats1[seatIds[i]] == seats2[seatIds[i]]
    ensures ExpectedTickets(seats1, bookingId, user, showing, seatIds, check, gen, now)
         == ExpectedTickets(seats2, bookingId, user, showing, seatIds, check, gen, now)
    decreases |seatIds|
  {
    if seatIds != [] {
      ExpectedTicketsFrame(seats1, seats2, bookingId, user, showing, seatIds[1..], check, gen, now);
    }
  }

  /** For distinct, existing seats whose generated codes are new and
      distinct, the run never stops and creates exactly one ticket per seat
      passing the check, in request order; a seat failing it is skipped. */
  lemma {:induction false} SelectRunIssuesExpected(p: Progress, bookingId: nat, user: nat, showing: nat, seatIds: seq<nat>,
                                                   check: (Seat, nat) -> bool, gen: (nat, nat, nat) -> string, now: int)
    requires p.halt == None
    requires forall i :: 0 <= i < |seatIds| ==> seatIds[i] in p.seats
    requires forall i, j :: 0 <= i < j < |seatIds| ==> seatIds[i] != seatIds[j]
    requires forall i :: 0 <= i < |seatIds| ==> gen(user, seatIds[i], showing) !in Codes(p.tickets)
    requires forall i, j :: 0 <= i < j < |seatIds| ==> gen(user, seatIds[i], showing) != gen(user, seatIds[j], showing)
    ensures var r := SelectRun(p, bookingId, user, showing, seatIds, check, gen, now);
      r.halt == None && r.created == p.created + ExpectedTickets(p.seats, bookingId, user, showing, seatIds, check, gen, now)
    decreases |seatIds|
  {
    if seatIds != [] {
      var s0, rest := seatIds[0], seatIds[1..];
      var q := SelectStep(p, bookingId, user, showing, s0, check, gen, now);
      forall i | 0 <= i < |rest| ensures rest[i] in q.seats && q.seats[rest[i]] == p.seats[rest[i]] {
        assert rest[i] == seatIds[i + 1];
      }
      forall i | 0 <= i < |rest| ensures gen(user, rest[i], showing) !in Codes(q.tickets) {
        assert rest[i] == seatIds[i + 1];
        assert gen(user, s0, showing) != gen(user, rest[i], showing);
      }
      forall i, j | 0 <= i < j < |rest|
        ensures rest[i] != rest[j] && gen(user, rest[i], showing) != gen(user, rest[j], showing)
      {
        assert rest[i] == seatIds[i + 1] && rest[j] == seatIds[j + 1];
      }
      SelectRunIssuesExpected(q, bookingId, user, showing, rest, check, gen, now);
      ExpectedTicketsFrame(q.seats, p.seats, bookingId, user, showing, rest, check, gen, now);
    }
  }

  /** No rollback: a request whose first seat is issued and whose second
      seat does not exist stops with a not-found, and the first ticket
      stays in the table. */
  lemma MissingSeatKeepsEarlierTickets(p: Progress, bookingId: nat, user: nat, showing: nat, good: nat, missing: nat,
                                       check: (Seat, nat) -> bool, gen: (nat, nat, nat) -> string, now: int)
    requires p.halt == None
    requires good in p.seats && !check(p.seats[good], showing)
    requires gen(user, good, showing) !in Codes(p.tickets)
    requires missing !in p.seats
    ensures var r := SelectRun(p, bookingId, user, showing, [good, missing], check, gen, now);
      && r.halt == Some(SeatNotFound(missing))
      && r.tickets == p.tickets + [NewTicket(bookingId, good, gen(user, good, showing), now)]
      && good in r.seats && !r.seats[good].seatAvailable
  {
    var q := SelectStep(p, bookingId, user, showing, good, check, gen, now);
    assert [good, missing][1..] == [missing];
    assert missing !in q.seats;
  }

  // ------------------------------------------------------ cancel_booking spec

  /** `Ticket.objects.filter(booking=booking)`, in table order. */
  function TicketsOfBooking(tickets: seq<Ticket>, bookingId: nat): (r: seq<Ticket>)
    ensures forall t :: t in r <==> t in tickets && t.booking == bookingId
  {
    if tickets == [] then []
    else if tickets[0].booking == bookingId then [tickets[0]] + TicketsOfBooking(tickets[1..], bookingId)
    else TicketsOfBooking(tickets[1..], bookingId)
  }

  /** The filter keeps table order: filtering a table split in two is
      filtering each part and joining the results. */
  lemma {:induction false} TicketsOfBookingKeepsOrder(a: seq<Ticket>, b: seq<Ticket>, bookingId: nat)
    ensures TicketsOfBooking(a + b, bookingId) == TicketsOfBooking(a, bookingId) + TicketsOfBooking(b, bookingId)
    decreases |a|
  {
    if a == [] {
      assert a + b == b;
    } else {
      assert (a + b)[0] == a[0];
      assert (a + b)[1..] == a[1..] + b;
      TicketsOfBookingKeepsOrder(a[1..], b, bookingId);
    }
  }

  function SeatsOfBooking(tickets: seq<Ticket>, bookingId: nat): set<nat> {
    set t | t in tickets && t.booking == bookingId :: t.seat
  }

  /** The seat table with every seat in `freed` marked available. */
  function ReleaseSeats(seats: map<nat, Seat>, freed: set<nat>): map<nat, Seat> {
    map s | s in seats :: if s in freed then seats[s].(seatAvailable := true) else seats[s]
  }

  /** The tables after `cancel_booking` on an owned booking. */
  function CancelSpec(seats: map<nat, Seat>, bookings: map<nat, Booking>, tickets: seq<Ticket>, bookingId: nat)
    : (r: (map<nat, Seat>, map<nat, Booking>))
    requires bookingId in bookings
    ensures r.0.Keys == seats.Keys && r.1.Keys == bookings.Keys
    ensures bookingId in r.1 && r.1[bookingId].status == Cancelled
    ensures forall s :: s in r.0 ==> r.0[s].seatAvailable || r.0[s] == seats[s]
  {
    (ReleaseSeats(seats, SeatsOfBooking(tickets, bookingId)),
     bookings[bookingId := bookings[bookingId].(status := Cancelled)])
  }

  /** Cancelling frees exactly the booking's seats, marks it cancelled
      whatever its prior status, and touches no other row. */
  lemma CancelFreesBookingSeats(seats: map<nat, Seat>, bookings: map<nat, Booking>, tickets: seq<Ticket>, bookingId: nat)
    requires bookingId in bookings && TicketsReferenceRows(tickets, bookings, seats)
    ensures var (seats', bookings') := CancelSpec(seats, bookings, tickets, bookingId);
      && seats'.Keys == seats.Keys && bookings'.Keys == bookings.Keys
      && bookings'[bookingId].status == Cancelled
      && (forall t :: t in tickets && t.booking == bookingId ==> seats'[t.seat].seatAvailable)
      && (forall s :: s in seats && s !in SeatsOfBooking(tickets, bookingId) ==> seats'[s] == seats[s])
      && (forall b :: b in bookings && b != bookingId ==> bookings'[b] == bookings[b])
  {
  }

  /** A second cancellation leaves the same state (tickets are not deleted). */
  lemma CancelIdempotent(seats: map<nat, Seat>, bookings: map<nat, Booking>, tickets: seq<Ticket>, bookingId: nat)
    requires bookingId in bookings
    ensures var (seats1, bookings1) := CancelSpec(seats, bookings, tickets, bookingId);
      CancelSpec(seats1, bookings1, tickets, bookingId) == (seats1, bookings1)
  {
    var (seats1, bookings1) := CancelSpec(seats, bookings, tickets, bookingId);
    var freed := SeatsOfBooking(tickets, bookingId);
    assert ReleaseSeats(seats1, freed) == seats1;
    assert bookings1[bookingId := bookings1[bookingId].(status := Cancelled)] == bookings1;
  }

  // ------------------------------------------------------ add_combo spec

  /** `f"CMB-{combo_id}-{booking.id}"`. */
  function ComboTicketCode(comboId: nat, bookingId: nat): string {
    "CMB-" + NatToString(comboId) + "-" + NatToString(bookingId)
  }

  /** Reads a combo code back into its combo and booking ids. */
  function ParseComboTicketCode(s: string): Option<(nat, nat)> {
    if |s| < 4 || s[..4] != "CMB-" then None
    else
      var rest := s[4..];
      var k := DigitRun(rest);
      if k == 0 || k == |rest| || rest[k] != '-' || !AllDigits(rest[k + 1..]) || |rest| == k + 1 then None
      else Some((ParseDigits(rest[..k]), ParseDigits(rest[k + 1..])))
  }

  /** The code determines the combo and the booking it was issued for. */
  lemma ComboTicketCodeRoundTrip(comboId: nat, bookingId: nat)
    ensures ParseComboTicketCode(ComboTicketCode(comboId, bookingId)) == Some((comboId, bookingId))
  {
    var c, b := NatToString(comboId), NatToString(bookingId);
    var s := ComboTicketCode(comboId, bookingId);
    var rest := s[4..];
    assert s[..4] == "CMB-";
    assert rest == c + ("-" + b);
    DigitRunOfDigits(c, "-" + b);
    assert rest[..|c|] == c;
    assert rest[|c| + 1..] == b;
    ParseNatToString(comboId);
    ParseNatToString(bookingId);
  }

  lemma ComboTicketCodeInjective(c1: nat, b1: nat, c2: nat, b2: nat)
    requires ComboTicketCode(c1, b1) == ComboTicketCode(c2, b2)
    ensures c1 == c2 && b1 == b2
  {
    ComboTicketCodeRoundTrip(c1, b1);
    ComboTicketCodeRoundTrip(c2, b2);
  }

  /** The ComboTicket row `add_combo` creates; `quantity` defaults to 1. */
  function ComboLine(bookingId: nat, comboId: nat, combo: Combo, quantity: Option<int>): (ct: ComboTicket)
    ensures ct.booking == bookingId && ct.combo == comboId
    ensures ct.quantity == quantity.GetOr(1)
    ensures ct.totalComboPrice == ct.quantity as real * combo.comboPrice
    ensures quantity == None ==> ct.quantity == 1 && ct.totalComboPrice == combo.comboPrice
    ensures ct.comboTicketCode == ComboTicketCode(comboId, bookingId)
    ensures ParseComboTicketCode(ct.comboTicketCode) == Some((comboId, bookingId))
  {
    ComboTicketCodeRoundTrip(comboId, bookingId);
    var q := quantity.GetOr(1);
    ComboTicket(bookingId, comboId, q, q as real * combo.comboPrice, ComboTicketCode(comboId, bookingId))
  }

  // ------------------------------------------------------ the tables

  datatype SelectOutcome =
    | BookingNotFound                 // 404 from the booking lookup
    | NoSeatsSent                     // 400 "No se enviarion asientos"
    | SeatMissing(seat: nat)          // 404 from a seat lookup
    | TicketCodeClash(code: string)   // the insert violates the unique code
    | TicketsCreated(tickets: seq<Ticket>)

  function OutcomeOf(r: Progress): SelectOutcome {
    match r.halt
    case None => TicketsCreated(r.created)
    case Some(SeatNotFound(s)) => SeatMissing(s)
    case Some(CodeNotUnique(c)) => TicketCodeClash(c)
  }

  datatype ComboOutcome = ComboBookingNotFound | ComboNotFound | ComboAdded(line: ComboTicket)

  datatype CancelOutcome = CancelNotFound | BookingCancelled

  /** `my_bookings`: 204 when the user has none, else the list. */
  datatype MyBookingsResponse = NoBookings | BookingList(bookings: map<nat, Booking>)

  /** `get_object_or_404(Booking, id=booking_id, user=request.user)` succeeds. */
  predicate OwnedBy(bookings: map<nat, Booking>, bookingId: nat, user: nat) {
    bookingId in bookings && bookings[bookingId].user == user
  }

  class BookingStore {
    var seats: map<nat, Seat>
    var bookings: map<nat, Booking>
    var tickets: seq<Ticket>
    var combos: map<nat, Combo>
    var comboTickets: seq<ComboTicket>
    var nextBookingId: nat

    ghost predicate Valid()
      reads this
    {
      && CodesUnique(tickets)
      && TicketsReferenceRows(tickets, bookings, seats)
      && (forall id :: id in bookings ==> id < nextBookingId)
    }

    constructor (seats: map<nat, Seat>, combos: map<nat, Combo>)
      ensures Valid()
      ensures this.seats == seats && this.combos == combos
      ensures bookings == map[] && tickets == [] && comboTickets == []
    {
      this.seats, this.combos := seats, combos;
      bookings, tickets, comboTickets := map[], [], [];
      nextBookingId := 1;
    }

    /** `create_booking`: a new booking for the requesting user. */
    method CreateBooking(user: nat, showing: nat, totalPrice: real, status: BookingStatus, now: int) returns (bookingId: nat)
      requires Valid()
      modifies this
      ensures Valid()
      ensures bookingId !in old(bookings)
      ensures bookings == old(bookings)[bookingId := Booking(user, showing, totalPrice, now, status)]
      ensures seats == old(seats) && tickets == old(tickets) && combos == old(combos) && comboTickets == old(comboTickets)
    {
      bookingId := nextBookingId;
      bookings := bookings[bookingId := Booking(user, showing, totalPrice, now, status)];
      nextBookingId := nextBookingId + 1;
    }

    /** `select_seats`. */
    method SelectSeats(user: nat, bookingId: nat, seatIds: seq<nat>,
                       check: (Seat, nat) -> bool, gen: (nat, nat, nat) -> string, now: int)
      returns (out: SelectOutcome)
      requires Valid()
      modifies this
      ensures Valid()
      ensures bookings == old(bookings) && combos == old(combos) && comboTickets == old(comboTickets)
      ensures nextBookingId == old(nextBookingId)
      ensures !OwnedBy(old(bookings), bookingId, user) ==>
        out == BookingNotFound && seats == old(seats) && tickets == old(tickets)
      ensures OwnedBy(old(bookings), bookingId, user) && seatIds == [] ==>
        out == NoSeatsSent && seats == old(seats) && tickets == old(tickets)
      ensures OwnedBy(old(bookings), bookingId, user) && seatIds != [] ==>
        var r := SelectRun(Progress(old(seats), old(tickets), [], None), bookingId, user,
                           old(bookings)[bookingId].showing, seatIds, check, gen, now);
        seats == r.seats && tickets == r.tickets && out == OutcomeOf(r)
    {
      if !OwnedBy(bookings, bookingId, user) {
        return BookingNotFound;
      }
      if seatIds == [] {
        return NoSeatsSent;
      }
      var showing := bookings[bookingId].showing;
      ghost var p0 := Progress(seats, tickets, [], None);
      var created: seq<Ticket> := [];
      var i := 0;
      while i < |seatIds|
        invariant 0 <= i <= |seatIds|
        invariant Valid()
        invariant bookings == old(bookings) && combos == old(combos) && comboTickets == old(comboTickets)
        invariant nextBookingId == old(nextBookingId)
        invariant SelectRun(p0, bookingId, user, showing, seatIds, check, gen, now)
               == SelectRun(Progress(seats, tickets, created, None), bookingId, user, showing, seatIds[i..], check, gen, now)
      {
        var seatId := seatIds[i];
        assert seatIds[i..][1..] == seatIds[i + 1..];
        if seatId !in seats {
          return SeatMissing(seatId);
        }
        var seat := seats[seatId];
        if !check(seat, showing) {
          var code := gen(user, seatId, showing);
          if code in Codes(tickets) {
            return TicketCodeClash(code);
          }
          var t := NewTicket(bookingId, seatId, code, now);
          forall k | 0 <= k < |tickets| ensures tickets[k].ticketCode != code {
            assert tickets[k] in tickets;
          }
          tickets := tickets + [t];
          created := created + [t];
          seats := seats[seatId := seat.(seatAvailable := false)];
        }
        i := i + 1;
      }
      out := TicketsCreated(created);
    }

    /** `add_combo`: prices the combo as quantity times unit price. */
    method AddCombo(user: nat, bookingId: nat, comboId: nat, quantity: Option<int>) returns (out: ComboOutcome)
      requires Valid()
      modifies this
      ensures Valid()
      ensures seats == old(seats) && bookings == old(bookings) && tickets == old(tickets) && combos == old(combos)
      ensures !OwnedBy(bookings, bookingId, user) ==> out == ComboBookingNotFound && comboTickets == old(comboTickets)
      ensures OwnedBy(bookings, bookingId, user) && comboId !in combos ==>
        out == ComboNotFound && comboTickets == old(comboTickets)
      ensures OwnedBy(bookings, bookingId, user) && comboId in combos ==>
        out == ComboAdded(ComboLine(bookingId, comboId, combos[comboId], quantity))
        && comboTickets == old(comboTickets) + [out.line]
    {
      if !OwnedBy(bookings, bookingId, user) {
        return ComboBookingNotFound;
      }
      if comboId !in combos {
        return ComboNotFound;
      }
      var line := ComboLine(bookingId, comboId, combos[comboId], quantity);
      comboTickets := comboTickets + [line];
      out := ComboAdded(line);
    }

    /** `my_bookings`. */
    function MyBookings(user: nat): (r: MyBookingsResponse)
      reads this
      ensures r == NoBookings <==> forall id :: id in bookings ==> bookings[id].user != user
      ensures r.BookingList? ==> forall id :: id in r.bookings <==> OwnedBy(bookings, id, user)
      ensures r.BookingList? ==> forall id :: id in r.bookings ==> id in bookings && r.bookings[id] == bookings[id]
    {
      var mine := map id | id in bookings && bookings[id].user == user :: bookings[id];
      assert forall id :: id in bookings && bookings[id].user == user ==> id in mine;
      if mine == map[] then
        NoBookings
      else
        BookingList(mine)
    }

    /** `cancel_booking`: frees every seat of the booking's tickets, then
        marks the booking cancelled; tickets stay. */
    method CancelBooking(user: nat, bookingId: nat) returns (out: CancelOutcome)
      requires Valid()
      modifies this
      ensures Valid()
      ensures tickets == old(tickets) && combos == old(combos) && comboTickets == old(comboTickets)
      ensures !OwnedBy(old(bookings), bookingId, user) ==>
        out == CancelNotFound && seats == old(seats) && bookings == old(bookings)
      ensures OwnedBy(old(bookings), bookingId, user) ==>
        out == BookingCancelled && (seats, bookings) == CancelSpec(old(seats), old(bookings), old(tickets), bookingId)
    {
      if !OwnedBy(bookings, bookingId, user) {
        return CancelNotFound;
      }
      var mine := TicketsOfBooking(tickets, bookingId);
      var i := 0;
      while i < |mine|
        invariant 0 <= i <= |mine|
        invariant tickets == old(tickets) && bookings == old(bookings) && seats.Keys == old(seats).Keys
        invariant combos == old(combos) && comboTickets == old(comboTickets)
        invariant Valid()
        invariant forall s :: s in seats ==>
          seats[s] == if s in SeatsIn(mine[..i]) then old(seats)[s].(seatAvailable := true) else old(seats)[s]
      {
        var t := mine[i];
        assert mine[..i + 1] == mine[..i] + [t];
        assert SeatsIn(mine[..i + 1]) == SeatsIn(mine[..i]) + {t.seat};
        seats := seats[t.seat := seats[t.seat].(seatAvailable := true)];
        i := i + 1;
      }
      assert mine[..i] == mine;
      assert SeatsIn(mine) == SeatsOfBooking(tickets, bookingId);
      assert seats == ReleaseSeats(old(seats), SeatsOfBooking(tickets, bookingId));
      bookings := bookings[bookingId := bookings[bookingId].(status := Cancelled)];
      out := BookingCancelled;
    }
  }
}

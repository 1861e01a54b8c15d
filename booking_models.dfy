/** The records of bookings/models.py (Seat, Booking, Ticket) and of the
    Combo and ComboTicket models the booking views use, with the
    constraints the schema declares: status choices, field defaults, the
    unique ticket code and the cascading foreign keys of Ticket. */
module BookingModels {
  import opened Wrappers

  /** A seat of a hall; `seatAvailable` defaults to true. */
  datatype Seat = Seat(hall: nat, row: string, number: int, seatAvailable: bool)

  /** `Seat(hall=..., row=..., number=...)` with the flag left to its default. */
  function NewSeat(hall: nat, row: string, number: int): (s: Seat)
    ensures s.seatAvailable && s.hall == hall && s.row == row && s.number == number
  {
    Seat(hall, row, number, true)
  }

  /** The four `status` choices of Booking. */
  datatype BookingStatus = Pending | Paid | Cancelled | Expired

  function StatusKey(s: BookingStatus): string {
    match s
    case Pending => "pending"
    case Paid => "paid"
    case Cancelled => "cancelled"
    case Expired => "expired"
  }

  /** Reads a stored status back; only the four choice keys are statuses. */
  function ParseStatus(key: string): (r: Option<BookingStatus>)
    ensures r.Some? <==> key in {"pending", "paid", "cancelled", "expired"}
    ensures r.Some? ==> StatusKey(r.value) == key
  {
    if key == "pending" then Some(Pending)
    else if key == "paid" then Some(Paid)
    else if key == "cancelled" then Some(Cancelled)
    else if key == "expired" then Some(Expired)
    else None
  }

  lemma StatusRoundTrip(s: BookingStatus)
    ensures ParseStatus(StatusKey(s)) == Some(s)
  {
  }

  /** `user` and `showing` (the `function` column) are foreign keys; times are in minutes. */
  datatype Booking = Booking(user: nat, showing: nat, totalPrice: real, createdAt: int, status: BookingStatus)

  /** A ticket: one seat of one booking, with its unique code. */
  datatype Ticket = Ticket(booking: nat, seat: nat, ticketCode: string, issuedAt: int, isScanned: bool)

  /** `Ticket.objects.create(booking=..., seat=..., ticket_code=...)`. */
  function NewTicket(booking: nat, seat: nat, code: string, now: int): (t: Ticket)
    ensures !t.isScanned && t.booking == booking && t.seat == seat && t.ticketCode == code && t.issuedAt == now
  {
    Ticket(booking, seat, code, now, false)
  }

  datatype Combo = Combo(comboName: string, comboDescription: string, comboPrice: real)

  datatype ComboTicket = ComboTicket(booking: nat, combo: nat, quantity: int, totalComboPrice: real, comboTicketCode: string)

  function Codes(tickets: seq<Ticket>): set<string> {
    set t | t in tickets :: t.ticketCode
  }

  /** `unique=True` on `ticket_code`. */
  predicate CodesUnique(tickets: seq<Ticket>) {
    forall i, j :: 0 <= i < j < |tickets| ==> tickets[i].ticketCode != tickets[j].ticketCode
  }

  /** Every ticket points at a stored booking and a stored seat. */
  predicate TicketsReferenceRows(tickets: seq<Ticket>, bookings: map<nat, Booking>, seats: map<nat, Seat>) {
    forall t :: t in tickets ==> t.booking in bookings && t.seat in seats
  }

  /** A row a ticket's foreign keys can point at. */
  datatype Parent = BookingRow(booking: nat) | SeatRow(seat: nat)

  predicate DependsOn(t: Ticket, p: Parent) {
    match p
    case BookingRow(b) => t.booking == b
    case SeatRow(s) => t.seat == s
  }

  /** The tickets that survive when row `p` is deleted, in their order. */
  function KeepTickets(tickets: seq<Ticket>, p: Parent): (r: seq<Ticket>)
    ensures forall t :: t in r <==> t in tickets && !DependsOn(t, p)
    ensures |r| <= |tickets|
  {
    if tickets == [] then []
    else if DependsOn(tickets[0], p) then KeepTickets(tickets[1..], p)
    else [tickets[0]] + KeepTickets(tickets[1..], p)
  }

  /** The cascade keeps table order: deleting from a table split in two is
      deleting from each part and joining the results. */
  lemma {:induction false} KeepTicketsKeepsOrder(a: seq<Ticket>, b: seq<Ticket>, p: Parent)
    ensures KeepTickets(a + b, p) == KeepTickets(a, p) + KeepTickets(b, p)
    decreases |a|
  {
    if a == [] {
      assert a + b == b;
    } else {
      assert (a + b)[0] == a[0];
      assert (a + b)[1..] == a[1..] + b;
      KeepTicketsKeepsOrder(a[1..], b, p);
    }
  }

  /** Keeping a subsequence of the tickets keeps their codes distinct. */
  lemma {:induction false} KeepTicketsKeepsCodesUnique(tickets: seq<Ticket>, p: Parent)
    requires CodesUnique(tickets)
    ensures CodesUnique(KeepTickets(tickets, p))
    decreases |tickets|
  {
    if tickets != [] {
      var rest := tickets[1..];
      assert CodesUnique(rest) by {
        forall i, j | 0 <= i < j < |rest| ensures rest[i].ticketCode != rest[j].ticketCode {
          assert rest[i] == tickets[i + 1] && rest[j] == tickets[j + 1];
        }
      }
      KeepTicketsKeepsCodesUnique(rest, p);
      var kept := KeepTickets(rest, p);
      if !DependsOn(tickets[0], p) {
        forall j | 0 <= j < |kept| ensures tickets[0].ticketCode != kept[j].ticketCode {
          assert kept[j] in rest;
          var k :| 0 <= k < |rest| && rest[k] == kept[j];
          assert tickets[k + 1] == kept[j];
        }
        var r := [tickets[0]] + kept;
        forall i, j | 0 <= i < j < |r| ensures r[i].ticketCode != r[j].ticketCode {
          if i == 0 {
            assert r[j] == kept[j - 1];
          } else {
            assert r[i] == kept[i - 1] && r[j] == kept[j - 1];
          }
        }
      }
    }
  }

  /** Deleting a booking deletes its tickets (`on_delete=CASCADE`); the
      remaining tickets still reference stored rows and keep unique codes. */
  lemma DeleteBookingCascade(bookings: map<nat, Booking>, seats: map<nat, Seat>, tickets: seq<Ticket>, b: nat)
    requires TicketsReferenceRows(tickets, bookings, seats) && CodesUnique(tickets)
    ensures var kept := KeepTickets(tickets, BookingRow(b));
      && TicketsReferenceRows(kept, bookings - {b}, seats)
      && CodesUnique(kept)
      && (forall t :: t in tickets && t.booking != b ==> t in kept)
  {
    KeepTicketsKeepsCodesUnique(tickets, BookingRow(b));
  }

  /** Deleting a seat deletes the tickets that hold it. */
  lemma DeleteSeatCascade(bookings: map<nat, Booking>, seats: map<nat, Seat>, tickets: seq<Ticket>, s: nat)
    requires TicketsReferenceRows(tickets, bookings, seats) && CodesUnique(tickets)
    ensures var kept := KeepTickets(tickets, SeatRow(s));
      && TicketsReferenceRows(kept, bookings, seats - {s})
      && CodesUnique(kept)
      && (forall t :: t in tickets && t.seat != s ==> t in kept)
  {
    KeepTicketsKeepsCodesUnique(tickets, SeatRow(s));
  }
}

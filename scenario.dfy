/** Clients of the catalog and the booking service whose contracts state the
    outcome of an example: train T1 with stations a, b, c and a free 2x2 seat
    map. They show what a caller can conclude from the contracts alone. */
module Scenario {
  import opened CaseFold
  import opened TrainEntity
  import opened UserEntity
  import opened TrainCatalog
  import opened Booking

  /** Searching a to c finds T1; searching c to a finds nothing. */
  method RouteSearch() returns (forward: seq<Train>, backward: seq<Train>)
    ensures |forward| == 1 && backward == []
  {
    var grid := new SeatGrid([[0, 0], [0, 0]]);
    var t1 := new Train("T1", "101", grid, map[], ["a", "b", "c"]);
    var catalog := new TrainService([t1]);
    assert LowerStr("a") == "a" && LowerStr("c") == "c";
    assert ValidTrain(t1, "a", "c") && !ValidTrain(t1, "c", "a");
    forward := catalog.SearchTrains("a", "c");
    backward := catalog.SearchTrains("c", "a");
    assert forward[0] == t1;
  }

  /** Booking the free seat (0, 1) succeeds and marks exactly that cell. */
  method BookFreeSeat() returns (booked: bool, seatsAfter: seq<seq<int>>)
    ensures booked && seatsAfter == [[0, 1], [0, 0]]
  {
    var grid := new SeatGrid([[0, 0], [0, 0]]);
    var t1 := new Train("T1", "101", grid, map[], ["a", "b", "c"]);
    var catalog := new TrainService([t1]);
    var tickets := new TicketList([]);
    var alice := new User("alice", "secret", "hash-of-secret", tickets, "U1");
    var service := new UserBookingService(alice, [alice]);

    ghost var free: seq<seq<int>> := [[0, 0], [0, 0]];
    assert Booked(free, 0, 1) == [[0, 1], [0, 0]] by {
      assert free[0][1 := 1] == [0, 1];
    }
    booked := service.BookTrainTicket("U1", "a", "c", "2026-10-18", t1, 0, 1, catalog, "K1");
    seatsAfter := t1.seats.rows;
  }

  /** A successful booking files exactly one ticket, with the given id and
      route, with the current user. */
  method BookingFilesTicket() returns (ticketsAfter: seq<Ticket>)
    ensures |ticketsAfter| == 1
    ensures ticketsAfter[0].ticketId == "K1" && ticketsAfter[0].source == "a" && ticketsAfter[0].destination == "c"
  {
    var grid := new SeatGrid([[0, 0], [0, 0]]);
    var t1 := new Train("T1", "101", grid, map[], ["a", "b", "c"]);
    var catalog := new TrainService([t1]);
    var tickets := new TicketList([]);
    var alice := new User("alice", "secret", "hash-of-secret", tickets, "U1");
    var service := new UserBookingService(alice, [alice]);

    var booked := service.BookTrainTicket("U1", "a", "c", "2026-10-18", t1, 0, 1, catalog, "K1");
    ticketsAfter := tickets.items;
  }

  /** Booking a seat that is already booked fails and changes nothing. */
  method RebookFails() returns (rebooked: bool, seatsAfter: seq<seq<int>>)
    ensures !rebooked && seatsAfter == [[0, 1], [0, 0]]
  {
    var grid := new SeatGrid([[0, 1], [0, 0]]);
    var t1 := new Train("T1", "101", grid, map[], ["a", "b", "c"]);
    var catalog := new TrainService([t1]);
    var tickets := new TicketList([]);
    var alice := new User("alice", "secret", "hash-of-secret", tickets, "U1");
    var service := new UserBookingService(alice, [alice]);

    rebooked := service.BookTrainTicket("U1", "a", "c", "2026-10-18", t1, 0, 1, catalog, "K2");
    seatsAfter := t1.seats.rows;
  }

  /** With nobody logged in, asking for a taken seat still fails cleanly:
      the seat check comes before any use of the current user. */
  method BookTakenSeatWithoutUser() returns (booked: bool, seatsAfter: seq<seq<int>>)
    ensures !booked && seatsAfter == [[0, 1], [0, 0]]
  {
    var grid := new SeatGrid([[0, 1], [0, 0]]);
    var t1 := new Train("T1", "101", grid, map[], ["a", "b", "c"]);
    var catalog := new TrainService([t1]);
    var service := new UserBookingService(null, []);

    booked := service.BookTrainTicket("U1", "a", "c", "2026-10-18", t1, 0, 1, catalog, "K3");
    seatsAfter := t1.seats.rows;
  }

  /** Cancelling a held ticket succeeds once, a second cancellation with the
      same id fails, and the seat the ticket was for stays booked. */
  method CancelTwice() returns (cancelled: bool, cancelledAgain: bool, seatAfterCancel: int)
    ensures cancelled && !cancelledAgain
    ensures seatAfterCancel == 1
  {
    var grid := new SeatGrid([[0, 1], [0, 0]]);
    var t1 := new Train("T1", "101", grid, map[], ["a", "b", "c"]);
    var tickets := new TicketList([Ticket("K1", "U1", "a", "c", "2026-10-18", t1)]);
    var alice := new User("alice", "secret", "hash-of-secret", tickets, "U1");
    var service := new UserBookingService(alice, [alice]);
    assert TicketIds(tickets.items) == ["K1"];

    cancelled := service.CancelTicket("K1");
    assert tickets.items == [];
    cancelledAgain := service.CancelTicket("K1");
    seatAfterCancel := t1.seats.rows[0][1];
  }
}

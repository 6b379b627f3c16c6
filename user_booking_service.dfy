/** The booking service (`UserBookingService`): the list of users, the
    current user, sign-up, login, seat booking and ticket cancellation.

    Loading the user list from storage is replaced by a constructor parameter
    and saving is a no-op. The password check is a parameter of type
    `(string, string) -> bool` standing for `checkPassword(raw, hashed)`, the
    fresh ticket id is a parameter of `BookTrainTicket`, and the catalog that
    booking writes the train back to is passed in. */
module Booking {
  import opened Lists
  import opened CaseFold
  import opened TrainEntity
  import opened UserEntity
  import opened TrainCatalog

  // ---------------------------------------------------------------------
  // Seat maps

  /** `isSeatValidAndAvailable`: the row and the column are in bounds and the
      seat is free. */
  predicate IsSeatValidAndAvailable(seats: seq<seq<int>>, row: int, seat: int)
  {
    0 <= row < |seats| && 0 <= seat < |seats[row]| && seats[row][seat] == 0
  }

  /** The seat map after marking (`row`, `seat`) as booked. */
  function Booked(seats: seq<seq<int>>, row: int, seat: int): (r: seq<seq<int>>)
    requires 0 <= row < |seats| && 0 <= seat < |seats[row]|
    ensures |r| == |seats|
    ensures forall i :: 0 <= i < |r| ==> |r[i]| == |seats[i]|
    ensures forall i, j :: 0 <= i < |r| && 0 <= j < |r[i]| ==>
              r[i][j] == if i == row && j == seat then 1 else seats[i][j]
  {
    seats[row := seats[row][seat := 1]]
  }

  /** A seat that was just booked cannot be booked again, and every other
      seat is exactly as available as it was. */
  lemma BookedSeatUnavailable(seats: seq<seq<int>>, row: int, seat: int)
    requires IsSeatValidAndAvailable(seats, row, seat)
    ensures !IsSeatValidAndAvailable(Booked(seats, row, seat), row, seat)
    ensures forall i, j :: (i, j) != (row, seat) ==>
              IsSeatValidAndAvailable(Booked(seats, row, seat), i, j) == IsSeatValidAndAvailable(seats, i, j)
  {
  }

  /** Seat maps whose cells are all 0 or 1. */
  predicate Binary(seats: seq<seq<int>>)
  {
    forall i, j :: 0 <= i < |seats| && 0 <= j < |seats[i]| ==> seats[i][j] == 0 || seats[i][j] == 1
  }

  lemma BookedKeepsBinary(seats: seq<seq<int>>, row: int, seat: int)
    requires 0 <= row < |seats| && 0 <= seat < |seats[row]|
    requires Binary(seats)
    ensures Binary(Booked(seats, row, seat))
  {
  }

  /** The number of free seats in one row. */
  function FreeInRow(cells: seq<int>): (n: nat)
    ensures n <= |cells|
  {
    if cells == [] then 0 else (if cells[0] == 0 then 1 else 0) + FreeInRow(cells[1..])
  }

  /** The number of free seats of a seat map. */
  function FreeSeats(seats: seq<seq<int>>): (n: nat)
  {
    if seats == [] then 0 else FreeInRow(seats[0]) + FreeSeats(seats[1..])
  }

  lemma {:induction false} FreeInRowMarked(cells: seq<int>, j: int)
    requires 0 <= j < |cells| && cells[j] == 0
    ensures FreeInRow(cells[j := 1]) == FreeInRow(cells) - 1
    decreases j
  {
    if j == 0 {
      assert cells[j := 1][1..] == cells[1..];
    } else {
      FreeInRowMarked(cells[1..], j - 1);
      assert cells[j := 1][1..] == cells[1..][j - 1 := 1];
    }
  }

  /** Booking a free seat takes exactly one seat out of the free ones. */
  lemma {:induction false} BookingTakesOneSeat(seats: seq<seq<int>>, row: int, seat: int)
    requires IsSeatValidAndAvailable(seats, row, seat)
    ensures FreeSeats(Booked(seats, row, seat)) == FreeSeats(seats) - 1
    decreases row
  {
    if row == 0 {
      FreeInRowMarked(seats[0], seat);
      assert Booked(seats, row, seat)[1..] == seats[1..];
    } else {
      BookingTakesOneSeat(seats[1..], row - 1, seat);
      assert Booked(seats, row, seat)[1..] == Booked(seats[1..], row - 1, seat);
    }
  }

  // ---------------------------------------------------------------------
  // Users and tickets

  /** The user ids of `users`, in order. */
  function UserIds(users: seq<User>): (ids: seq<string>)
    reads users`userId
    ensures |ids| == |users|
    ensures forall i :: 0 <= i < |users| ==> ids[i] == users[i].userId
  {
    if users == [] then [] else [users[0].userId] + UserIds(users[1..])
  }

  /** The login filter: the name matches exactly and the password checks
      against the stored hash. */
  predicate Authenticates(u: User, name: string, password: string, checkPassword: (string, string) -> bool)
    reads u`name, u`hashedPassword
  {
    u.name == name && checkPassword(password, u.hashedPassword)
  }

  /** Index of the first user that `Authenticates`, or -1. */
  function LoginIndex(users: seq<User>, name: string, password: string,
                      checkPassword: (string, string) -> bool): (r: int)
    reads users`name, users`hashedPassword
    ensures -1 <= r < |users|
    ensures r == -1 <==> forall j :: 0 <= j < |users| ==> !Authenticates(users[j], name, password, checkPassword)
    ensures 0 <= r ==> Authenticates(users[r], name, password, checkPassword)
    ensures 0 <= r ==> forall j :: 0 <= j < r ==> !Authenticates(users[j], name, password, checkPassword)
  {
    if users == [] then -1
    else if Authenticates(users[0], name, password, checkPassword) then 0
    else
      var k := LoginIndex(users[1..], name, password, checkPassword);
      if k == -1 then -1 else k + 1
  }

  /** Removing the first ticket with an id that occurs once leaves no ticket
      with that id, so a second cancellation with it finds nothing. */
  lemma CancelledIdGone(tickets: seq<Ticket>, ticketId: string)
    requires multiset(TicketIds(tickets))[ticketId] == 1
    ensures ticketId !in TicketIds(RemoveAt(tickets, IndexOf(TicketIds(tickets), ticketId)))
  {
    var ids := TicketIds(tickets);
    var i := IndexOf(ids, ticketId);
    assert TicketIds(RemoveAt(tickets, i)) == RemoveAt(ids, i);
    RemoveAtMultiset(ids, i);
  }

  class UserBookingService {
    var usersList: seq<User>
    var user: User?

    /** Both constructors of the source: `user` is null for the one without
        a current user; `users` is the list as loaded from storage. */
    constructor (user: User?, users: seq<User>)
      ensures this.user == user && usersList == users
    {
      this.user := user;
      usersList := users;
    }

    function GetCurrentUser(): (u: User?)
      reads this
      ensures u == user
    {
      user
    }

    /** Index of the first user whose id equals `id` ignoring case, or -1. */
    function UserIndex(id: string): (i: int)
      reads this`usersList, usersList`userId
      ensures -1 <= i < |usersList|
    {
      IndexOfIgnoreCase(UserIds(usersList), id)
    }

    /** `searchTrains`: the catalog's answer, unchanged. */
    function SearchTrains(catalog: TrainService, source: string, destination: string): (r: seq<Train>)
      reads catalog`trainList, catalog.trainList`stations
      ensures r == catalog.SearchTrains(source, destination)
      ensures forall i :: 0 <= i < |r| ==> r[i] in catalog.trainList && ValidTrain(r[i], source, destination)
    {
      catalog.SearchTrains(source, destination)
    }

    /** `findTrain`: the catalog's `trainExist` answer, unchanged. */
    function FindTrain(catalog: TrainService, trainNumber: string): (r: Train?)
      reads catalog`trainList, catalog.trainList`trainNumber
      ensures r == catalog.TrainExist(trainNumber)
      ensures r != null ==> r in catalog.trainList && r.trainNumber == trainNumber
    {
      catalog.TrainExist(trainNumber)
    }

    /** `signUp`: the user becomes current and is appended to the list. */
    method SignUp(u: User) returns (ok: bool)
      modifies this
      ensures ok
      ensures user == u
      ensures usersList == old(usersList) + [u]
    {
      user := u;
      usersList := usersList + [u];
      ok := true;
    }

    /** `login`: the first user with this name whose stored hash accepts the
        password becomes current; without one, nothing changes. */
    method Login(name: string, password: string, checkPassword: (string, string) -> bool) returns (ok: bool)
      modifies this`user
      ensures ok <==> exists j :: 0 <= j < |usersList| && Authenticates(usersList[j], name, password, checkPassword)
      ensures ok ==> user == usersList[LoginIndex(usersList, name, password, checkPassword)]
      ensures !ok ==> user == old(user)
    {
      var index := LoginIndex(usersList, name, password, checkPassword);
      if index != -1 {
        user := usersList[index];
        ok := true;
      } else {
        ok := false;
      }
    }

    /** `updateUser`: replace the first user with the same id ignoring case;
        without one, the list is left as it is. */
    method UpdateUser(u: User)
      modifies this`usersList
      ensures old(UserIndex(u.userId)) != -1 ==> usersList == old(usersList)[old(UserIndex(u.userId)) := u]
      ensures old(UserIndex(u.userId)) == -1 ==> usersList == old(usersList)
    {
      var index := UserIndex(u.userId);
      if index != -1 {
        usersList := usersList[index := u];
      }
    }

    /** `bookTrainTicket`: when the seat is in bounds and free, mark it booked
        in the train's own seat map, write the train back to the catalog,
        append the new ticket to the current user's own ticket list and write
        the user back to the user list. Otherwise nothing changes; that path
        never reads the current user, so it is open without one. */
    method BookTrainTicket(userId: string, source: string, destination: string, travelDate: string,
                           train: Train, row: int, seat: int, catalog: TrainService, ticketId: string)
      returns (ok: bool)
      requires user != null || !IsSeatValidAndAvailable(train.seats.rows, row, seat)
      modifies this`usersList, train.seats, catalog, if user != null then {user.ticketsBooked} else {}
      ensures user == old(user) && train.seats == old(train.seats)
      ensures user != null ==> user.ticketsBooked == old(user.ticketsBooked)
      ensures ok <==> 0 <= row < |old(train.seats.rows)| && 0 <= seat < |old(train.seats.rows)[row]|
                      && old(train.seats.rows)[row][seat] == 0
      ensures ok ==> train.seats.rows == Booked(old(train.seats.rows), row, seat)
      ensures ok ==> user != null && user.ticketsBooked.items ==
                       old(user.ticketsBooked.items) + [Ticket(ticketId, userId, source, destination, travelDate, train)]
      ensures ok ==> catalog.trainList == Upsert(old(catalog.trainList), old(catalog.IdIndex(train.trainId)), train)
      ensures ok && old(UserIndex(user.userId)) != -1 ==>
                usersList == old(usersList)[old(UserIndex(user.userId)) := user]
      ensures ok && old(UserIndex(user.userId)) == -1 ==> usersList == old(usersList)
      ensures !ok ==> train.seats.rows == old(train.seats.rows)
      ensures !ok && user != null ==> user.ticketsBooked.items == old(user.ticketsBooked.items)
      ensures !ok ==> catalog.trainList == old(catalog.trainList) && usersList == old(usersList)
    {
      if !IsSeatValidAndAvailable(train.GetSeats().rows, row, seat) {
        return false;
      }
      MarkSeatAndFileTicket(userId, source, destination, travelDate, train, row, seat, catalog, ticketId);
      ok := true;
    }

    /** The success path of `bookTrainTicket`, from marking the seat on. */
    method MarkSeatAndFileTicket(userId: string, source: string, destination: string, travelDate: string,
                                 train: Train, row: int, seat: int, catalog: TrainService, ticketId: string)
      requires user != null && IsSeatValidAndAvailable(train.seats.rows, row, seat)
      modifies this`usersList, train.seats, user.ticketsBooked, catalog
      ensures user == old(user) && user.ticketsBooked == old(user.ticketsBooked) && train.seats == old(train.seats)
      ensures train.seats.rows == Booked(old(train.seats.rows), row, seat)
      ensures user.ticketsBooked.items ==
                old(user.ticketsBooked.items) + [Ticket(ticketId, userId, source, destination, travelDate, train)]
      ensures catalog.trainList == Upsert(old(catalog.trainList), old(catalog.IdIndex(train.trainId)), train)
      ensures old(UserIndex(user.userId)) != -1 ==> usersList == old(usersList)[old(UserIndex(user.userId)) := user]
      ensures old(UserIndex(user.userId)) == -1 ==> usersList == old(usersList)
    {
      ghost var trainIds := TrainIds(catalog.trainList);
      ghost var userIds := UserIds(usersList);
      train.GetSeats().Set(row, seat, 1);
      assert TrainIds(catalog.trainList) == trainIds;
      catalog.UpdateTrain(train);
      var ticket := Ticket(ticketId, userId, source, destination, travelDate, train);
      user.GetTicketsBooked().Add(ticket);
      assert UserIds(usersList) == userIds;
      UpdateUser(user);
    }

    /** `cancelTicket`: remove the current user's first ticket with this id
        and write the user back; without one, nothing changes. No seat map is
        in the frame, so the seat stays booked. */
    method CancelTicket(ticketId: string) returns (ok: bool)
      requires user != null
      modifies this`usersList, user`ticketsBooked, user.ticketsBooked
      ensures user == old(user) && user.ticketsBooked == old(user.ticketsBooked)
      ensures ok <==> ticketId in TicketIds(old(user.ticketsBooked.items))
      ensures ok ==> user.ticketsBooked.items ==
                       RemoveAt(old(user.ticketsBooked.items), IndexOf(TicketIds(old(user.ticketsBooked.items)), ticketId))
      ensures ok && old(UserIndex(user.userId)) != -1 ==>
                usersList == old(usersList)[old(UserIndex(user.userId)) := user]
      ensures ok && old(UserIndex(user.userId)) == -1 ==> usersList == old(usersList)
      ensures !ok ==> user.ticketsBooked.items == old(user.ticketsBooked.items) && usersList == old(usersList)
    {
      var tickets := user.GetTicketsBooked();
      var index := IndexOf(TicketIds(tickets.items), ticketId);
      if index != -1 {
        ghost var ids := UserIds(usersList);
        tickets.Remove(index);
        user.SetTicketsBooked(tickets);
        assert UserIds(usersList) == ids;
        UpdateUser(user);
        ok := true;
      } else {
        ok := false;
      }
    }
  }
}

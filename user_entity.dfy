/** The `User` record, its ticket list, and the `Ticket` record it holds.

    `getTicketsBooked()` hands out the user's `List<Ticket>` by reference, so
    appending or removing through the getter changes the user itself. The
    list is therefore an object of its own, `TicketList`. */
module UserEntity {
  import Lists
  import opened TrainEntity

  /** A booked journey. The train is a reference to the train record. */
  datatype Ticket = Ticket(ticketId: string, userId: string, source: string,
                           destination: string, travelDate: string, train: Train)

  /** The ids of `tickets`, in order. */
  function TicketIds(tickets: seq<Ticket>): (ids: seq<string>)
    ensures |ids| == |tickets|
    ensures forall i :: 0 <= i < |tickets| ==> ids[i] == tickets[i].ticketId
  {
    seq(|tickets|, i requires 0 <= i < |tickets| => tickets[i].ticketId)
  }

  /** A mutable `List<Ticket>`. */
  class TicketList {
    var items: seq<Ticket>

    constructor (items: seq<Ticket>)
      ensures this.items == items
    {
      this.items := items;
    }

    /** `List.add(t)`. */
    method Add(t: Ticket)
      modifies this
      ensures items == old(items) + [t]
    {
      items := items + [t];
    }

    /** `List.remove(int i)`. */
    method Remove(i: int)
      requires 0 <= i < |items|
      modifies this
      ensures items == Lists.RemoveAt(old(items), i)
    {
      items := Lists.RemoveAt(items, i);
    }
  }

  class User {
    var name: string
    var password: string
    var hashedPassword: string
    var ticketsBooked: TicketList
    var userId: string

    constructor (name: string, password: string, hashedPassword: string,
                 ticketsBooked: TicketList, userId: string)
      ensures this.name == name && this.password == password
      ensures this.hashedPassword == hashedPassword
      ensures this.ticketsBooked == ticketsBooked && this.userId == userId
    {
      this.name := name;
      this.password := password;
      this.hashedPassword := hashedPassword;
      this.ticketsBooked := ticketsBooked;
      this.userId := userId;
    }

    function GetName(): (r: string)
      reads this
      ensures r == name
    {
      name
    }

    method SetName(name: string)
      modifies this`name
      ensures GetName() == name
    {
      this.name := name;
    }

    function GetPassword(): (r: string)
      reads this
      ensures r == password
    {
      password
    }

    method SetPassword(password: string)
      modifies this`password
      ensures GetPassword() == password
    {
      this.password := password;
    }

    function GetHashedPassword(): (r: string)
      reads this
      ensures r == hashedPassword
    {
      hashedPassword
    }

    method SetHashedPassword(hashedPassword: string)
      modifies this`hashedPassword
      ensures GetHashedPassword() == hashedPassword
    {
      this.hashedPassword := hashedPassword;
    }

    /** The stored ticket list itself, not a copy. */
    function GetTicketsBooked(): (l: TicketList)
      reads this
      ensures l == ticketsBooked
    {
      ticketsBooked
    }

    method SetTicketsBooked(ticketsBooked: TicketList)
      modifies this`ticketsBooked
      ensures GetTicketsBooked() == ticketsBooked
    {
      this.ticketsBooked := ticketsBooked;
    }

    function GetUserId(): (r: string)
      reads this
      ensures r == userId
    {
      userId
    }

    method SetUserId(userId: string)
      modifies this`userId
      ensures GetUserId() == userId
    {
      this.userId := userId;
    }
  }
}

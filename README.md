# Train-ticket booking: catalog search and seat booking

This project models the core of a small train-ticket booking app in Dafny.
The core is the train catalog (`TrainService`), the booking service
(`UserBookingService`) and the two mutable records they work on (`Train`,
`User`). The model proves properties of route search, add-or-update of
trains, seat booking, ticket cancellation, sign-up and login.

- `lists.dfy` (module `Lists`): first-index search (`indexOf`, `findFirst`),
  removal at an index, replace-or-append, and the subsequence relation.
- `case_fold.dfy` (module `CaseFold`): `toLowerCase` and `equalsIgnoreCase`,
  with ASCII-only folding, and the first index matching ignoring case.
- `train_entity.dfy` (module `TrainEntity`): the `Train` class, and
  `SeatGrid`, the seat map object that `getSeats()` hands out by reference.
- `user_entity.dfy` (module `UserEntity`): the `User` class, `TicketList`
  (the live `List<Ticket>` that `getTicketsBooked()` hands out), and the
  `Ticket` record.
- `train_service.dfy` (module `TrainCatalog`): route validity, search,
  lookup by number, and the mutually recursive `AddTrain`/`UpdateTrain`.
  Their termination is proved with a `decreases` measure. A call with a
  present id ends in one replace, and a call with an absent id ends in one
  append.
- `user_booking_service.dfy` (module `Booking`): seat maps, login, sign-up,
  booking, cancellation and the user-list update.
- `scenario.dfy` (module `Scenario`): client methods whose contracts
  state the outcome of an example. It uses train T1 with stations a, b, c and a free 2x2 seat map.

Aliasing is modelled as in the source. `Train.GetSeats()` and
`User.GetTicketsBooked()` return the stored object itself. `BookTrainTicket`
marks the seat through `train.GetSeats().Set(...)` and appends through
`user.GetTicketsBooked().Add(...)`. Its contract states that the train's own
seat map and the user's own ticket list changed. The other getters are plain
functions that return their field.

Collaborators become parameters:
- The password check `checkPassword(raw, hashed)` is a function parameter of `Login`.
- The random ticket id is a parameter of `BookTrainTicket`.
- The catalog that booking writes the train back to is a parameter of `BookTrainTicket`.
- The lists loaded from storage are constructor parameters.
- Saving is a no-op.

A storage failure ends each operation differently in the source:
- `signUp`: a failed user save is caught and returns `false`
  (UserBookingService.java:64-67). The user has already been added and made
  current at that point.
- `bookTrainTicket`: a failed user save (`updateUser`, :157, via
  `saveUserList`, :188) is an `IOException`. It is caught at :160 and the
  method returns `false` (:161) after the seat was marked and the ticket
  appended. A failed catalog load in `new TrainService()` (:152, loading at
  TrainService.java:27-29) is also an `IOException` caught at :160. It returns
  `false` with the seat already marked and no ticket appended. A failed train
  save is a `RuntimeException` (TrainService.java:92) that is not caught, so it
  escapes the booking.
- `cancelTicket`: a failed user save (:207) escapes as an `IOException`, since
  the method is declared `throws IOException` (:199). It returns `false` only
  when no ticket has the id.

## Model

| member | source | states |
|---|---|---|
| `Lists.IndexOf` | app/src/main/java/ticket/booking/services/TrainService.java:107-108 | `indexOf`: -1 exactly when the element is absent, otherwise the position of its first occurrence |
| `Lists.RemoveAt` | app/src/main/java/ticket/booking/services/UserBookingService.java:204-205 | `List.remove(i)`: length drops by one; elements before `i` stay put, elements after `i` shift down by one |
| `Lists.RemoveAtMultiset` | app/src/main/java/ticket/booking/services/UserBookingService.java:205 | removal takes exactly one occurrence of the removed element out of the bag of elements |
| `Lists.RemoveAtSubsequence` | app/src/main/java/ticket/booking/services/UserBookingService.java:205 | the remaining tickets keep their relative order (the result is a subsequence of the input) |
| `Lists.Upsert` | app/src/main/java/ticket/booking/services/TrainService.java:38-69 | replace at a found index (same length, the new element there, every other position untouched) or append (length + 1, new element last, old prefix kept) |
| `Lists.SubsequenceLength` | app/src/main/java/ticket/booking/services/TrainService.java:79-83 | a subsequence is never longer than the sequence it is taken from |
| `CaseFold.Lower` | app/src/main/java/ticket/booking/services/TrainService.java:107-108 | lower-casing one character: the result is never an upper-case letter; upper-case letters map to their lower-case partner; everything else is kept |
| `CaseFold.LowerStr` | app/src/main/java/ticket/booking/services/TrainService.java:107-108 | `toLowerCase` keeps the length and lower-cases every character at its position |
| `CaseFold.LowerStrIdempotent` | app/src/main/java/ticket/booking/services/TrainService.java:107-108 | lower-casing twice is the same as lower-casing once |
| `CaseFold.EqualsIgnoreCase` | app/src/main/java/ticket/booking/services/TrainService.java:58-60 | `equalsIgnoreCase` holds iff both strings have the same length and agree character by character after lower-casing (both directions) |
| `CaseFold.IndexOfIgnoreCase` | app/src/main/java/ticket/booking/services/TrainService.java:58-60 | the first index whose element `equalsIgnoreCase` the key, or -1 exactly when no element does |
| `TrainEntity.SeatGrid.Set` | app/src/main/java/ticket/booking/services/UserBookingService.java:151 | `seats.get(row).set(col, v)` on an in-bounds cell: only that cell changes, to `v` |
| `TrainEntity.Train.GetTrainId` | app/src/main/java/ticket/booking/entities/Train.java:30-32 | returns the stored train id |
| `TrainEntity.Train.GetTrainNumber` | app/src/main/java/ticket/booking/entities/Train.java:38-40 | returns the stored train number |
| `TrainEntity.Train.GetStationArrivalTimes` | app/src/main/java/ticket/booking/entities/Train.java:54-56 | returns the stored arrival-time map |
| `TrainEntity.Train.GetStations` | app/src/main/java/ticket/booking/entities/Train.java:62-64 | returns the stored station list, which route validity reads |
| `TrainEntity.Train.constructor` | app/src/main/java/ticket/booking/entities/Train.java:20-26 | each of the five arguments is stored in its field |
| `TrainEntity.Train.SetTrainId` | app/src/main/java/ticket/booking/entities/Train.java:34-36 | the getter then returns the value set; the frame admits no other field |
| `TrainEntity.Train.SetTrainNumber` | app/src/main/java/ticket/booking/entities/Train.java:42-44 | the getter then returns the value set; the frame admits no other field |
| `TrainEntity.Train.GetSeats` | app/src/main/java/ticket/booking/entities/Train.java:46-48 | returns the stored seat map object itself, not a copy, so updates through it change the train |
| `TrainEntity.Train.SetSeats` | app/src/main/java/ticket/booking/entities/Train.java:50-52 | `GetSeats` then returns the grid set; the frame admits no other field |
| `TrainEntity.Train.SetStationArrivalTimes` | app/src/main/java/ticket/booking/entities/Train.java:58-60 | the getter then returns the map set; the frame admits no other field |
| `TrainEntity.Train.SetStations` | app/src/main/java/ticket/booking/entities/Train.java:66-68 | the getter then returns the stations set; the frame admits no other field |
| `UserEntity.TicketList.Add` | app/src/main/java/ticket/booking/services/UserBookingService.java:156 | `List.add`: the ticket is appended to the end and the earlier tickets are unchanged |
| `UserEntity.TicketList.Remove` | app/src/main/java/ticket/booking/services/UserBookingService.java:205 | `List.remove(int)`: the list becomes `RemoveAt` of the old list |
| `UserEntity.User.constructor` | app/src/main/java/ticket/booking/entities/User.java:19-25 | each of the five arguments is stored in its field |
| `UserEntity.User.GetName` | app/src/main/java/ticket/booking/entities/User.java:29-31 | returns the stored name, which login compares exactly |
| `UserEntity.User.GetPassword` | app/src/main/java/ticket/booking/entities/User.java:37-39 | returns the stored raw password |
| `UserEntity.User.GetHashedPassword` | app/src/main/java/ticket/booking/entities/User.java:45-47 | returns the stored hash, which login checks the password against |
| `UserEntity.User.GetUserId` | app/src/main/java/ticket/booking/entities/User.java:61-63 | returns the stored user id, which the user-list update matches ignoring case |
| `UserEntity.User.SetName` | app/src/main/java/ticket/booking/entities/User.java:33-35 | the getter then returns the value set; the frame admits no other field |
| `UserEntity.User.SetPassword` | app/src/main/java/ticket/booking/entities/User.java:41-43 | the getter then returns the value set; the frame admits no other field |
| `UserEntity.User.SetHashedPassword` | app/src/main/java/ticket/booking/entities/User.java:49-51 | the getter then returns the value set; the frame admits no other field |
| `UserEntity.User.GetTicketsBooked` | app/src/main/java/ticket/booking/entities/User.java:53-55 | returns the live ticket list object itself, so appends and removals through it change the user |
| `UserEntity.User.SetTicketsBooked` | app/src/main/java/ticket/booking/entities/User.java:57-59 | `GetTicketsBooked` then returns the list set; the frame admits no other field |
| `UserEntity.User.SetUserId` | app/src/main/java/ticket/booking/entities/User.java:65-67 | the getter then returns the value set; the frame admits no other field |
| `TrainCatalog.ValidRouteFirstOccurrences` | app/src/main/java/ticket/booking/services/TrainService.java:104-111 | `validTrain` holds iff the first occurrence of the lower-cased source is strictly before the first occurrence of the lower-cased destination (both directions) |
| `TrainCatalog.ValidRoute` | app/src/main/java/ticket/booking/services/TrainService.java:104-111 | the body of `validTrain` over a station list; a matching route contains both lower-cased names, and source and destination differ ignoring case (the full iff is `ValidRouteFirstOccurrences`) |
| `TrainCatalog.ValidTrain` | app/src/main/java/ticket/booking/services/TrainService.java:104-111 | `validTrain` on a train's own station list; a matching train lists both lower-cased names, and source and destination differ ignoring case |
| `TrainCatalog.ValidRouteDistinctStations` | app/src/main/java/ticket/booking/services/TrainService.java:104-111 | on a route without repeated stations, a train matches iff both lower-cased names occur and the source comes first |
| `TrainCatalog.SameStationNeverMatches` | app/src/main/java/ticket/booking/services/TrainService.java:107-110 | source and destination that are equal ignoring case never match, because the comparison is strict |
| `TrainCatalog.RouteQueryIgnoresCase` | app/src/main/java/ticket/booking/services/TrainService.java:107-108 | the answer is the same for a query and its lower-cased form |
| `TrainCatalog.Matching` | app/src/main/java/ticket/booking/services/TrainService.java:79-83 | the filter keeps only valid trains of the input and every valid train, as a subsequence (catalog order), no longer than the input; the multiplicities are fixed by `MatchingCounts` |
| `TrainCatalog.MatchingCounts` | app/src/main/java/ticket/booking/services/TrainService.java:80-82 | each object occurs in the filter's result exactly as often as in the input when it is a valid train, and not at all otherwise; with the subsequence property this fixes the result completely |
| `TrainCatalog.TrainService.constructor` | app/src/main/java/ticket/booking/services/TrainService.java:27-30 | the catalog starts as the loaded list |
| `TrainCatalog.TrainService.IdIndex` | app/src/main/java/ticket/booking/services/TrainService.java:58-60 | the first-match index is -1 or a valid position of the catalog |
| `TrainCatalog.TrainService.AddTrain` | app/src/main/java/ticket/booking/services/TrainService.java:38-49 | terminates, and replaces the train at the first case-insensitive id match or appends it when there is none |
| `TrainCatalog.TrainService.UpdateTrain` | app/src/main/java/ticket/booking/services/TrainService.java:57-69 | terminates, and gives the same result as `AddTrain`: one replace at the first id match or, through `AddTrain`, one append |
| `TrainCatalog.TrainService.SearchTrains` | app/src/main/java/ticket/booking/services/TrainService.java:79-83 | only the catalog's trains that pass `validTrain`, and all of them, in catalog order, no more of them than the catalog holds; multiplicities in `SearchTrainsCounts` |
| `TrainCatalog.TrainService.SearchTrainsCounts` | app/src/main/java/ticket/booking/services/TrainService.java:79-83 | a train listed `k` times in the catalog is listed `k` times in the answer when it serves the route, and not at all otherwise |
| `TrainCatalog.TrainService.TrainExist` | app/src/main/java/ticket/booking/services/TrainService.java:119-125 | null iff no train has exactly this number; otherwise the first train in the catalog with this number; reads and never changes the catalog |
| `Booking.Booked` | app/src/main/java/ticket/booking/services/UserBookingService.java:151 | marking a seat keeps the grid's shape, sets that one cell to 1, and leaves every other cell as it was |
| `Booking.BookedSeatUnavailable` | app/src/main/java/ticket/booking/services/UserBookingService.java:168-173 | after a booking the same seat is no longer valid-and-available, so a second booking fails; every other seat is as available as before |
| `Booking.BookedKeepsBinary` | app/src/main/java/ticket/booking/services/UserBookingService.java:151 | a seat map with only 0 and 1 cells keeps that property after a booking |
| `Booking.BookingTakesOneSeat` | app/src/main/java/ticket/booking/services/UserBookingService.java:151 | a booking lowers the number of free seats by exactly one |
| `Booking.IsSeatValidAndAvailable` | app/src/main/java/ticket/booking/services/UserBookingService.java:168-173 | `isSeatValidAndAvailable`: row and column in bounds and the cell 0; its partners are `BookedSeatUnavailable` and `BookingTakesOneSeat` |
| `Booking.Authenticates` | app/src/main/java/ticket/booking/services/UserBookingService.java:79-80 | the login filter: the name is equal exactly and the password check accepts the stored hash; its partner is `LoginIndex` |
| `Booking.LoginIndex` | app/src/main/java/ticket/booking/services/UserBookingService.java:79-81 | the first user whose name equals the given name and whose stored hash accepts the password, or -1 iff there is none |
| `Booking.CancelledIdGone` | app/src/main/java/ticket/booking/services/UserBookingService.java:199-212 | when a ticket id occurs once, no ticket with that id is left after cancelling it, so a second cancellation finds nothing |
| `Booking.UserBookingService.constructor` | app/src/main/java/ticket/booking/services/UserBookingService.java:32-44 | the current user is the given one (null for the no-argument constructor) and the user list is the loaded one |
| `Booking.UserBookingService.GetCurrentUser` | app/src/main/java/ticket/booking/services/UserBookingService.java:49-51 | returns the current user, null when nobody is logged in |
| `Booking.UserBookingService.UserIndex` | app/src/main/java/ticket/booking/services/UserBookingService.java:182-184 | the first-match index by user id ignoring case is -1 or a valid position of the list |
| `Booking.UserBookingService.SearchTrains` | app/src/main/java/ticket/booking/services/UserBookingService.java:110-116 | returns the catalog's search answer unchanged: only valid trains of that catalog |
| `Booking.UserBookingService.FindTrain` | app/src/main/java/ticket/booking/services/UserBookingService.java:124-130 | returns the catalog's `trainExist` answer unchanged: a train of that catalog with that number, or null |
| `Booking.UserBookingService.SignUp` | app/src/main/java/ticket/booking/services/UserBookingService.java:60-69 | the user is appended (length + 1, earlier users unchanged) and becomes the current user |
| `Booking.UserBookingService.Login` | app/src/main/java/ticket/booking/services/UserBookingService.java:78-89 | succeeds iff some user has this name and accepts the password; on success the first such user is current; on failure the current user is unchanged; the user list never changes |
| `Booking.UserBookingService.UpdateUser` | app/src/main/java/ticket/booking/services/UserBookingService.java:181-190 | replaces the user at the first case-insensitive id match (length unchanged); with no match the list is untouched |
| `Booking.UserBookingService.BookTrainTicket` | app/src/main/java/ticket/booking/services/UserBookingService.java:144-163 | succeeds iff row and column are in bounds and the cell is 0; an unavailable seat fails even with no current user. On failure no seat, ticket, catalog or user list changes. On success: the train's own seat map has exactly that cell set to 1; the current user's own list gains exactly the new ticket at the end; the catalog replaces or appends the train; the user list is updated by id |
| `Booking.UserBookingService.MarkSeatAndFileTicket` | app/src/main/java/ticket/booking/services/UserBookingService.java:151-157 | the success path with a current user and a free seat: the train's own seat map becomes `Booked`, the train is upserted into the catalog by id, the user's own list gains exactly the new ticket, and the user list is updated by id |
| `Booking.UserBookingService.CancelTicket` | app/src/main/java/ticket/booking/services/UserBookingService.java:199-212 | succeeds iff a ticket with this id exists. On success the first such ticket is removed and the user list is updated by id. On failure nothing changes. No seat map is in its frame, so no seat is freed |
| `Scenario.RouteSearch` | app/src/main/java/ticket/booking/services/TrainService.java:79-83 | for an example catalog, a-to-c finds one train and c-to-a finds none |
| `Scenario.BookFreeSeat` | app/src/main/java/ticket/booking/services/UserBookingService.java:144-163 | booking seat (0, 1) of a free 2x2 map succeeds and the map becomes [[0,1],[0,0]] |
| `Scenario.BookingFilesTicket` | app/src/main/java/ticket/booking/services/UserBookingService.java:154-157 | the same booking files exactly one ticket with the current user, carrying the given id and route |
| `Scenario.RebookFails` | app/src/main/java/ticket/booking/services/UserBookingService.java:146-148 | booking an already booked seat fails and leaves the map as it was |
| `Scenario.BookTakenSeatWithoutUser` | app/src/main/java/ticket/booking/services/UserBookingService.java:144-148 | with nobody logged in, booking a taken seat returns false and leaves the map unchanged |
| `Scenario.CancelTwice` | app/src/main/java/ticket/booking/services/UserBookingService.java:199-212 | cancelling a held ticket succeeds, the same cancellation again fails, and the seat stays booked |

## Left out

- Loading and saving the JSON files (Jackson `ObjectMapper`, the file paths) is storage I/O. Constructors take the loaded list, and saving is a no-op.
- `Booking.UserBookingService.SignUp`: always returns true. The `IOException` path, where a failed save returns false after the user was already added, is not modelled.
- `Booking.UserBookingService.BookTrainTicket`: the storage-failure paths are not modelled. In the source, a failed catalog load returns false with the seat already marked and no ticket appended. A failed user save returns false with both the seat and the ticket already changed. A failed train save throws an unchecked exception.
- `Booking.UserBookingService.CancelTicket`: the `IOException` that a failed save lets escape is not modelled.
- `Booking.UserBookingService.BookTrainTicket`: the source loads a fresh catalog from storage (`new TrainService()`) to write the train back. The model passes the catalog in.
- `Booking.UserBookingService.SearchTrains` and `Booking.UserBookingService.FindTrain`: they delegate to a catalog passed in. The source builds a new one from storage, and its `RuntimeException` on load failure is not modelled.
- `Booking.UserBookingService.BookTrainTicket`: a free seat with no current user is excluded by its requires. The source crashes on a null dereference there (:156) after marking the seat and writing the train back. An unavailable seat with no current user is allowed and returns false, as in the source.
- BCrypt hashing and checking is a foreign crypto library. `checkPassword` is an arbitrary total function parameter of `Login`. `BCrypt.checkpw` (util/UserServiceUtil.java:27) throws on a malformed stored hash, and that exception escapes `login` (UserBookingService.java:80). This path is not modelled.
- `UUID.randomUUID()` is randomness. The fresh ticket id is a parameter of `BookTrainTicket`.
- `fetchBookings` and `User.printTickets` only print to the console.
- Locale rules of `toLowerCase` and `equalsIgnoreCase` are not modelled. Folding is ASCII-only.
- The no-argument `Train()` and `User()` constructors exist only for JSON mapping and would leave fields null. Fields here are never null.
- Null fields and null list elements, and the null dereferences they cause, are not modelled. `cancelTicket` dereferences the current user at once (UserBookingService.java:200), so `CancelTicket` requires one. `bookTrainTicket` with no current user returns false without touching the user when the seat is unavailable (:146-147), and `BookTrainTicket` allows that call. With a free seat it marks the seat (:151) and writes the train back (:152) before the null dereference at :156. That partial effect is not modelled, and `BookTrainTicket` requires a current user in that case.
- The rows of a seat map are not separate objects. Two trains sharing one inner row list is not modelled.
- `stationArrivalTimes` is stored and set but never read by any logic.
- `Ticket.java` is not part of this model. A ticket is a record of its six constructor arguments, and the train is a reference.
- The source never restricts seat cells to 0 and 1, and never checks that every station has an arrival time. The model does not impose either. `Booking.BookedKeepsBinary` proves only that a booking keeps a map that holds only 0 and 1 cells that way.

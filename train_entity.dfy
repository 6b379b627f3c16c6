/** The `Train` record and its seat map.

    A train's seat map is a `List<List<Integer>>` that `getSeats()` hands out
    by reference, so an update made through the getter changes the train
    itself. The map is therefore an object of its own, `SeatGrid`, and
    `Train.seats` holds a reference to it. */
module TrainEntity {

  /** A seat map: `rows[r][c]` is 0 for a free seat and 1 for a booked one. */
  class SeatGrid {
    var rows: seq<seq<int>>

    constructor (rows: seq<seq<int>>)
      ensures this.rows == rows
    {
      this.rows := rows;
    }

    /** `seats.get(row).set(col, v)`: exactly one cell takes the value `v`. */
    method Set(row: int, col: int, v: int)
      requires 0 <= row < |rows| && 0 <= col < |rows[row]|
      modifies this
      ensures rows == old(rows)[row := old(rows)[row][col := v]]
    {
      rows := rows[row := rows[row][col := v]];
    }
  }

  class Train {
    var trainId: string
    var trainNumber: string
    var seats: SeatGrid
    var stationArrivalTimes: map<string, string>
    var stations: seq<string>

    constructor (trainId: string, trainNumber: string, seats: SeatGrid,
                 stationArrivalTimes: map<string, string>, stations: seq<string>)
      ensures this.trainId == trainId && this.trainNumber == trainNumber
      ensures this.seats == seats && this.stationArrivalTimes == stationArrivalTimes
      ensures this.stations == stations
    {
      this.trainId := trainId;
      this.trainNumber := trainNumber;
      this.seats := seats;
      this.stationArrivalTimes := stationArrivalTimes;
      this.stations := stations;
    }

    function GetTrainId(): (r: string)
      reads this
      ensures r == trainId
    {
      trainId
    }

    method SetTrainId(trainId: string)
      modifies this`trainId
      ensures GetTrainId() == trainId
    {
      this.trainId := trainId;
    }

    function GetTrainNumber(): (r: string)
      reads this
      ensures r == trainNumber
    {
      trainNumber
    }

    method SetTrainNumber(trainNumber: string)
      modifies this`trainNumber
      ensures GetTrainNumber() == trainNumber
    {
      this.trainNumber := trainNumber;
    }

    /** The stored seat map itself, not a copy. */
    function GetSeats(): (g: SeatGrid)
      reads this
      ensures g == seats
    {
      seats
    }

    method SetSeats(seats: SeatGrid)
      modifies this`seats
      ensures GetSeats() == seats
    {
      this.seats := seats;
    }

    function GetStationArrivalTimes(): (r: map<string, string>)
      reads this
      ensures r == stationArrivalTimes
    {
      stationArrivalTimes
    }

    method SetStationArrivalTimes(stationArrivalTimes: map<string, string>)
      modifies this`stationArrivalTimes
      ensures GetStationArrivalTimes() == stationArrivalTimes
    {
      this.stationArrivalTimes := stationArrivalTimes;
    }

    function GetStations(): (r: seq<string>)
      reads this
      ensures r == stations
    {
      stations
    }

    method SetStations(stations: seq<string>)
      modifies this`stations
      ensures GetStations() == stations
    {
      this.stations := stations;
    }
  }
}

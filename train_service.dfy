/** The train catalog (`TrainService`): an ordered list of trains with
    add-or-update by case-insensitive id, lookup by train number and route
    search. Loading the list from storage is replaced by a constructor
    parameter and saving it is a no-op. */
module TrainCatalog {
  import opened Lists
  import opened CaseFold
  import opened TrainEntity

  /** The ids of `trains`, in order. */
  function TrainIds(trains: seq<Train>): (ids: seq<string>)
    reads trains`trainId
    ensures |ids| == |trains|
    ensures forall i :: 0 <= i < |trains| ==> ids[i] == trains[i].trainId
  {
    if trains == [] then [] else [trains[0].trainId] + TrainIds(trains[1..])
  }

  /** The train numbers of `trains`, in order. */
  function TrainNumbers(trains: seq<Train>): (numbers: seq<string>)
    reads trains`trainNumber
    ensures |numbers| == |trains|
    ensures forall i :: 0 <= i < |trains| ==> numbers[i] == trains[i].trainNumber
  {
    if trains == [] then [] else [trains[0].trainNumber] + TrainNumbers(trains[1..])
  }

  /** `validTrain` on a route: the queries are lower-cased, looked up with
      `indexOf`, and the source must come strictly before the destination. */
  predicate ValidRoute(stations: seq<string>, source: string, destination: string)
    ensures ValidRoute(stations, source, destination) ==>
              LowerStr(source) in stations && LowerStr(destination) in stations
              && !EqualsIgnoreCase(source, destination)
  {
    var sourceIndex := IndexOf(stations, LowerStr(source));
    var destinationIndex := IndexOf(stations, LowerStr(destination));
    sourceIndex != -1 && destinationIndex != -1 && sourceIndex < destinationIndex
  }

  /** `i` is the first position of `x` in `stations`. */
  predicate FirstAt(stations: seq<string>, i: int, x: string)
  {
    0 <= i < |stations| && stations[i] == x && forall k :: 0 <= k < i ==> stations[k] != x
  }

  /** A route matches exactly when the first occurrence of the lower-cased
      source comes strictly before the first occurrence of the lower-cased
      destination. */
  lemma ValidRouteFirstOccurrences(stations: seq<string>, source: string, destination: string)
    ensures ValidRoute(stations, source, destination) ==>
      exists i, j :: i < j && FirstAt(stations, i, LowerStr(source)) && FirstAt(stations, j, LowerStr(destination))
    ensures (exists i, j :: i < j && FirstAt(stations, i, LowerStr(source)) && FirstAt(stations, j, LowerStr(destination))) ==>
      ValidRoute(stations, source, destination)
  {
    var s, d := LowerStr(source), LowerStr(destination);
    var si, di := IndexOf(stations, s), IndexOf(stations, d);
    if ValidRoute(stations, source, destination) {
      assert FirstAt(stations, si, s) && FirstAt(stations, di, d);
    }
    if exists i, j :: i < j && FirstAt(stations, i, s) && FirstAt(stations, j, d) {
      var i, j :| i < j && FirstAt(stations, i, s) && FirstAt(stations, j, d);
      assert si == i by {
        assert stations[i] == s;
      }
      assert di == j by {
        assert stations[j] == d;
      }
    }
  }

  /** On a route that lists every station once, a train matches exactly
      when both stations occur and the source is earlier. */
  lemma ValidRouteDistinctStations(stations: seq<string>, source: string, destination: string)
    requires forall i, j :: 0 <= i < j < |stations| ==> stations[i] != stations[j]
    ensures ValidRoute(stations, source, destination) <==>
      exists i, j :: 0 <= i < j < |stations| && stations[i] == LowerStr(source) && stations[j] == LowerStr(destination)
  {
    var s, d := LowerStr(source), LowerStr(destination);
    if exists i, j :: 0 <= i < j < |stations| && stations[i] == s && stations[j] == d {
      var i, j :| 0 <= i < j < |stations| && stations[i] == s && stations[j] == d;
      assert IndexOf(stations, s) == i;
      assert IndexOf(stations, d) == j;
    }
  }

  /** The same lower-cased station as source and destination never matches. */
  lemma SameStationNeverMatches(stations: seq<string>, source: string, destination: string)
    requires EqualsIgnoreCase(source, destination)
    ensures !ValidRoute(stations, source, destination)
  {
  }

  /** The query's case does not matter: only its lower-cased form is used. */
  lemma {:induction false} RouteQueryIgnoresCase(stations: seq<string>, source: string, destination: string)
    ensures ValidRoute(stations, source, destination) == ValidRoute(stations, LowerStr(source), LowerStr(destination))
  {
    LowerStrIdempotent(source);
    LowerStrIdempotent(destination);
  }

  /** `validTrain`: the train's own station list serves the route. */
  predicate ValidTrain(train: Train, source: string, destination: string)
    reads train`stations
    ensures ValidTrain(train, source, destination) ==>
              LowerStr(source) in train.stations && LowerStr(destination) in train.stations
              && !EqualsIgnoreCase(source, destination)
  {
    ValidRoute(train.stations, source, destination)
  }

  /** The trains of `trains` that serve the route, in their order. */
  function Matching(trains: seq<Train>, source: string, destination: string): (r: seq<Train>)
    reads trains`stations
    ensures forall i :: 0 <= i < |r| ==> r[i] in trains && ValidTrain(r[i], source, destination)
    ensures forall i :: 0 <= i < |trains| && ValidTrain(trains[i], source, destination) ==> trains[i] in r
    ensures IsSubsequence(r, trains)
    ensures |r| <= |trains|
  {
    if trains == [] then []
    else
      var rest := Matching(trains[1..], source, destination);
      if ValidTrain(trains[0], source, destination) then [trains[0]] + rest else rest
  }

  /** The filter keeps every copy of a matching train and no copy of any
      other object: with `IsSubsequence`, this fixes the result entirely. */
  lemma {:induction false} MatchingCounts(trains: seq<Train>, source: string, destination: string)
    decreases |trains|
    ensures forall t ::
              multiset(Matching(trains, source, destination))[t] ==
              if t in trains && ValidTrain(t, source, destination) then multiset(trains)[t] else 0
  {
    if trains != [] {
      var rest := trains[1..];
      MatchingCounts(rest, source, destination);
      assert trains == [trains[0]] + rest;
      forall t | t !in rest
        ensures multiset(Matching(rest, source, destination))[t] == 0 && multiset(rest)[t] == 0
      {
      }
    }
  }

  class TrainService {
    var trainList: seq<Train>

    /** The catalog as loaded from storage. */
    constructor (trains: seq<Train>)
      ensures trainList == trains
    {
      trainList := trains;
    }

    /** Index of the first train whose id equals `id` ignoring case, or -1. */
    function IdIndex(id: string): (i: int)
      reads this`trainList, trainList`trainId
      ensures -1 <= i < |trainList|
    {
      IndexOfIgnoreCase(TrainIds(trainList), id)
    }

    /** `addTrain`: update in place when the id is present, append otherwise.
        When the id is present it delegates to `UpdateTrain`, which then finds
        the id and does not call back. */
    method AddTrain(train: Train)
      modifies this
      decreases if IdIndex(train.trainId) != -1 then 1 else 0
      ensures trainList == Upsert(old(trainList), old(IdIndex(train.trainId)), train)
    {
      if IdIndex(train.trainId) != -1 {
        UpdateTrain(train);
      } else {
        trainList := trainList + [train];
      }
    }

    /** `updateTrain`: replace the first train with the same id ignoring case,
        or, when there is none, delegate to `AddTrain`, which then appends. */
    method UpdateTrain(train: Train)
      modifies this
      decreases if IdIndex(train.trainId) != -1 then 0 else 1
      ensures trainList == Upsert(old(trainList), old(IdIndex(train.trainId)), train)
    {
      var index := IdIndex(train.trainId);
      if index != -1 {
        trainList := trainList[index := train];
      } else {
        AddTrain(train);
      }
    }

    /** `searchTrains`: exactly the trains whose route runs from `source` to
        `destination`, in catalog order. */
    function SearchTrains(source: string, destination: string): (r: seq<Train>)
      reads this`trainList, trainList`stations
      ensures forall i :: 0 <= i < |r| ==> r[i] in trainList && ValidTrain(r[i], source, destination)
      ensures forall i :: 0 <= i < |trainList| && ValidTrain(trainList[i], source, destination) ==> trainList[i] in r
      ensures IsSubsequence(r, trainList)
      ensures |r| <= |trainList|
    {
      Matching(trainList, source, destination)
    }

    /** A train listed `k` times in the catalog is listed `k` times in the
        answer when it serves the route, and not at all otherwise. */
    lemma SearchTrainsCounts(source: string, destination: string)
      ensures forall t ::
                multiset(SearchTrains(source, destination))[t] ==
                if t in trainList && ValidTrain(t, source, destination) then multiset(trainList)[t] else 0
    {
      MatchingCounts(trainList, source, destination);
    }

    /** `trainExist`: the first train whose number is exactly `trainNumber`,
        or null. */
    function TrainExist(trainNumber: string): (r: Train?)
      reads this`trainList, trainList`trainNumber
      ensures r == null <==> forall i :: 0 <= i < |trainList| ==> trainList[i].trainNumber != trainNumber
      ensures r != null ==> exists i :: 0 <= i < |trainList| && trainList[i] == r && r.trainNumber == trainNumber &&
                              forall j :: 0 <= j < i ==> trainList[j].trainNumber != trainNumber
    {
      var i := IndexOf(TrainNumbers(trainList), trainNumber);
      if i == -1 then null else trainList[i]
    }
  }
}

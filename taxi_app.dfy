/**
 * The in-memory dispatch engine: three id-keyed tables (riders, drivers,
 * rides) and the three counters that hand out their ids, changed in place by
 * registration, ride requests and ride completion.
 */
module Taxi {
  import opened Records
  import opened Fare
  import opened Dispatch

  class TaxiApp {
    var riders: map<int, Rider>
    var drivers: map<int, Driver>
    var rides: map<int, Ride>
    /** The id the next registered rider, driver and ride will get. */
    var nextRiderId: int
    var nextDriverId: int
    var nextRideId: int

    ghost predicate Valid()
      reads this
    {
      Consistent(riders, drivers, rides, nextRiderId, nextDriverId, nextRideId)
    }

    /** An engine with no riders, drivers or rides; every counter starts at 1. */
    constructor ()
      ensures Valid()
      ensures riders == map[] && drivers == map[] && rides == map[]
      ensures nextRiderId == 1 && nextDriverId == 1 && nextRideId == 1
    {
      riders, drivers, rides := map[], map[], map[];
      nextRiderId, nextDriverId, nextRideId := 1, 1, 1;
    }

    /** Stores a rider under the next rider id and advances that counter; nothing else changes. */
    method RegisterRider(name: string) returns (rider: Rider)
      requires Valid()
      modifies this`riders, this`nextRiderId
      ensures Valid()
      ensures rider == Rider(old(nextRiderId), name)
      ensures rider.id !in old(riders)
      ensures riders == old(riders)[rider.id := rider]
      ensures nextRiderId == old(nextRiderId) + 1
    {
      rider := Rider(nextRiderId, name);
      riders := riders[nextRiderId := rider];
      nextRiderId := nextRiderId + 1;
    }

    /** Stores an available driver at (x, y) under the next driver id and advances that counter. */
    method RegisterDriver(name: string, x: int, y: int) returns (driver: Driver)
      requires Valid()
      modifies this`drivers, this`nextDriverId
      ensures Valid()
      ensures driver == Driver(old(nextDriverId), name, x, y, true)
      ensures driver.id !in old(drivers)
      ensures drivers == old(drivers)[driver.id := driver]
      ensures nextDriverId == old(nextDriverId) + 1
    {
      driver := Driver(nextDriverId, name, x, y, true);
      AddDriverKeepsBooking(drivers, rides, driver);
      drivers := drivers[nextDriverId := driver];
      nextDriverId := nextDriverId + 1;
    }

    /**
     * Scans the drivers in id order (their registration order) and keeps the
     * first available one seen at the smallest distance from (x, y).
     */
    method FindClosestDriver(x: int, y: int) returns (r: Option<int>)
      requires Valid()
      ensures r.None? <==> NoneAvailable(drivers)
      ensures r.Some? ==> IsClosest(drivers, x, y, r.value)
    {
      r := None;
      var best := 0;
      var i := 1;
      while i < nextDriverId
        invariant 1 <= i <= nextDriverId
        invariant r.None? ==> forall d :: d in drivers && d < i ==> !drivers[d].available
        invariant r.Some? ==>
          r.value in drivers && r.value < i && drivers[r.value].available
          && best == DistanceTo(drivers[r.value], x, y)
          && forall d :: d in drivers && d < i && drivers[d].available ==>
               best <= DistanceTo(drivers[d], x, y)
               && (d < r.value ==> best < DistanceTo(drivers[d], x, y))
      {
        var driver := drivers[i];
        if driver.available {
          var dist := DistanceTo(driver, x, y);
          if r.None? || dist < best {
            r, best := Some(i), dist;
          }
        }
        i := i + 1;
      }
    }

    /**
     * Books the closest available driver for a trip from (startX, startY) to
     * (destX, destY). Fails, changing nothing, when the rider is unknown or
     * no driver is available.
     */
    method RequestRide(riderId: int, startX: int, startY: int, destX: int, destY: int)
      returns (r: Result<Ride, RequestError>)
      requires Valid()
      modifies this`drivers, this`rides, this`nextRideId
      ensures Valid()
      ensures riderId !in old(riders) ==> r == Failure(RiderNotFound)
      ensures riderId in old(riders) && NoneAvailable(old(drivers)) ==> r == Failure(NoDriverAvailable)
      ensures r.Success? <==> riderId in old(riders) && !NoneAvailable(old(drivers))
      ensures r.Failure? ==> drivers == old(drivers) && rides == old(rides) && nextRideId == old(nextRideId)
      ensures r.Success? ==>
        var ride := r.value;
        IsClosest(old(drivers), startX, startY, ride.driverId)
        && ride == Ride(old(nextRideId), riderId, ride.driverId, startX, startY, destX, destY,
                        FareCents(SquaredDistance(startX, startY, destX, destY)), false)
        && ride.id !in old(rides)
        && drivers == old(drivers)[ride.driverId := old(drivers)[ride.driverId].(available := false)]
        && rides == old(rides)[ride.id := ride]
        && nextRideId == old(nextRideId) + 1
    {
      if riderId !in riders {
        return Failure(RiderNotFound);
      }
      var found := FindClosestDriver(startX, startY);
      if found.None? {
        return Failure(NoDriverAvailable);
      }
      var d := found.value;
      var fare := FareCents(SquaredDistance(startX, startY, destX, destY));
      var ride := Ride(nextRideId, riderId, d, startX, startY, destX, destY, fare, false);
      AssignKeepsBooking(drivers, rides, ride);
      drivers := drivers[d := drivers[d].(available := false)];
      rides := rides[nextRideId := ride];
      nextRideId := nextRideId + 1;
      r := Success(ride);
    }

    /**
     * Completes an active ride: marks it completed, frees its driver and moves
     * the driver to the destination. Fails, changing nothing, on an unknown
     * or already completed ride.
     */
    method CompleteRide(rideId: int) returns (r: Outcome<CompleteError>)
      requires Valid()
      modifies this`drivers, this`rides
      ensures Valid()
      ensures rideId !in old(rides) ==> r == Fail(RideNotFound)
      ensures rideId in old(rides) && old(rides)[rideId].completed ==> r == Fail(RideAlreadyCompleted)
      ensures r.Pass? <==> rideId in old(rides) && !old(rides)[rideId].completed
      ensures r.Fail? ==> drivers == old(drivers) && rides == old(rides)
      ensures r.Pass? ==>
        var ride := old(rides)[rideId];
        ride.driverId in old(drivers)
        && rides == old(rides)[rideId := ride.(completed := true)]
        && drivers == old(drivers)[ride.driverId :=
                        old(drivers)[ride.driverId].(available := true, x := ride.destX, y := ride.destY)]
    {
      if rideId !in rides {
        return Fail(RideNotFound);
      }
      var ride := rides[rideId];
      if ride.completed {
        return Fail(RideAlreadyCompleted);
      }
      CompleteKeepsBooking(drivers, rides, rideId, ride.destX, ride.destY);
      rides := rides[rideId := ride.(completed := true)];
      var d := ride.driverId;
      drivers := drivers[d := drivers[d].(available := true, x := ride.destX, y := ride.destY)];
      r := Pass;
    }

    /**
     * One summary per ride, in ride-id order, labelled "completed" or
     * "active", with the names of its rider and driver.
     */
    method ListRides() returns (summary: seq<RideSummary>)
      requires Valid()
      ensures |summary| == nextRideId - 1
      ensures forall k :: 0 <= k < |summary| ==>
        var ride := rides[k + 1];
        summary[k].id == k + 1
        && summary[k].status == (if ride.completed then "completed" else "active")
        && summary[k].riderName == riders[ride.riderId].name
        && summary[k].driverName == drivers[ride.driverId].name
    {
      summary := [];
      var i := 1;
      while i < nextRideId
        invariant 1 <= i <= nextRideId
        invariant |summary| == i - 1
        invariant forall k :: 0 <= k < |summary| ==>
          var ride := rides[k + 1];
          summary[k].id == k + 1
          && summary[k].status == (if ride.completed then "completed" else "active")
          && summary[k].riderName == riders[ride.riderId].name
          && summary[k].driverName == drivers[ride.driverId].name
      {
        var ride := rides[i];
        var status := if ride.completed then "completed" else "active";
        summary := summary + [RideSummary(i, status, riders[ride.riderId].name, drivers[ride.driverId].name)];
        i := i + 1;
      }
    }
  }
}

/**
 * What the dispatch engine's three tables must satisfy, what "the nearest
 * available driver" means, and the proofs that each state change keeps the
 * booking invariant.
 */
module Dispatch {
  import opened Records
  import opened Fare

  /** The keys are exactly the ids 1 .. next - 1: ids are handed out from 1, one at a time, never reused. */
  ghost predicate DenseFrom1(keys: set<int>, next: int)
  {
    1 <= next && forall i :: i in keys <==> 1 <= i < next
  }

  /** Ride `id` exists, is not completed and is driven by driver `d`. */
  ghost predicate IsActiveRideOf(rides: map<int, Ride>, id: int, d: int)
  {
    id in rides && !rides[id].completed && rides[id].driverId == d
  }

  /** The ids of the active rides of driver `d`. */
  ghost function ActiveRides(rides: map<int, Ride>, d: int): (ids: set<int>)
  {
    set id | id in rides.Keys && IsActiveRideOf(rides, id, d)
  }

  /**
   * No driver is double-booked: an unavailable driver has an active ride, the
   * driver of an active ride is a registered, unavailable driver, and no two
   * active rides share a driver.
   */
  ghost predicate NoDoubleBooking(drivers: map<int, Driver>, rides: map<int, Ride>)
  {
    (forall d :: d in drivers && !drivers[d].available ==> exists id :: IsActiveRideOf(rides, id, d))
    && (forall id :: id in rides && !rides[id].completed ==>
          rides[id].driverId in drivers && !drivers[rides[id].driverId].available)
    && (forall i, j ::
          i in rides && j in rides && !rides[i].completed && !rides[j].completed
          && rides[i].driverId == rides[j].driverId
          ==> i == j)
  }

  /** The whole-engine invariant over the tables and the three id counters. */
  ghost predicate Consistent(
    riders: map<int, Rider>, drivers: map<int, Driver>, rides: map<int, Ride>,
    nextRider: int, nextDriver: int, nextRide: int)
  {
    DenseFrom1(riders.Keys, nextRider)
    && DenseFrom1(drivers.Keys, nextDriver)
    && DenseFrom1(rides.Keys, nextRide)
    && (forall i :: i in riders ==> riders[i].id == i)
    && (forall i :: i in drivers ==> drivers[i].id == i)
    && (forall i :: i in rides ==> rides[i].id == i)
    && (forall i :: i in rides ==> rides[i].riderId in riders && rides[i].driverId in drivers)
    && NoDoubleBooking(drivers, rides)
  }

  /** Squared distance from a driver's position to (x, y). */
  function DistanceTo(driver: Driver, x: int, y: int): (d: nat)
  {
    SquaredDistance(driver.x, driver.y, x, y)
  }

  ghost predicate NoneAvailable(drivers: map<int, Driver>)
  {
    forall d :: d in drivers ==> !drivers[d].available
  }

  /**
   * Driver `c` is the one the scan picks for a request at (x, y): it is
   * available, no available driver is nearer, and every available driver
   * with a lower id (met earlier in the scan) is strictly farther.
   */
  ghost predicate IsClosest(drivers: map<int, Driver>, x: int, y: int, c: int)
  {
    c in drivers && drivers[c].available
    && forall d :: d in drivers && drivers[d].available ==>
         DistanceTo(drivers[c], x, y) <= DistanceTo(drivers[d], x, y)
         && (d < c ==> DistanceTo(drivers[c], x, y) < DistanceTo(drivers[d], x, y))
  }

  /** The selection rule leaves no choice: at most one driver is the closest. */
  lemma ClosestIsUnique(drivers: map<int, Driver>, x: int, y: int, a: int, b: int)
    requires IsClosest(drivers, x, y, a) && IsClosest(drivers, x, y, b)
    ensures a == b
  {
  }

  /** While a ride is active, its driver is never the one a request picks. */
  lemma BookedDriverIsNotClosest(
    drivers: map<int, Driver>, rides: map<int, Ride>, id: int, x: int, y: int, c: int)
    requires NoDoubleBooking(drivers, rides)
    requires id in rides && !rides[id].completed
    requires IsClosest(drivers, x, y, c)
    ensures c != rides[id].driverId
  {
  }

  /** Unavailable exactly when the driver has exactly one active ride; available exactly when it has none. */
  lemma ExactlyOneActiveRide(drivers: map<int, Driver>, rides: map<int, Ride>, d: int)
    requires NoDoubleBooking(drivers, rides)
    requires d in drivers
    ensures drivers[d].available <==> ActiveRides(rides, d) == {}
    ensures !drivers[d].available <==> |ActiveRides(rides, d)| == 1
  {
    if drivers[d].available {
      assert ActiveRides(rides, d) == {};
    } else {
      var w :| IsActiveRideOf(rides, w, d);
      assert ActiveRides(rides, d) == {w};
    }
  }

  /** A new, available driver that no ride refers to cannot break the invariant. */
  lemma AddDriverKeepsBooking(drivers: map<int, Driver>, rides: map<int, Ride>, driver: Driver)
    requires NoDoubleBooking(drivers, rides)
    requires driver.id !in drivers && driver.available
    ensures NoDoubleBooking(drivers[driver.id := driver], rides)
  {
  }

  /** Assigning an available driver to a new, active ride keeps the invariant. */
  lemma AssignKeepsBooking(drivers: map<int, Driver>, rides: map<int, Ride>, ride: Ride)
    requires NoDoubleBooking(drivers, rides)
    requires ride.driverId in drivers && drivers[ride.driverId].available
    requires ride.id !in rides && !ride.completed
    ensures NoDoubleBooking(
              drivers[ride.driverId := drivers[ride.driverId].(available := false)],
              rides[ride.id := ride])
  {
    var d := ride.driverId;
    var drivers', rides' := drivers[d := drivers[d].(available := false)], rides[ride.id := ride];
    forall e | e in drivers' && !drivers'[e].available
      ensures exists id :: IsActiveRideOf(rides', id, e)
    {
      if e == d {
        assert IsActiveRideOf(rides', ride.id, e);
      } else {
        var w :| IsActiveRideOf(rides, w, e);
        assert IsActiveRideOf(rides', w, e);
      }
    }
  }

  /** Completing an active ride and freeing (and moving) its driver keeps the invariant. */
  lemma CompleteKeepsBooking(drivers: map<int, Driver>, rides: map<int, Ride>, id: int, x: int, y: int)
    requires NoDoubleBooking(drivers, rides)
    requires id in rides && !rides[id].completed
    ensures rides[id].driverId in drivers
    ensures NoDoubleBooking(
              drivers[rides[id].driverId := drivers[rides[id].driverId].(available := true, x := x, y := y)],
              rides[id := rides[id].(completed := true)])
  {
    var d := rides[id].driverId;
    var drivers' := drivers[d := drivers[d].(available := true, x := x, y := y)];
    var rides' := rides[id := rides[id].(completed := true)];
    forall e | e in drivers' && !drivers'[e].available
      ensures exists j :: IsActiveRideOf(rides', j, e)
    {
      var w :| IsActiveRideOf(rides, w, e);
      assert IsActiveRideOf(rides', w, e);
    }
  }
}

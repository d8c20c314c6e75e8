/**
 * Client code that uses the engine only through its contracts. Each method
 * walks through one expected behaviour of the dispatcher and asserts the
 * outcome, which the contracts of TaxiApp must be strong enough to establish.
 */
module Scenarios {
  import opened Records
  import opened Fare
  import opened Dispatch
  import opened Taxi

  /** Drivers at (0, 0) and (10, 10); a request from (1, 1) gets the one at (0, 0). */
  method NearestDriverIsChosen()
  {
    var app := new TaxiApp();
    var rider := app.RegisterRider("ann");
    var near := app.RegisterDriver("bo", 0, 0);
    var far := app.RegisterDriver("cy", 10, 10);
    ghost var before := app.drivers;
    assert before == map[1 := near, 2 := far];
    var r := app.RequestRide(rider.id, 1, 1, 5, 5);
    assert r.Success?;
    assert DistanceTo(near, 1, 1) == 2 && DistanceTo(far, 1, 1) == 162;
    assert IsClosest(before, 1, 1, near.id);
    ClosestIsUnique(before, 1, 1, r.value.driverId, near.id);
    assert r.value.driverId == near.id;
  }

  /** Two drivers at the same distance: the one registered first is chosen. */
  method TieGoesToFirstRegistered()
  {
    var app := new TaxiApp();
    var rider := app.RegisterRider("ann");
    var first := app.RegisterDriver("bo", 0, 0);
    var second := app.RegisterDriver("cy", 2, 0);
    ghost var before := app.drivers;
    assert before == map[1 := first, 2 := second];
    assert IsClosest(before, 1, 0, first.id);
    var r := app.RequestRide(rider.id, 1, 0, 1, 5);
    assert r.Success?;
    ClosestIsUnique(before, 1, 0, r.value.driverId, first.id);
    assert r.value.driverId == first.id;
  }

  /** A booked driver is not chosen again until its ride is completed. */
  method BookedDriverIsExclusive()
  {
    var app := new TaxiApp();
    var rider := app.RegisterRider("ann");
    var driver := app.RegisterDriver("bo", 0, 0);
    var r1 := app.RequestRide(rider.id, 0, 0, 3, 4);
    assert r1.Success? && r1.value.driverId == driver.id;
    var r2 := app.RequestRide(rider.id, 0, 0, 3, 4);
    assert r2 == Failure(NoDriverAvailable);
    var done := app.CompleteRide(r1.value.id);
    assert done == Pass;
    assert app.drivers[driver.id].available;
    assert app.drivers[driver.id].x == 3 && app.drivers[driver.id].y == 4;
    var r3 := app.RequestRide(rider.id, 0, 0, 3, 4);
    assert r3.Success? && r3.value.driverId == driver.id && r3.value.id == 2;
  }

  /** A trip from (0, 0) to (1, 0) costs 250 + 1 * 100, that is 350.00. */
  method FareOfUnitTrip()
  {
    var app := new TaxiApp();
    var rider := app.RegisterRider("ann");
    var driver := app.RegisterDriver("bo", 0, 0);
    FareOfWholeDistance(1);
    assert FareCents(SquaredDistance(0, 0, 1, 0)) == 35000;
    var r := app.RequestRide(rider.id, 0, 0, 1, 0);
    assert r.Success? && r.value.fareCents == 35000;
  }

  /** Completing a ride twice: the second call reports it and changes nothing. */
  method CompleteTwice()
  {
    var app := new TaxiApp();
    var rider := app.RegisterRider("ann");
    var driver := app.RegisterDriver("bo", 0, 0);
    var r := app.RequestRide(rider.id, 0, 0, 1, 1);
    assert r.Success?;
    var first := app.CompleteRide(r.value.id);
    assert first == Pass;
    var ridesBefore, driversBefore := app.rides, app.drivers;
    var second := app.CompleteRide(r.value.id);
    assert second == Fail(RideAlreadyCompleted);
    assert app.rides == ridesBefore && app.drivers == driversBefore;
  }

  /** Unknown rider and ride ids are reported and change nothing. */
  method UnknownIds()
  {
    var app := new TaxiApp();
    var driver := app.RegisterDriver("bo", 0, 0);
    var r := app.RequestRide(7, 0, 0, 1, 1);
    assert r == Failure(RiderNotFound);
    assert app.drivers[driver.id].available && app.rides == map[];
    var c := app.CompleteRide(1);
    assert c == Fail(RideNotFound);
  }

  /** The listing shows rides in id order with their status labels. */
  method ListingShowsStatus()
  {
    var app := new TaxiApp();
    var rider := app.RegisterRider("ann");
    var driver := app.RegisterDriver("bo", 0, 0);
    var r1 := app.RequestRide(rider.id, 0, 0, 1, 1);
    assert r1.Success? && r1.value.driverId == driver.id;
    var c := app.CompleteRide(r1.value.id);
    assert c == Pass;
    var r2 := app.RequestRide(rider.id, 1, 1, 2, 2);
    assert r2.Success? && r2.value.driverId == driver.id;
    var listing := app.ListRides();
    assert |listing| == 2;
    assert listing[0].id == 1 && listing[0].status == "completed" && listing[0].driverName == "bo";
    assert listing[1].id == 2 && listing[1].status == "active" && listing[1].riderName == "ann";
  }
}

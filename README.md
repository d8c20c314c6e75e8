# Taxi dispatch engine, modelled in Dafny

This project models the in-memory dispatch engine of a small taxi program: the
`TaxiApp` class in `taxi_app.py`. The engine keeps three id-keyed tables
(riders, drivers, rides) and three counters that hand out ids starting at 1.
Riders and drivers register. A ride request books the nearest available
driver. Completing a ride frees its driver and moves the driver to the
drop-off point.

Files:

- `records.dfy` (module `Records`): the `Rider`, `Driver` and `Ride` records as
  datatypes, the error values and the ride-summary row. A ride refers to its
  rider and driver by id, not by object.
- `fare.dfy` (module `Fare`): squared distance, an integer square root, and
  the fare policy (250 plus 100 per unit of distance, rounded to two decimals).
  The fare is computed exactly, in hundredths.
- `dispatch.dfy` (module `Dispatch`): the engine invariant over the tables and
  counters, what "closest available driver" means, and lemmas that each state
  change keeps drivers from being double-booked.
- `taxi_app.dfy` (module `Taxi`): class `TaxiApp`. Its map fields and counters
  are changed in place by its methods, as in the source.
- `scenarios.dfy` (module `Scenarios`): client methods that use the class only
  through its contracts. They show the nearest-driver choice, the tie-break,
  a booked driver's exclusivity, the fare of a unit trip, completing a ride
  twice, unknown ids, and the ride listing.

Modelling choices:

- Ids are `int`, as the menu passes any integer through. The invariant
  `Valid()` says each table's keys are exactly `1 .. next - 1` and each
  record's id is its key.
- The source's `Ride` holds references to its `Rider` and `Driver` objects.
  The drivers table never replaces an entry, so `ride.driver` is always
  `drivers[ride.driver.id]`. The model looks the driver up by id instead.
- Coordinates are integers. The nearest-driver scan compares squared
  Euclidean distances. The square root is monotone, so the scan picks the
  same driver as `math.hypot` would in exact arithmetic. `Square` is defined
  by a recurrence without multiplication, and `SquareIsProduct` proves it
  equals `a * a`.
- The source scans `self.drivers.values()` in insertion order, which is
  ascending id order. It replaces the current best only on strict `<`, so
  among equally near drivers the lowest id wins. The model scans ids
  `1 .. nextDriverId - 1`.
- The fare is `25000 + n` hundredths, where `n` is the integer nearest to
  `10000 * sqrt(d2)` and `d2` is the squared trip length. That product is
  either an integer or irrational, so it never lies exactly halfway between
  two integers. The rounding rule of Python's `round` never comes into play.
- The ids in `1 .. nextRideId - 1` give the rides in the order that
  `list_rides` lists them.

Where the source only prints, the model returns a value:

- `request_ride` returns `None` both for an unknown rider and when no driver
  is free. It tells the two apart only in the printed message. The model
  returns `Failure(RiderNotFound)` or `Failure(NoDriverAvailable)`.
- `complete_ride` returns nothing. Its two failure cases differ only in the
  printed message. The model returns an `Outcome` that names the case.
- `list_rides` prints its lines. The model returns them as a sequence of
  `RideSummary` values: ride id, the label `"completed"` or `"active"`, rider
  name, driver name.

## Model

| member | source | states |
|---|---|---|
| `Taxi.TaxiApp.constructor` | taxi_app.py:37-43 | The engine starts with empty rider, driver and ride tables, all three counters at 1, and the invariant established. |
| `Taxi.TaxiApp.RegisterRider` | taxi_app.py:45-50 | The new rider gets the current rider counter as its id. That id was unused. The rider is stored under it and the counter rises by one. No other table or counter changes (frame), and the invariant is kept. |
| `Taxi.TaxiApp.RegisterDriver` | taxi_app.py:52-57 | The new driver gets the current driver counter as its id, sits at the given coordinates and is available. It is stored under a fresh id, the counter rises by one, and only the driver table and counter change. |
| `Taxi.TaxiApp.FindClosestDriver` | taxi_app.py:59-69 | It returns none exactly when no driver is available. Otherwise it returns an available driver that no available driver is nearer than. Every available driver with a lower id is strictly farther, so ties go to the first registered. |
| `Taxi.TaxiApp.RequestRide` | taxi_app.py:71-88 | An unknown rider gives RiderNotFound; a known rider with no free driver gives NoDriverAvailable; both change nothing. Otherwise the closest driver is marked unavailable. A ride is stored under the old ride counter: not completed, with the given rider, endpoints and driver, and the exact fare. The counter rises by one; no other driver or ride changes. |
| `Taxi.TaxiApp.CompleteRide` | taxi_app.py:90-102 | An unknown ride gives RideNotFound; an already completed ride gives RideAlreadyCompleted; both change nothing, so a second call is a no-op. Otherwise only that ride becomes completed, and only its driver becomes available and moves to the destination. |
| `Taxi.TaxiApp.ListRides` | taxi_app.py:104-107 | One entry per ride, in ascending id order. Each is labelled "completed" if the ride is completed and "active" otherwise, and names the ride's rider and driver. |
| `Dispatch.ExactlyOneActiveRide` | taxi_app.py:80-99 | Under the invariant, a driver is available exactly when no active ride references it, and unavailable exactly when exactly one does. |
| `Dispatch.AddDriverKeepsBooking` | taxi_app.py:52-55 | Adding a new available driver keeps the no-double-booking invariant. |
| `Dispatch.AssignKeepsBooking` | taxi_app.py:80-86 | Marking an available driver unavailable and adding a new active ride for it keeps the no-double-booking invariant. |
| `Dispatch.CompleteKeepsBooking` | taxi_app.py:98-101 | Completing an active ride and freeing (and moving) its driver keeps the no-double-booking invariant. The ride's driver is a registered driver. |
| `Dispatch.BookedDriverIsNotClosest` | taxi_app.py:62-64 | Under the invariant, the driver of an active ride is never the driver a request selects. |
| `Dispatch.ClosestIsUnique` | taxi_app.py:62-68 | The selection rule (nearest, ties to the lowest id) picks at most one driver, so the result of the scan is determined. |
| `Fare.SquareIsProduct` | taxi_app.py:65 | The squaring used for distances equals a * a. |
| `Fare.FloorSqrt` | taxi_app.py:81 | The integer square root r satisfies r * r <= n < (r + 1) * (r + 1). |
| `Fare.NearestSqrt` | taxi_app.py:81-82 | The result is the integer nearest to sqrt(n): r - 1/2 <= sqrt(n) < r + 1/2, squared out into integers. |
| `Fare.NearestSqrtUnique` | taxi_app.py:82 | Those two bounds determine the rounded square root uniquely. |
| `Fare.NearestSqrtMonotone` | taxi_app.py:81-82 | The rounded square root is monotone in its argument. |
| `Fare.FareCents` | taxi_app.py:81-82 | The fare in hundredths is at least the base fare of 250. What exceeds the base is the distance charge, 100 per unit of trip distance, rounded to the nearest hundredth. |
| `Fare.FareOfWholeDistance` | taxi_app.py:82 | A trip of whole length k costs exactly 250 + 100 * k; a unit trip costs 350.00. |
| `Fare.FareMonotone` | taxi_app.py:82 | A longer trip never costs less. |

## Left out

- The menu loop in `main()`, `input()` and the `int`/`float` parsing of the
  menu input (taxi_app.py:110-147) are console I/O outside the engine.
- Every `print` call, and with it the exact text of `list_rides`. Only the
  status label rule and the listed fields are modelled.
- Floating point. Coordinates are integers, and the fare is modelled as exact
  real arithmetic rounded to the nearest hundredth. The model does not capture
  the rounding error of `math.hypot` and of float multiplication. It also
  does not capture overflow to infinity or NaN: a driver at infinite or NaN
  distance never passes the strict `<` test, so the scan could return `None`
  even though a driver is available.
- Concurrency: the source is single-threaded and has no locking, so each
  operation is modelled as one atomic step.
- Object aliasing: rides hold driver and rider ids rather than shared
  objects. This is equivalent because no table entry is ever replaced.

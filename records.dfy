/** The records of the dispatch engine and the results its operations return. */
module Records {

  datatype Option<T> = None | Some(value: T)

  /** Either the value an operation produced or the reason it refused. */
  datatype Result<T, E> = Success(value: T) | Failure(error: E)

  /** Either it worked, or why it did not (for operations with no payload). */
  datatype Outcome<E> = Pass | Fail(error: E)

  /** A rider never changes after registration. */
  datatype Rider = Rider(id: int, name: string)

  /** A driver's position and availability change over the ride lifecycle. */
  datatype Driver = Driver(id: int, name: string, x: int, y: int, available: bool)

  /**
   * A ride refers to its rider and driver by id. The fare, in hundredths of a
   * currency unit, is fixed when the ride is created.
   */
  datatype Ride = Ride(
    id: int,
    riderId: int,
    driverId: int,
    startX: int,
    startY: int,
    destX: int,
    destY: int,
    fareCents: nat,
    completed: bool)

  datatype RequestError = RiderNotFound | NoDriverAvailable

  datatype CompleteError = RideNotFound | RideAlreadyCompleted

  /** One line of the ride listing: id, status label, rider and driver names. */
  datatype RideSummary = RideSummary(id: int, status: string, riderName: string, driverName: string)
}

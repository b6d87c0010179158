/** The global-store version of the rental ledger (store/rental-store.ts).
    The store's fields are overwritten in sequence by its actions, which call
    one another (addRental -> updateCarAvailability -> calculateStats) and
    then saveData. The device's key-value store is the field `disk`; the
    seed catalogue is fixed when the store is made. */
module Store {
  import opened Options
  import opened CarTypes
  import L = RentalLedger
  import opened SeedCatalog

  class RentalStore {
    const seed: seq<Car>
    var cars: seq<Car>
    var customers: seq<Customer>
    var rentals: seq<Rental>
    var stats: RentalStats
    /** The storage entries "cars", "customers" and "rentals". */
    var disk: Blobs

    /** The statistics are those of the current lists. */
    ghost predicate Valid()
      reads this
    {
      stats == L.CalculateStats(cars, rentals)
    }

    /** What saveData writes: the non-catalogue cars and the other two
        lists. */
    function Persisted(): Blobs
      reads this
    {
      Blobs(Some(CustomCars(seed, cars)), Some(customers), Some(rentals))
    }

    constructor (seed: seq<Car>, disk: Blobs)
      ensures this.seed == seed && this.disk == disk
      ensures cars == [] && customers == [] && rentals == []
      ensures stats == RentalStats(0, 0, 0, 0)
      ensures Valid()
    {
      this.seed := seed;
      this.disk := disk;
      cars, customers, rentals := [], [], [];
      stats := RentalStats(0, 0, 0, 0);
    }

    method CalculateStats()
      modifies this`stats
      ensures stats == L.CalculateStats(cars, rentals)
    {
      stats := L.CalculateStats(cars, rentals);
    }

    /** The writes are modelled as completing at once and in order. */
    method SaveData()
      modifies this`disk
      ensures disk == Persisted()
    {
      disk := Blobs(Some(CustomCars(seed, cars)), Some(customers), Some(rentals));
    }

    method AddCar(car: Car)
      modifies this`cars, this`stats, this`disk
      ensures cars == old(cars) + [car]
      ensures Valid() && disk == Persisted()
    {
      cars := cars + [car];
      CalculateStats();
      SaveData();
    }

    method UpdateCarAvailability(carId: string, available: bool)
      modifies this`cars, this`stats, this`disk
      ensures cars == L.SetAvailability(old(cars), carId, available)
      ensures Valid() && disk == Persisted()
    {
      cars := L.SetAvailability(cars, carId, available);
      CalculateStats();
      SaveData();
    }

    /** Leaves the cars, the rentals and the statistics as they were. */
    method AddCustomer(customer: Customer)
      modifies this`customers, this`disk
      ensures customers == old(customers) + [customer]
      ensures disk == Persisted()
    {
      customers := customers + [customer];
      SaveData();
    }

    method AddRental(rental: Rental)
      modifies this`cars, this`rentals, this`stats, this`disk
      ensures rentals == old(rentals) + [rental]
      ensures cars == L.SetAvailability(old(cars), rental.carId, false)
      ensures forall c :: c in cars && c.id == rental.carId ==> !c.available
      ensures Valid() && disk == Persisted()
    {
      rentals := rentals + [rental];
      L.SetAvailabilityMembers(cars, rental.carId, false);
      UpdateCarAvailability(rental.carId, false);
      CalculateStats();
      SaveData();
    }

    /** No check is made on which status may follow which. */
    method UpdateRentalStatus(rentalId: string, status: RentalStatus)
      modifies this`cars, this`rentals, this`stats, this`disk
      ensures rentals == L.SetStatus(old(rentals), rentalId, status)
      ensures var found := L.FindRental(old(rentals), rentalId);
        cars == if (status == Completed || status == Cancelled) && found.Some?
                then L.SetAvailability(old(cars), found.value.carId, true)
                else old(cars)
      ensures Valid() && disk == Persisted()
    {
      L.FindAfterSetStatus(rentals, rentalId, status);
      rentals := L.SetStatus(rentals, rentalId, status);
      if status == Completed || status == Cancelled {
        var rental := L.FindRental(rentals, rentalId);
        if rental.Some? {
          UpdateCarAvailability(rental.value.carId, true);
        }
      }
      CalculateStats();
      SaveData();
    }

    /** Does nothing at all for an id no rental has. */
    method RemoveRental(rentalId: string)
      modifies this`cars, this`rentals, this`stats, this`disk
      ensures var found := L.FindRental(old(rentals), rentalId);
        if found.None? then
          cars == old(cars) && rentals == old(rentals) && stats == old(stats) && disk == old(disk)
        else
          && rentals == L.WithoutRental(old(rentals), rentalId)
          && (forall r :: r in rentals ==> r.id != rentalId)
          && cars == L.SetAvailability(old(cars), found.value.carId, true)
          && (forall c :: c in cars && c.id == found.value.carId ==> c.available)
          && Valid() && disk == Persisted()
    {
      var rental := L.FindRental(rentals, rentalId);
      if rental.Some? {
        L.SetAvailabilityMembers(cars, rental.value.carId, true);
        UpdateCarAvailability(rental.value.carId, true);
        rentals := L.WithoutRental(rentals, rentalId);
        CalculateStats();
        SaveData();
      }
    }

    /** The timestamp is the caller's clock reading. The statistics are not
        recomputed, and need not be: they do not depend on locations. */
    method UpdateCarLocation(rentalId: string, latitude: real, longitude: real, timestamp: string)
      modifies this`rentals, this`disk
      ensures rentals == L.SetLocation(old(rentals), rentalId, L.FreshLocation(latitude, longitude, timestamp))
      ensures L.CalculateStats(cars, rentals) == L.CalculateStats(cars, old(rentals))
      ensures old(Valid()) ==> Valid()
      ensures disk == Persisted()
    {
      L.StatsIgnoreLocation(cars, rentals, rentalId, L.FreshLocation(latitude, longitude, timestamp));
      rentals := L.SetLocation(rentals, rentalId, L.FreshLocation(latitude, longitude, timestamp));
      SaveData();
    }

    /** loadData once its reads succeed: the catalogue merged with the stored
        cars, the other lists as stored (empty when missing). */
    method LoadData()
      modifies this`cars, this`customers, this`rentals, this`stats
      ensures cars == MergeSeed(seed, disk.cars.GetOr([]))
      ensures customers == disk.customers.GetOr([])
      ensures rentals == disk.rentals.GetOr([])
      ensures Valid()
    {
      var storedCars := disk.cars.GetOr([]);
      cars := MergeSeed(seed, storedCars);
      customers := disk.customers.GetOr([]);
      rentals := disk.rentals.GetOr([]);
      CalculateStats();
    }
  }

  /** The booking walk-through: a catalogue holding one available car, a
      pending booking for it, then activation and completion. */
  method BookingLifecycle(car: Car, rental: Rental) returns (afterBooking: RentalStats, afterActivation: RentalStats, afterCompletion: RentalStats, freed: bool)
    requires car.available
    requires rental.carId == car.id && rental.status == Pending
    ensures afterBooking == RentalStats(1, 0, 0, 0)
    ensures afterActivation == RentalStats(1, 1, 0, 0)
    ensures afterCompletion == RentalStats(1, 0, rental.totalPrice, 1)
    ensures freed
  {
    var store := new RentalStore([car], Blobs(None, None, None));
    store.LoadData();
    assert store.cars == [car] by {
      DedupOfDistinct([car]);
      assert [car] + [] == [car];
    }
    var booked := car.(available := false);
    L.SetAvailabilitySingle(car, false);
    store.AddRental(rental);
    assert store.rentals == [rental];
    L.SingleStats(booked, rental);
    afterBooking := store.stats;

    L.SetStatusSingle(rental, Active);
    store.UpdateRentalStatus(rental.id, Active);
    L.SingleStats(booked, rental.(status := Active));
    afterActivation := store.stats;

    var active := rental.(status := Active);
    L.SetStatusSingle(active, Completed);
    L.SetAvailabilitySingle(booked, true);
    store.UpdateRentalStatus(rental.id, Completed);
    assert active.(status := Completed) == rental.(status := Completed);
    assert booked.(available := true) == car;
    L.SingleStats(car, rental.(status := Completed));
    afterCompletion := store.stats;
    freed := store.cars[0].available;
  }

  /** A car added at run time, whose id is not a catalogue id, is written to
      storage and is there again after a restart reads that storage. */
  method AddCarThenRestart(seed: seq<Car>, car: Car) returns (reloaded: seq<Car>)
    requires car.id !in Ids(seed)
    ensures car in reloaded
  {
    var store := new RentalStore(seed, Blobs(None, None, None));
    store.LoadData();
    DedupKeepsIds(seed + []);
    assert seed + [] == seed;
    store.AddCar(car);
    var restarted := new RentalStore(seed, store.disk);
    restarted.LoadData();
    AddedCarSurvivesRestart(seed, store.cars[..|store.cars| - 1], car);
    assert store.cars[..|store.cars| - 1] + [car] == store.cars;
    reloaded := restarted.cars;
  }
}

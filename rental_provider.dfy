/** The context-provider version of the rental ledger
    (providers/rental-provider.tsx). The hook holds one state cell; every
    action replaces it through an updater `prev => next`, which is modelled
    here as a function. The updater also hands the new lists to saveData;
    that write is returned beside the next state. */
module RentalProvider {
  import opened Options
  import opened CarTypes
  import opened Seqs
  import opened RentalLedger

  datatype RentalState = RentalState(
    cars: seq<Car>,
    customers: seq<Customer>,
    rentals: seq<Rental>,
    stats: RentalStats,
    isLoading: bool)

  /** What one updater returns: the next state, and the lists passed to
      saveData (None when the updater saves nothing). */
  datatype Update = Update(next: RentalState, saved: Option<Blobs>)

  /** The invariant every updater keeps: the statistics are those of the
      current lists. */
  predicate StatsConsistent(s: RentalState)
  {
    s.stats == CalculateStats(s.cars, s.rentals)
  }

  /** The three storage entries as saveData writes them. */
  function Snapshot(s: RentalState): Blobs
  {
    Blobs(Some(s.cars), Some(s.customers), Some(s.rentals))
  }

  function InitialState(): (s: RentalState)
    ensures s.cars == [] && s.customers == [] && s.rentals == [] && s.isLoading
    ensures StatsConsistent(s)
  {
    RentalState([], [], [], RentalStats(0, 0, 0, 0), true)
  }

  /** loadData after its reads succeed: each missing entry becomes an empty
      list; no catalogue is merged in. */
  function LoadData(prev: RentalState, stored: Blobs): (s: RentalState)
    ensures stored.cars.None? ==> s.cars == []
    ensures stored.customers.None? ==> s.customers == []
    ensures stored.rentals.None? ==> s.rentals == []
    ensures stored.cars.Some? ==> s.cars == stored.cars.value
    ensures stored.customers.Some? ==> s.customers == stored.customers.value
    ensures stored.rentals.Some? ==> s.rentals == stored.rentals.value
    ensures StatsConsistent(s) && !s.isLoading
  {
    var cars := stored.cars.GetOr([]);
    var rentals := stored.rentals.GetOr([]);
    prev.(cars := cars, customers := stored.customers.GetOr([]), rentals := rentals,
          stats := CalculateStats(cars, rentals), isLoading := false)
  }

  function AddCar(prev: RentalState, car: Car): (u: Update)
    ensures u.next.cars == prev.cars + [car]
    ensures u.next.customers == prev.customers && u.next.rentals == prev.rentals
    ensures u.next.isLoading == prev.isLoading
    ensures StatsConsistent(u.next) && u.saved == Some(Snapshot(u.next))
    ensures StatsConsistent(prev) ==>
      u.next.stats == prev.stats.(availableCars := prev.stats.availableCars + if car.available then 1 else 0)
  {
    var newCars := prev.cars + [car];
    StatsAppendCar(prev.cars, car, prev.rentals);
    var next := prev.(cars := newCars, stats := CalculateStats(newCars, prev.rentals));
    Update(next, Some(Snapshot(next)))
  }

  function UpdateCarAvailability(prev: RentalState, carId: string, available: bool): (u: Update)
    ensures u.next.cars == SetAvailability(prev.cars, carId, available)
    ensures u.next.customers == prev.customers && u.next.rentals == prev.rentals
    ensures u.next.isLoading == prev.isLoading
    ensures StatsConsistent(u.next) && u.saved == Some(Snapshot(u.next))
    ensures (forall i :: 0 <= i < |prev.cars| ==> prev.cars[i].id != carId) ==> u.next.cars == prev.cars
  {
    var newCars := SetAvailability(prev.cars, carId, available);
    var next := prev.(cars := newCars, stats := CalculateStats(newCars, prev.rentals));
    Update(next, Some(Snapshot(next)))
  }

  function AddCustomer(prev: RentalState, customer: Customer): (u: Update)
    ensures u.next.customers == prev.customers + [customer]
    ensures u.next.cars == prev.cars && u.next.rentals == prev.rentals
    ensures u.next.stats == prev.stats && u.next.isLoading == prev.isLoading
    ensures StatsConsistent(prev) ==> StatsConsistent(u.next)
    ensures u.saved == Some(Snapshot(u.next))
  {
    var next := prev.(customers := prev.customers + [customer]);
    Update(next, Some(Snapshot(next)))
  }

  function AddRental(prev: RentalState, rental: Rental): (u: Update)
    ensures u.next.rentals == prev.rentals + [rental]
    ensures u.next.cars == SetAvailability(prev.cars, rental.carId, false)
    ensures forall c :: c in u.next.cars && c.id == rental.carId ==> !c.available
    ensures u.next.customers == prev.customers && u.next.isLoading == prev.isLoading
    ensures StatsConsistent(u.next) && u.saved == Some(Snapshot(u.next))
  {
    var newRentals := prev.rentals + [rental];
    var newCars := SetAvailability(prev.cars, rental.carId, false);
    var next := prev.(cars := newCars, rentals := newRentals, stats := CalculateStats(newCars, newRentals));
    Update(next, Some(Snapshot(next)))
  }

  /** Frees a car only for a final status and only when the rental exists;
      no check is made on which status may follow which. */
  function UpdateRentalStatus(prev: RentalState, rentalId: string, status: RentalStatus): (u: Update)
    ensures u.next.rentals == SetStatus(prev.rentals, rentalId, status)
    ensures var found := FindRental(prev.rentals, rentalId);
      u.next.cars == if (status == Completed || status == Cancelled) && found.Some?
                     then SetAvailability(prev.cars, found.value.carId, true)
                     else prev.cars
    ensures u.next.customers == prev.customers && u.next.isLoading == prev.isLoading
    ensures StatsConsistent(u.next) && u.saved == Some(Snapshot(u.next))
  {
    var newRentals := SetStatus(prev.rentals, rentalId, status);
    FindAfterSetStatus(prev.rentals, rentalId, status);
    var found := FindRental(newRentals, rentalId);
    var newCars :=
      if (status == Completed || status == Cancelled) && found.Some?
      then SetAvailability(prev.cars, found.value.carId, true)
      else prev.cars;
    var next := prev.(cars := newCars, rentals := newRentals, stats := CalculateStats(newCars, newRentals));
    Update(next, Some(Snapshot(next)))
  }

  /** Returns the previous state unsaved when no rental has the id;
      otherwise drops every rental with the id and frees the car of the
      first one. */
  function RemoveRental(prev: RentalState, rentalId: string): (u: Update)
    ensures FindRental(prev.rentals, rentalId).None? ==> u == Update(prev, None)
    ensures var found := FindRental(prev.rentals, rentalId);
      found.Some? ==>
        && u.next.rentals == WithoutRental(prev.rentals, rentalId)
        && (forall r :: r in u.next.rentals ==> r.id != rentalId)
        && u.next.cars == SetAvailability(prev.cars, found.value.carId, true)
        && (forall c :: c in u.next.cars && c.id == found.value.carId ==> c.available)
        && u.next.customers == prev.customers && u.next.isLoading == prev.isLoading
        && StatsConsistent(u.next) && u.saved == Some(Snapshot(u.next))
  {
    var found := FindRental(prev.rentals, rentalId);
    if found.None? then Update(prev, None)
    else
      var newCars := SetAvailability(prev.cars, found.value.carId, true);
      var newRentals := WithoutRental(prev.rentals, rentalId);
      var next := prev.(cars := newCars, rentals := newRentals, stats := CalculateStats(newCars, newRentals));
      Update(next, Some(Snapshot(next)))
  }

  /** The timestamp is the caller's clock reading; any earlier address is
      dropped. */
  function UpdateCarLocation(prev: RentalState, rentalId: string, latitude: real, longitude: real, timestamp: string): (u: Update)
    ensures u.next.rentals == SetLocation(prev.rentals, rentalId, FreshLocation(latitude, longitude, timestamp))
    ensures u.next.cars == prev.cars && u.next.customers == prev.customers
    ensures u.next.stats == prev.stats && u.next.isLoading == prev.isLoading
    ensures StatsConsistent(prev) ==> StatsConsistent(u.next)
    ensures u.saved == Some(Snapshot(u.next))
  {
    var newRentals := SetLocation(prev.rentals, rentalId, FreshLocation(latitude, longitude, timestamp));
    StatsIgnoreLocation(prev.cars, prev.rentals, rentalId, FreshLocation(latitude, longitude, timestamp));
    var next := prev.(rentals := newRentals);
    Update(next, Some(Snapshot(next)))
  }

  // ---------------------------------------------------------------------

  /** Whatever an updater saves, loading it back restores the same lists
      and statistics. */
  lemma LoadAfterSave(prev: RentalState, s: RentalState)
    requires StatsConsistent(s)
    ensures LoadData(prev, Snapshot(s)) == s.(isLoading := false)
  {
  }

  /** Setting the same status twice changes nothing the second time. */
  lemma UpdateRentalStatusIdempotent(s: RentalState, rentalId: string, status: RentalStatus)
    ensures var once := UpdateRentalStatus(s, rentalId, status).next;
      UpdateRentalStatus(once, rentalId, status).next == once
  {
    var once := UpdateRentalStatus(s, rentalId, status).next;
    var twice := UpdateRentalStatus(once, rentalId, status).next;
    var found := FindRental(s.rentals, rentalId);
    FindAfterSetStatus(s.rentals, rentalId, status);
    SetStatusIdempotent(s.rentals, rentalId, status);
    assert twice.rentals == once.rentals;
    if (status == Completed || status == Cancelled) && found.Some? {
      SetAvailabilityIdempotent(s.cars, found.value.carId, true);
    }
    assert twice.cars == once.cars;
  }

  /** Completing the one active rental with a given id frees its car,
      lowers the active count by one and adds its price to the revenue. */
  lemma CompleteActiveRental(s: RentalState, k: int)
    requires StatsConsistent(s)
    requires 0 <= k < |s.rentals|
    requires s.rentals[k].status == Active
    requires forall j :: 0 <= j < |s.rentals| && j != k ==> s.rentals[j].id != s.rentals[k].id
    ensures var r := s.rentals[k];
      var t := UpdateRentalStatus(s, r.id, Completed).next;
      && (forall c :: c in t.cars && c.id == r.carId ==> c.available)
      && t.stats.activeRentals == s.stats.activeRentals - 1
      && t.stats.totalRevenue == s.stats.totalRevenue + r.totalPrice
      && t.stats.totalRentals == s.stats.totalRentals
  {
    var r := s.rentals[k];
    assert FindRental(s.rentals, r.id) == Some(r) by {
      assert IndexWhere(s.rentals, RentalIdIs(r.id)) == k;
    }
    var t := UpdateRentalStatus(s, r.id, Completed).next;
    assert t.cars == SetAvailability(s.cars, r.carId, true);
    assert t.rentals == SetStatus(s.rentals, r.id, Completed);
    SetAvailabilityMembers(s.cars, r.carId, true);
    var before := CalculateStats(t.cars, s.rentals);
    assert before.activeRentals == s.stats.activeRentals && before.totalRevenue == s.stats.totalRevenue;
    StatsSetStatusUnique(t.cars, s.rentals, k, Completed);
  }
}

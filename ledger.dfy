/** The list transformations and the statistics projection shared by both
    versions of the rental ledger (store/rental-store.ts and
    providers/rental-provider.tsx): every action of either version is built
    from these. */
module RentalLedger {
  import opened Options
  import opened CarTypes
  import opened Seqs

  // ---------------------------------------------------------------------
  // Statistics
  // ---------------------------------------------------------------------

  predicate IsActive(r: Rental) { r.status == Active }
  predicate IsCompleted(r: Rental) { r.status == Completed }
  predicate IsAvailable(c: Car) { c.available }

  /** `reduce((sum, r) => sum + r.totalPrice, 0)`: a left fold over prices. */
  function PriceSum(rentals: seq<Rental>): int
  {
    if rentals == [] then 0
    else PriceSum(rentals[..|rentals| - 1]) + rentals[|rentals| - 1].totalPrice
  }

  /** calculateStats: recomputed from scratch out of the current lists. */
  function CalculateStats(cars: seq<Car>, rentals: seq<Rental>): (s: RentalStats)
    ensures s.totalRentals == |rentals|
    ensures 0 <= s.activeRentals <= s.totalRentals
    ensures 0 <= s.availableCars <= |cars|
  {
    RentalStats(
      |rentals|,
      |Filter(rentals, IsActive)|,
      PriceSum(Filter(rentals, IsCompleted)),
      |Filter(cars, IsAvailable)|)
  }

  lemma {:induction false} PriceSumAppend(a: seq<Rental>, b: seq<Rental>)
    ensures PriceSum(a + b) == PriceSum(a) + PriceSum(b)
    decreases |b|
  {
    if b == [] {
      assert a + b == a;
    } else {
      var n := |b| - 1;
      assert (a + b)[..|a + b| - 1] == a + b[..n];
      PriceSumAppend(a, b[..n]);
    }
  }

  lemma PriceSumCons(x: Rental, t: seq<Rental>)
    ensures PriceSum([x] + t) == x.totalPrice + PriceSum(t)
  {
    PriceSumAppend([x], t);
    assert [x][..0] == [];
  }

  /** The revenue does not depend on the order of the rentals. */
  lemma {:induction false} PriceSumPermutation(a: seq<Rental>, b: seq<Rental>)
    requires multiset(a) == multiset(b)
    ensures PriceSum(a) == PriceSum(b)
    decreases |a|
  {
    if a == [] {
      assert b == [] by {
        assert |multiset(b)| == 0;
      }
    } else {
      var x := a[0];
      assert x in multiset(b);
      var j :| 0 <= j < |b| && b[j] == x;
      var rest := b[..j] + b[j + 1..];
      SplitAt(b, j);
      assert a == [x] + a[1..];
      assert multiset(a) == multiset{x} + multiset(a[1..]);
      CancelOne(multiset(a[1..]), multiset(rest), x);
      PriceSumPermutation(a[1..], rest);
      PriceSumCons(x, a[1..]);
      assert PriceSum(b) == PriceSum(rest) + x.totalPrice by {
        PriceSumAppend(b[..j], [x] + b[j + 1..]);
        PriceSumCons(x, b[j + 1..]);
        PriceSumAppend(b[..j], b[j + 1..]);
      }
    }
  }

  /** The revenue written as a sum over positions: the prices of the
      completed rentals among the first n. */
  function CompletedRevenue(rentals: seq<Rental>, n: nat): int
    requires n <= |rentals|
  {
    if n == 0 then 0
    else CompletedRevenue(rentals, n - 1)
         + (if rentals[n - 1].status == Completed then rentals[n - 1].totalPrice else 0)
  }

  /** Folding the prices of the filtered prefix gives the positional sum. */
  lemma {:induction false} RevenueByPosition(rentals: seq<Rental>, n: nat)
    requires n <= |rentals|
    ensures PriceSum(Filter(rentals[..n], IsCompleted)) == CompletedRevenue(rentals, n)
  {
    if n == 0 {
      assert rentals[..0] == [];
    } else {
      var x := rentals[n - 1];
      RevenueByPosition(rentals, n - 1);
      assert rentals[..n] == rentals[..n - 1] + [x];
      FilterAppend(rentals[..n - 1], [x], IsCompleted);
      assert [x][1..] == [];
      var done := Filter(rentals[..n - 1], IsCompleted);
      if x.status == Completed {
        assert Filter([x], IsCompleted) == [x];
        PriceSumAppend(done, [x]);
        assert [x][..0] == [];
      } else {
        assert Filter([x], IsCompleted) == [];
        assert done + [] == done;
      }
    }
  }

  /** The counts are the sizes of the sets of matching positions, and the
      revenue is the sum of the prices at the positions of completed
      rentals. */
  lemma StatsCountMatchingPositions(cars: seq<Car>, rentals: seq<Rental>)
    ensures CalculateStats(cars, rentals).activeRentals
         == |set i | 0 <= i < |rentals| && rentals[i].status == Active|
    ensures CalculateStats(cars, rentals).availableCars
         == |set i | 0 <= i < |cars| && cars[i].available|
    ensures CalculateStats(cars, rentals).totalRevenue
         == CompletedRevenue(rentals, |rentals|)
  {
    RevenueByPosition(rentals, |rentals|);
    assert rentals[..|rentals|] == rentals;
    FilterLength(rentals, IsActive);
    FilterLength(cars, IsAvailable);
    assert Matching(rentals, IsActive) == set i | 0 <= i < |rentals| && rentals[i].status == Active;
    assert Matching(cars, IsAvailable) == set i | 0 <= i < |cars| && cars[i].available;
  }

  /** The statistics are an order-independent reduction. */
  lemma StatsOrderIndependent(cars: seq<Car>, cars': seq<Car>, rentals: seq<Rental>, rentals': seq<Rental>)
    requires multiset(cars) == multiset(cars')
    requires multiset(rentals) == multiset(rentals')
    ensures CalculateStats(cars, rentals) == CalculateStats(cars', rentals')
  {
    FilterPermutation(cars, cars', IsAvailable);
    FilterPermutation(rentals, rentals', IsActive);
    FilterPermutation(rentals, rentals', IsCompleted);
    PriceSumPermutation(Filter(rentals, IsCompleted), Filter(rentals', IsCompleted));
    assert |Filter(cars, IsAvailable)| == |multiset(Filter(cars, IsAvailable))|;
    assert |Filter(cars', IsAvailable)| == |multiset(Filter(cars', IsAvailable))|;
    assert |Filter(rentals, IsActive)| == |multiset(Filter(rentals, IsActive))|;
    assert |Filter(rentals', IsActive)| == |multiset(Filter(rentals', IsActive))|;
    assert |rentals| == |multiset(rentals)| && |rentals'| == |multiset(rentals')|;
  }

  /** Appending one rental adds one to the total, one to the active count if
      it is active, and its price to the revenue if it is completed. */
  lemma StatsAppendRental(cars: seq<Car>, rentals: seq<Rental>, r: Rental)
    ensures var s, s' := CalculateStats(cars, rentals), CalculateStats(cars, rentals + [r]);
      && s'.totalRentals == s.totalRentals + 1
      && s'.activeRentals == s.activeRentals + (if r.status == Active then 1 else 0)
      && s'.totalRevenue == s.totalRevenue + (if r.status == Completed then r.totalPrice else 0)
      && s'.availableCars == s.availableCars
  {
    FilterAppend(rentals, [r], IsActive);
    FilterAppend(rentals, [r], IsCompleted);
    assert [r][1..] == [];
    var done := Filter(rentals, IsCompleted);
    if r.status == Completed {
      assert (done + [r])[..|done|] == done;
    } else {
      assert done + [] == done;
    }
  }

  /** Appending one car adds one to the available count exactly when it is
      available. */
  lemma StatsAppendCar(cars: seq<Car>, car: Car, rentals: seq<Rental>)
    ensures var s, s' := CalculateStats(cars, rentals), CalculateStats(cars + [car], rentals);
      && s'.availableCars == s.availableCars + (if car.available then 1 else 0)
      && s'.totalRentals == s.totalRentals
      && s'.activeRentals == s.activeRentals
      && s'.totalRevenue == s.totalRevenue
  {
    FilterAppend(cars, [car], IsAvailable);
    assert [car][1..] == [];
  }

  /** The statistics of one car and one rental, by the rental's status. */
  lemma SingleStats(car: Car, rental: Rental)
    ensures CalculateStats([car], [rental]) == RentalStats(
      1,
      if rental.status == Active then 1 else 0,
      if rental.status == Completed then rental.totalPrice else 0,
      if car.available then 1 else 0)
  {
    assert [rental][1..] == [] && [car][1..] == [];
    assert Filter([rental], IsActive) == if IsActive(rental) then [rental] else [];
    assert Filter([rental], IsCompleted) == if IsCompleted(rental) then [rental] else [];
    assert Filter([car], IsAvailable) == if IsAvailable(car) then [car] else [];
    assert PriceSum([rental]) == rental.totalPrice by {
      assert [rental][..0] == [];
    }
  }

  // ---------------------------------------------------------------------
  // Element updates: the `map` and `filter` bodies of the actions
  // ---------------------------------------------------------------------

  /** `cars.map(car => car.id === carId ? { ...car, available } : car)` */
  function SetAvailability(cars: seq<Car>, carId: string, available: bool): (r: seq<Car>)
    ensures |r| == |cars|
    ensures forall i :: 0 <= i < |cars| && cars[i].id == carId ==> r[i] == cars[i].(available := available)
    ensures forall i :: 0 <= i < |cars| && cars[i].id != carId ==> r[i] == cars[i]
  {
    if cars == [] then []
    else
      [if cars[0].id == carId then cars[0].(available := available) else cars[0]]
      + SetAvailability(cars[1..], carId, available)
  }

  lemma SetAvailabilitySingle(car: Car, available: bool)
    ensures SetAvailability([car], car.id, available) == [car.(available := available)]
  {
    assert [car][1..] == [];
  }

  lemma SetStatusSingle(rental: Rental, status: RentalStatus)
    ensures SetStatus([rental], rental.id, status) == [rental.(status := status)]
    ensures FindRental([rental], rental.id) == Some(rental)
  {
    assert [rental][1..] == [];
    assert IndexWhere([rental], RentalIdIs(rental.id)) == 0;
  }

  /** After the map, every car with the id has the new availability. */
  lemma SetAvailabilityMembers(cars: seq<Car>, carId: string, available: bool)
    ensures forall c :: c in SetAvailability(cars, carId, available) && c.id == carId ==> c.available == available
  {
    var r := SetAvailability(cars, carId, available);
    forall c | c in r && c.id == carId ensures c.available == available {
      var i :| 0 <= i < |r| && r[i] == c;
    }
  }

  /** `rentals.map(rental => rental.id === rentalId ? { ...rental, status } : rental)` */
  function SetStatus(rentals: seq<Rental>, rentalId: string, status: RentalStatus): (r: seq<Rental>)
    ensures |r| == |rentals|
    ensures forall i :: 0 <= i < |rentals| && rentals[i].id == rentalId ==> r[i] == rentals[i].(status := status)
    ensures forall i :: 0 <= i < |rentals| && rentals[i].id != rentalId ==> r[i] == rentals[i]
  {
    if rentals == [] then []
    else
      [if rentals[0].id == rentalId then rentals[0].(status := status) else rentals[0]]
      + SetStatus(rentals[1..], rentalId, status)
  }

  /** The location record written by updateCarLocation: the given
      coordinates and timestamp, and no address. */
  function FreshLocation(latitude: real, longitude: real, timestamp: string): Location
  {
    Location(latitude, longitude, timestamp, None)
  }

  /** `rentals.map(rental => rental.id === rentalId
         ? { ...rental, currentLocation: { ...location, timestamp } } : rental)` */
  function SetLocation(rentals: seq<Rental>, rentalId: string, loc: Location): (r: seq<Rental>)
    ensures |r| == |rentals|
    ensures forall i :: 0 <= i < |rentals| && rentals[i].id == rentalId ==> r[i] == rentals[i].(currentLocation := Some(loc))
    ensures forall i :: 0 <= i < |rentals| && rentals[i].id != rentalId ==> r[i] == rentals[i]
  {
    if rentals == [] then []
    else
      [if rentals[0].id == rentalId then rentals[0].(currentLocation := Some(loc)) else rentals[0]]
      + SetLocation(rentals[1..], rentalId, loc)
  }

  function RentalIdIs(rentalId: string): Rental -> bool
  {
    (r: Rental) => r.id == rentalId
  }

  function RentalIdIsNot(rentalId: string): Rental -> bool
  {
    (r: Rental) => r.id != rentalId
  }

  /** `rentals.find(r => r.id === rentalId)` */
  function FindRental(rentals: seq<Rental>, rentalId: string): (r: Option<Rental>)
    ensures r.None? <==> forall j :: 0 <= j < |rentals| ==> rentals[j].id != rentalId
    ensures r.Some? ==> r.value.id == rentalId && r.value in rentals
    ensures r.Some? ==> exists k :: 0 <= k < |rentals| && rentals[k] == r.value && forall j :: 0 <= j < k ==> rentals[j].id != rentalId
  {
    Find(rentals, RentalIdIs(rentalId))
  }

  /** `rentals.filter(r => r.id !== rentalId)` */
  function WithoutRental(rentals: seq<Rental>, rentalId: string): (r: seq<Rental>)
    ensures forall x :: x in r <==> x in rentals && x.id != rentalId
  {
    FilterSound(rentals, RentalIdIsNot(rentalId));
    Filter(rentals, RentalIdIsNot(rentalId))
  }

  /** Filtering out an id that no rental has keeps the list as it is. */
  lemma WithoutAbsentRental(rentals: seq<Rental>, rentalId: string)
    requires FindRental(rentals, rentalId).None?
    ensures WithoutRental(rentals, rentalId) == rentals
  {
    FilterKeepsAll(rentals, RentalIdIsNot(rentalId));
  }

  // ---------------------------------------------------------------------
  // Facts relating the updates to each other and to the statistics
  // ---------------------------------------------------------------------

  /** Rewriting statuses keeps every id, so `find` by id still stops at the
      same position, now holding the new status. */
  lemma FindAfterSetStatus(rentals: seq<Rental>, rentalId: string, status: RentalStatus)
    ensures var before := FindRental(rentals, rentalId);
      FindRental(SetStatus(rentals, rentalId, status), rentalId)
        == if before.Some? then Some(before.value.(status := status)) else None
  {
    var after := SetStatus(rentals, rentalId, status);
    var k := IndexWhere(rentals, RentalIdIs(rentalId));
    var k' := IndexWhere(after, RentalIdIs(rentalId));
    assert forall j :: 0 <= j < |rentals| ==> (RentalIdIs(rentalId)(after[j]) <==> RentalIdIs(rentalId)(rentals[j]));
    if k == -1 {
      assert k' == -1;
    } else {
      assert k' == k;
    }
  }

  lemma SetStatusIdempotent(rentals: seq<Rental>, rentalId: string, status: RentalStatus)
    ensures var once := SetStatus(rentals, rentalId, status);
      SetStatus(once, rentalId, status) == once
  {
    var once := SetStatus(rentals, rentalId, status);
    var twice := SetStatus(once, rentalId, status);
    assert forall i :: 0 <= i < |once| ==> twice[i] == once[i];
  }

  lemma SetAvailabilityIdempotent(cars: seq<Car>, carId: string, available: bool)
    ensures var once := SetAvailability(cars, carId, available);
      SetAvailability(once, carId, available) == once
  {
    var once := SetAvailability(cars, carId, available);
    var twice := SetAvailability(once, carId, available);
    assert forall i :: 0 <= i < |once| ==> twice[i] == once[i];
  }

  /** A location update touches neither statuses nor prices, so the
      statistics stay the same. */
  lemma {:induction false} StatsIgnoreLocation(cars: seq<Car>, rentals: seq<Rental>, rentalId: string, loc: Location)
    ensures CalculateStats(cars, SetLocation(rentals, rentalId, loc)) == CalculateStats(cars, rentals)
  {
    var after := SetLocation(rentals, rentalId, loc);
    SameStatusAndPriceStats(rentals, after);
  }

  /** Two rental lists that agree, position by position, on status and
      price have the same counts and revenue. */
  lemma {:induction false} SameStatusAndPriceStats(a: seq<Rental>, b: seq<Rental>)
    requires |a| == |b|
    requires forall i :: 0 <= i < |a| ==> a[i].status == b[i].status && a[i].totalPrice == b[i].totalPrice
    ensures |Filter(a, IsActive)| == |Filter(b, IsActive)|
    ensures PriceSum(Filter(a, IsCompleted)) == PriceSum(Filter(b, IsCompleted))
    decreases |a|
  {
    if a != [] {
      SameStatusAndPriceStats(a[1..], b[1..]);
      var ca, cb := Filter(a[1..], IsCompleted), Filter(b[1..], IsCompleted);
      if a[0].status == Completed {
        assert Filter(a, IsCompleted) == [a[0]] + ca;
        assert Filter(b, IsCompleted) == [b[0]] + cb;
        PriceSumCons(a[0], ca);
        PriceSumCons(b[0], cb);
      } else {
        assert Filter(a, IsCompleted) == ca;
        assert Filter(b, IsCompleted) == cb;
      }
    }
  }

  /** Changing the status of the one rental with a given id moves its weight
      from the old status to the new one. */
  lemma StatsSetStatusUnique(cars: seq<Car>, rentals: seq<Rental>, k: int, status: RentalStatus)
    requires 0 <= k < |rentals|
    requires forall j :: 0 <= j < |rentals| && j != k ==> rentals[j].id != rentals[k].id
    ensures var old_ := rentals[k];
      var s, s' := CalculateStats(cars, rentals), CalculateStats(cars, SetStatus(rentals, old_.id, status));
      && s'.totalRentals == s.totalRentals
      && s'.availableCars == s.availableCars
      && s'.activeRentals == s.activeRentals - (if old_.status == Active then 1 else 0) + (if status == Active then 1 else 0)
      && s'.totalRevenue == s.totalRevenue
           - (if old_.status == Completed then old_.totalPrice else 0)
           + (if status == Completed then old_.totalPrice else 0)
  {
    var r := rentals[k];
    var after := SetStatus(rentals, r.id, status);
    var front, back := rentals[..k], rentals[k + 1..];
    assert rentals == front + [r] + back;
    assert after == front + [r.(status := status)] + back;
    StatsAppendRental(cars, front, r);
    StatsAppendRental(cars, front, r.(status := status));
    StatsAppendSuffix(cars, front + [r], back);
    StatsAppendSuffix(cars, front + [r.(status := status)], back);
  }

  /** Appending a suffix adds its contributions to every rental count. */
  lemma StatsAppendSuffix(cars: seq<Car>, rentals: seq<Rental>, suffix: seq<Rental>)
    ensures var s, s', t := CalculateStats(cars, rentals), CalculateStats(cars, rentals + suffix), CalculateStats([], suffix);
      && s'.totalRentals == s.totalRentals + t.totalRentals
      && s'.activeRentals == s.activeRentals + t.activeRentals
      && s'.totalRevenue == s.totalRevenue + t.totalRevenue
      && s'.availableCars == s.availableCars
  {
    FilterAppend(rentals, suffix, IsActive);
    FilterAppend(rentals, suffix, IsCompleted);
    PriceSumAppend(Filter(rentals, IsCompleted), Filter(suffix, IsCompleted));
  }
}

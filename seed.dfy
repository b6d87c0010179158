/** How the store joins the built-in seed catalogue with the cars it finds in
    storage (store/rental-store.ts, loadData) and which cars it writes back
    (saveData). The catalogue itself is a parameter. */
module SeedCatalog {
  import opened CarTypes
  import opened Seqs

  function Ids(cars: seq<Car>): set<string>
  {
    set c | c in cars :: c.id
  }

  predicate DistinctIds(cars: seq<Car>)
  {
    forall i, j :: 0 <= i < j < |cars| ==> cars[i].id != cars[j].id
  }

  function CarIdIs(id: string): Car -> bool
  {
    (c: Car) => c.id == id
  }

  /** The position of the first car with this id, or -1: findIndex with an
      id test (FirstIndexOfIsFindIndex). That no earlier car has the id is
      stated by a lemma that proofs call where they need it. */
  function FirstIndexOf(all: seq<Car>, id: string): (k: int)
    ensures -1 <= k < |all|
    ensures 0 <= k ==> all[k].id == id
    decreases |all|
  {
    if all == [] then -1
    else if all[0].id == id then 0
    else
      var k := FirstIndexOf(all[1..], id);
      if k == -1 then -1 else k + 1
  }

  /** `all.filter((car, index, self) => index === self.findIndex(c => c.id === car.id))`
      restricted to the positions from `from` on. */
  function FirstOccurrencesFrom(all: seq<Car>, from: nat): seq<Car>
    decreases |all| - from
  {
    if from >= |all| then []
    else
      (if FirstIndexOf(all, all[from].id) == from then [all[from]] else [])
      + FirstOccurrencesFrom(all, from + 1)
  }

  function Dedup(all: seq<Car>): seq<Car>
  {
    FirstOccurrencesFrom(all, 0)
  }

  /** The car list after loadData: the catalogue, then the stored cars,
      keeping the first car seen for each id. */
  function MergeSeed(seed: seq<Car>, stored: seq<Car>): seq<Car>
  {
    Dedup(seed + stored)
  }

  function NotInSeed(seed: seq<Car>): Car -> bool
  {
    (c: Car) => c.id !in Ids(seed)
  }

  /** `cars.filter(car => !VIP_CARS.find(vipCar => vipCar.id === car.id))`:
      what saveData writes under "cars". */
  function CustomCars(seed: seq<Car>, cars: seq<Car>): (r: seq<Car>)
    ensures forall c :: c in r <==> c in cars && c.id !in Ids(seed)
  {
    FilterSound(cars, NotInSeed(seed));
    Filter(cars, NotInSeed(seed))
  }

  // ---------------------------------------------------------------------

  lemma {:induction false} FirstIndexOfIsFindIndex(all: seq<Car>, id: string)
    ensures FirstIndexOf(all, id) == IndexWhere(all, CarIdIs(id))
    decreases |all|
  {
    if all != [] && all[0].id != id {
      FirstIndexOfIsFindIndex(all[1..], id);
    }
  }

  lemma FirstIndexOfSpec(all: seq<Car>, id: string)
    ensures var k := FirstIndexOf(all, id);
      && -1 <= k < |all|
      && (0 <= k ==> all[k].id == id)
      && (forall j :: 0 <= j < |all| && (k == -1 || j < k) ==> all[j].id != id)
  {
    FirstIndexOfIsFindIndex(all, id);
    var k := FirstIndexOf(all, id);
    forall j | 0 <= j < |all| && (k == -1 || j < k) ensures all[j].id != id {
      assert !CarIdIs(id)(all[j]);
    }
  }

  lemma FirstIndexOfOccurrence(all: seq<Car>, i: int)
    requires 0 <= i < |all|
    ensures 0 <= FirstIndexOf(all, all[i].id) <= i
    ensures all[FirstIndexOf(all, all[i].id)].id == all[i].id
  {
    FirstIndexOfSpec(all, all[i].id);
  }

  /** A car is kept exactly when it sits at the first position of its id. */
  lemma {:induction false} FirstOccurrencesFromMembership(all: seq<Car>, from: nat, x: Car)
    ensures x in FirstOccurrencesFrom(all, from)
        <==> exists i :: from <= i < |all| && all[i] == x && FirstIndexOf(all, x.id) == i
    decreases |all| - from
  {
    if from < |all| {
      var rest := FirstOccurrencesFrom(all, from + 1);
      var keep := FirstIndexOf(all, all[from].id) == from;
      assert FirstOccurrencesFrom(all, from) == (if keep then [all[from]] else []) + rest;
      FirstOccurrencesFromMembership(all, from + 1, x);
      if x in FirstOccurrencesFrom(all, from) && x !in rest {
        assert keep && x == all[from];
      }
      if exists i :: from <= i < |all| && all[i] == x && FirstIndexOf(all, x.id) == i {
        var i :| from <= i < |all| && all[i] == x && FirstIndexOf(all, x.id) == i;
        if i != from {
          assert x in rest;
        }
      }
    }
  }

  /** Every car kept is the first car of its id in the input, and every id
      of the input survives. */
  lemma DedupMembership(all: seq<Car>, x: Car)
    ensures x in Dedup(all) <==> x in all && 0 <= FirstIndexOf(all, x.id) && all[FirstIndexOf(all, x.id)] == x
  {
    FirstOccurrencesFromMembership(all, 0, x);
    if x in all {
      var i :| 0 <= i < |all| && all[i] == x;
      FirstIndexOfOccurrence(all, i);
    }
  }

  lemma DedupKeepsIds(all: seq<Car>)
    ensures Ids(Dedup(all)) == Ids(all)
  {
    forall id | id in Ids(all) ensures id in Ids(Dedup(all)) {
      var c :| c in all && c.id == id;
      var i :| 0 <= i < |all| && all[i] == c;
      FirstIndexOfOccurrence(all, i);
      var first := all[FirstIndexOf(all, id)];
      DedupMembership(all, first);
    }
    forall id | id in Ids(Dedup(all)) ensures id in Ids(all) {
      var c :| c in Dedup(all) && c.id == id;
      DedupMembership(all, c);
    }
  }

  /** The kept cars have pairwise distinct ids. */
  lemma {:induction false} FirstOccurrencesFromDistinct(all: seq<Car>, from: nat)
    ensures DistinctIds(FirstOccurrencesFrom(all, from))
    decreases |all| - from
  {
    if from < |all| {
      var rest := FirstOccurrencesFrom(all, from + 1);
      FirstOccurrencesFromDistinct(all, from + 1);
      if FirstIndexOf(all, all[from].id) == from {
        forall c | c in rest ensures c.id != all[from].id {
          FirstOccurrencesFromMembership(all, from + 1, c);
        }
        var r := [all[from]] + rest;
        forall i, j | 0 <= i < j < |r| ensures r[i].id != r[j].id {
          if i == 0 {
            assert r[j] in rest;
          } else {
            assert r[i] == rest[i - 1] && r[j] == rest[j - 1];
          }
        }
      } else {
        assert FirstOccurrencesFrom(all, from) == rest;
      }
    }
  }

  lemma DedupDistinct(all: seq<Car>)
    ensures DistinctIds(Dedup(all))
  {
    FirstOccurrencesFromDistinct(all, 0);
  }

  /** When the ids are already distinct, nothing is dropped. */
  lemma {:induction false} FirstOccurrencesFromOfDistinct(all: seq<Car>, from: nat)
    requires DistinctIds(all)
    requires from <= |all|
    ensures FirstOccurrencesFrom(all, from) == all[from..]
    decreases |all| - from
  {
    if from < |all| {
      FirstOccurrencesFromOfDistinct(all, from + 1);
      FirstIndexOfOccurrence(all, from);
      assert all[from..] == [all[from]] + all[from + 1..];
    }
  }

  lemma DedupOfDistinct(all: seq<Car>)
    requires DistinctIds(all)
    ensures Dedup(all) == all
  {
    FirstOccurrencesFromOfDistinct(all, 0);
  }

  /** A catalogue position is the first of its id when the catalogue's ids
      are distinct. */
  lemma SeedPositionIsFirst(seed: seq<Car>, stored: seq<Car>, i: int)
    requires DistinctIds(seed)
    requires 0 <= i < |seed|
    ensures FirstIndexOf(seed + stored, (seed + stored)[i].id) == i
  {
    var all := seed + stored;
    var k := FirstIndexOf(all, all[i].id);
    FirstIndexOfOccurrence(all, i);
    assert all[k] == seed[k] && all[i] == seed[i];
  }

  lemma FirstOccurrenceKept(all: seq<Car>, from: nat)
    requires from < |all| && FirstIndexOf(all, all[from].id) == from
    ensures FirstOccurrencesFrom(all, from) == [all[from]] + FirstOccurrencesFrom(all, from + 1)
  {
  }

  /** Positions that are each the first of their id are all kept. */
  lemma {:induction false} FirstOccurrencesSplit(all: seq<Car>, n: nat, from: nat)
    requires from <= n <= |all|
    requires forall i {:trigger FirstIndexOf(all, all[i].id)} :: from <= i < n ==> FirstIndexOf(all, all[i].id) == i
    ensures FirstOccurrencesFrom(all, from) == all[from..n] + FirstOccurrencesFrom(all, n)
    decreases n - from
  {
    if from < n {
      var tail := FirstOccurrencesFrom(all, n);
      calc {
        FirstOccurrencesFrom(all, from);
        { FirstOccurrenceKept(all, from); }
        [all[from]] + FirstOccurrencesFrom(all, from + 1);
        { FirstOccurrencesSplit(all, n, from + 1); }
        [all[from]] + (all[from + 1..n] + tail);
        ([all[from]] + all[from + 1..n]) + tail;
        { assert all[from..n] == [all[from]] + all[from + 1..n]; }
        all[from..n] + tail;
      }
    } else {
      assert all[from..n] == [];
    }
  }

  /** Where a car kept after the catalogue sits in the joined list. */
  lemma TailPosition(seed: seq<Car>, stored: seq<Car>, c: Car) returns (k: int)
    requires c in FirstOccurrencesFrom(seed + stored, |seed|)
    ensures |seed| <= k < |seed| + |stored|
    ensures (seed + stored)[k] == c && FirstIndexOf(seed + stored, c.id) == k
  {
    FirstOccurrencesFromMembership(seed + stored, |seed|, c);
    k :| |seed| <= k < |seed + stored| && (seed + stored)[k] == c && FirstIndexOf(seed + stored, c.id) == k;
  }

  /** A car kept after the catalogue is a stored car whose id no catalogue
      car has. */
  lemma MergedTailElement(seed: seq<Car>, stored: seq<Car>, c: Car)
    requires c in FirstOccurrencesFrom(seed + stored, |seed|)
    ensures c.id !in Ids(seed) && c in stored
  {
    var all := seed + stored;
    var k := TailPosition(seed, stored, c);
    assert c == stored[k - |seed|] by {
      assert all[k] == stored[k - |seed|];
    }
    forall m | 0 <= m < |seed| ensures seed[m].id != c.id {
      BeforeFirstIndex(all, c.id, m);
      assert all[m] == seed[m];
    }
    IdAbsent(seed, c.id);
  }

  lemma BeforeFirstIndex(all: seq<Car>, id: string, j: int)
    requires 0 <= j < FirstIndexOf(all, id)
    ensures all[j].id != id
  {
    FirstIndexOfSpec(all, id);
  }

  lemma IdAbsent(cars: seq<Car>, id: string)
    requires forall m :: 0 <= m < |cars| ==> cars[m].id != id
    ensures id !in Ids(cars)
  {
  }

  /** The merged list begins with the whole catalogue (when its ids are
      distinct), then holds only stored cars whose id is not a catalogue id:
      a stored car that collides with a catalogue car is dropped. The merged
      ids are pairwise distinct and are exactly the ids seen. */
  lemma MergeSeedShape(seed: seq<Car>, stored: seq<Car>)
    requires DistinctIds(seed)
    ensures var merged := MergeSeed(seed, stored);
      && |seed| <= |merged|
      && merged[..|seed|] == seed
      && (forall i :: |seed| <= i < |merged| ==> merged[i].id !in Ids(seed) && merged[i] in stored)
      && DistinctIds(merged)
      && Ids(merged) == Ids(seed) + Ids(stored)
  {
    var all := seed + stored;
    var merged := MergeSeed(seed, stored);
    var tail := FirstOccurrencesFrom(all, |seed|);
    assert merged == seed + tail by {
      forall i | 0 <= i < |seed| ensures FirstIndexOf(all, all[i].id) == i {
        SeedPositionIsFirst(seed, stored, i);
      }
      FirstOccurrencesSplit(all, |seed|, 0);
      assert all[0..|seed|] == seed;
    }
    forall i | |seed| <= i < |merged| ensures merged[i].id !in Ids(seed) && merged[i] in stored {
      assert merged[i] == tail[i - |seed|];
      MergedTailElement(seed, stored, merged[i]);
    }
    DedupDistinct(all);
    DedupKeepsIds(all);
    assert Ids(all) == Ids(seed) + Ids(stored);
  }

  /** Saving writes only the non-catalogue cars; loading them back gives
      the catalogue followed by exactly those cars. */
  lemma SaveLoadRoundTrip(seed: seq<Car>, cars: seq<Car>)
    requires DistinctIds(seed)
    requires DistinctIds(cars)
    ensures MergeSeed(seed, CustomCars(seed, cars)) == seed + CustomCars(seed, cars)
  {
    var custom := CustomCars(seed, cars);
    CustomCarsDistinct(seed, cars);
    var all := seed + custom;
    forall i, j | 0 <= i < j < |all| ensures all[i].id != all[j].id {
      if j < |seed| {
      } else if i >= |seed| {
        assert all[i] == custom[i - |seed|] && all[j] == custom[j - |seed|];
      } else {
        assert all[j] in custom;
        assert all[i] in seed;
      }
    }
    DedupOfDistinct(all);
  }

  lemma {:induction false} CustomCarsDistinct(seed: seq<Car>, cars: seq<Car>)
    requires DistinctIds(cars)
    ensures DistinctIds(CustomCars(seed, cars))
  {
    FilterKeepsDistinct(cars, NotInSeed(seed));
  }

  lemma {:induction false} FilterKeepsDistinct(cars: seq<Car>, p: Car -> bool)
    requires DistinctIds(cars)
    ensures DistinctIds(Filter(cars, p))
  {
    if cars != [] {
      var rest := Filter(cars[1..], p);
      FilterKeepsDistinct(cars[1..], p);
      FilterSound(cars[1..], p);
      if p(cars[0]) {
        var r := [cars[0]] + rest;
        forall c | c in rest ensures c.id != cars[0].id {
          var k :| 0 <= k < |cars[1..]| && cars[1..][k] == c;
          assert cars[k + 1] == c;
        }
        forall i, j | 0 <= i < j < |r| ensures r[i].id != r[j].id {
          if i == 0 {
            assert r[j] in rest;
          } else {
            assert r[i] == rest[i - 1] && r[j] == rest[j - 1];
          }
        }
      }
    }
  }

  /** A car added at run time, whose id is neither a catalogue id nor the id
      of an earlier car, is saved and found again after a restart. */
  lemma AddedCarSurvivesRestart(seed: seq<Car>, cars: seq<Car>, car: Car)
    requires car.id !in Ids(seed)
    requires car.id !in Ids(cars)
    ensures car in MergeSeed(seed, CustomCars(seed, cars + [car]))
  {
    var custom := CustomCars(seed, cars + [car]);
    var all := seed + custom;
    assert car in custom;
    assert car in all;
    var k := FirstIndexOf(all, car.id);
    var i :| 0 <= i < |all| && all[i] == car;
    FirstIndexOfOccurrence(all, i);
    assert all[k] in custom;
    assert all[k] in cars + [car];
    if all[k] in cars {
      assert false;
    }
    DedupMembership(all, car);
  }
}

/**
 * The inventory: an ordered list of cars that `add_car` and `remove_car`
 * change in place, and the read-only queries over it (searches, totals,
 * statistics and sorts).
 *
 * The list holds references to cars, as the source's list does, so a car
 * updated after it was added is seen updated by every query. Queries are
 * stated over `Records()`, the value snapshot of the list, and return
 * snapshots.
 */
module Inventory {
  import opened Wrappers
  import opened Text
  import opened Cars
  import opened Sorting

  /** The value snapshots of a list of cars, in list order. */
  function Snapshot(cars: seq<Car>): (r: seq<CarRecord>)
    reads cars
    ensures |r| == |cars|
    ensures forall i :: 0 <= i < |cars| ==> r[i] == cars[i].Record()
  {
    if cars == [] then [] else [cars[0].Record()] + Snapshot(cars[1..])
  }

  // ---------------------------------------------------------------------------
  // Removal by (make, model, year)

  /** The exact, case-sensitive key that `remove_car` compares. */
  predicate IsKeyMatch(c: CarRecord, make: string, model: string, year: int) {
    c.make == make && c.model == model && c.year == year
  }

  /** The position of the first car with the given key, if there is one. */
  function FirstMatch(rs: seq<CarRecord>, make: string, model: string, year: int): (r: Option<nat>)
    ensures r.Some? ==> r.value < |rs| && IsKeyMatch(rs[r.value], make, model, year)
    ensures r.Some? ==> forall j :: 0 <= j < r.value ==> !IsKeyMatch(rs[j], make, model, year)
    ensures r.None? <==> forall j :: 0 <= j < |rs| ==> !IsKeyMatch(rs[j], make, model, year)
  {
    if rs == [] then None
    else if IsKeyMatch(rs[0], make, model, year) then Some(0)
    else match FirstMatch(rs[1..], make, model, year)
      case None => None
      case Some(i) => Some(i + 1)
  }

  /** The list without its element at position `i`; the others keep their relative order. */
  function RemoveAt<T>(s: seq<T>, i: nat): (r: seq<T>)
    requires i < |s|
    ensures |r| == |s| - 1
    ensures forall j :: 0 <= j < i ==> r[j] == s[j]
    ensures forall j :: i <= j < |r| ==> r[j] == s[j + 1]
  {
    s[..i] + s[i + 1..]
  }

  /**
   * When a single car has the key, removing it leaves none: a second
   * `remove_car` with the same key finds nothing.
   */
  lemma RemovingTheOnlyMatchLeavesNone(rs: seq<CarRecord>, i: nat, make: string, model: string, year: int)
    requires i < |rs| && IsKeyMatch(rs[i], make, model, year)
    requires forall j :: 0 <= j < |rs| && j != i ==> !IsKeyMatch(rs[j], make, model, year)
    ensures FirstMatch(RemoveAt(rs, i), make, model, year) == None
  {
    var r := RemoveAt(rs, i);
    forall j | 0 <= j < |r|
      ensures !IsKeyMatch(r[j], make, model, year)
    {
      if j >= i {
        assert r[j] == rs[j + 1];
      }
    }
  }

  /** Snapshots follow the list through the removal of one element. */
  lemma SnapshotRemoveAt(cars: seq<Car>, i: nat)
    requires i < |cars|
    ensures Snapshot(RemoveAt(cars, i)) == RemoveAt(Snapshot(cars), i)
  {
    var a, b := Snapshot(RemoveAt(cars, i)), RemoveAt(Snapshot(cars), i);
    assert |a| == |b|;
    forall j | 0 <= j < |a|
      ensures a[j] == b[j]
    {
      if j >= i {
        assert RemoveAt(cars, i)[j] == cars[j + 1];
      }
    }
  }

  // ---------------------------------------------------------------------------
  // Searches

  /** The four search filters: make and model ignore case, the ranges include both bounds. */
  datatype Criterion =
    | MakeIs(make: string)
    | ModelIs(model: string)
    | YearBetween(minYear: int, maxYear: int)
    | PriceBetween(minPrice: real, maxPrice: real)

  predicate Meets(c: CarRecord, criterion: Criterion) {
    match criterion
    case MakeIs(make) => EqualsIgnoreCase(c.make, make)
    case ModelIs(model) => EqualsIgnoreCase(c.model, model)
    case YearBetween(minYear, maxYear) => minYear <= c.year <= maxYear
    case PriceBetween(minPrice, maxPrice) => minPrice <= c.price <= maxPrice
  }

  /** `r` is `s` with some elements left out and the rest in their order. */
  predicate IsSubsequence<T(==)>(r: seq<T>, s: seq<T>)
    decreases |s|
  {
    r == [] || (s != [] && ((r[0] == s[0] && IsSubsequence(r[1..], s[1..])) || IsSubsequence(r, s[1..])))
  }

  /**
   * The list comprehension `[car for car in inventory if ...]`: the cars that
   * meet the criterion, each as often as in `rs`, in their order in `rs`.
   */
  function Select(rs: seq<CarRecord>, criterion: Criterion): seq<CarRecord> {
    if rs == [] then []
    else if Meets(rs[0], criterion) then [rs[0]] + Select(rs[1..], criterion)
    else Select(rs[1..], criterion)
  }

  /** A search result is drawn from the inventory in its stored order. */
  lemma {:induction false} SelectIsSubsequence(rs: seq<CarRecord>, criterion: Criterion)
    ensures IsSubsequence(Select(rs, criterion), rs)
    decreases |rs|
  {
    if rs != [] {
      SelectIsSubsequence(rs[1..], criterion);
      var rest := Select(rs[1..], criterion);
      if Meets(rs[0], criterion) {
        assert ([rs[0]] + rest)[1..] == rest;
      }
    }
  }

  /** Every car that meets the criterion is kept, as often as it occurs; no other car is. */
  lemma {:induction false} SelectCounts(rs: seq<CarRecord>, criterion: Criterion)
    ensures forall c :: multiset(Select(rs, criterion))[c] == if Meets(c, criterion) then multiset(rs)[c] else 0
  {
    if rs != [] {
      SelectCounts(rs[1..], criterion);
      assert rs == [rs[0]] + rs[1..];
    }
  }

  /** A car appended to the inventory is appended to every search result it meets. */
  lemma {:induction false} SelectAppend(a: seq<CarRecord>, b: seq<CarRecord>, criterion: Criterion)
    ensures Select(a + b, criterion) == Select(a, criterion) + Select(b, criterion)
  {
    if a != [] {
      var ab := a + b;
      assert ab[0] == a[0] && ab[1..] == a[1..] + b;
      SelectAppend(a[1..], b, criterion);
      if Meets(a[0], criterion) {
        calc {
          Select(ab, criterion);
          [a[0]] + Select(a[1..] + b, criterion);
          [a[0]] + (Select(a[1..], criterion) + Select(b, criterion));
          ([a[0]] + Select(a[1..], criterion)) + Select(b, criterion);
        }
      }
    } else {
      assert a + b == b;
    }
  }

  /** A car that meets the criterion is found; one that does not is never returned. */
  lemma SelectMembership(rs: seq<CarRecord>, criterion: Criterion, c: CarRecord)
    ensures c in Select(rs, criterion) <==> c in rs && Meets(c, criterion)
  {
    var r := Select(rs, criterion);
    SelectCounts(rs, criterion);
    assert c in r <==> multiset(r)[c] > 0;
    assert c in rs <==> multiset(rs)[c] > 0;
  }

  /** A range whose lower bound exceeds its upper bound finds nothing. */
  lemma EmptyRangeFindsNothing(rs: seq<CarRecord>, criterion: Criterion)
    requires criterion.YearBetween? ==> criterion.maxYear < criterion.minYear
    requires criterion.PriceBetween? ==> criterion.maxPrice < criterion.minPrice
    requires criterion.YearBetween? || criterion.PriceBetween?
    ensures Select(rs, criterion) == []
  {
    var r := Select(rs, criterion);
    SelectCounts(rs, criterion);
    assert forall c :: !Meets(c, criterion);
    assert multiset(r) == multiset{};
  }

  // ---------------------------------------------------------------------------
  // Totals and averages

  function Sum(xs: seq<real>): real {
    if xs == [] then 0.0 else xs[0] + Sum(xs[1..])
  }

  lemma {:induction false} SumAppend(a: seq<real>, b: seq<real>)
    ensures Sum(a + b) == Sum(a) + Sum(b)
  {
    if a != [] {
      assert (a + b)[0] == a[0] && (a + b)[1..] == a[1..] + b;
      SumAppend(a[1..], b);
    } else {
      assert a + b == b;
    }
  }

  /** A sum of values between `lo` and `hi` lies between |xs|*lo and |xs|*hi. */
  lemma {:induction false} SumBounds(xs: seq<real>, lo: real, hi: real)
    requires forall i :: 0 <= i < |xs| ==> lo <= xs[i] <= hi
    ensures |xs| as real * lo <= Sum(xs) <= |xs| as real * hi
  {
    if xs != [] {
      SumBounds(xs[1..], lo, hi);
    }
  }

  /** The arithmetic mean, 0 for an empty list. */
  function Mean(xs: seq<real>): (r: real)
    ensures xs == [] ==> r == 0.0
    ensures xs != [] ==> r * |xs| as real == Sum(xs)
  {
    if xs == [] then 0.0 else Sum(xs) / |xs| as real
  }

  lemma ScaleStrictlyMonotone(p: real, x: real, y: real)
    requires 0.0 < p && x < y
    ensures p * x < p * y
  {
    assert p * y - p * x == p * (y - x);
  }

  /** A sum of non-negative values is non-negative. */
  lemma {:induction false} SumNonNegative(xs: seq<real>)
    requires forall i :: 0 <= i < |xs| ==> 0.0 <= xs[i]
    ensures 0.0 <= Sum(xs)
  {
    if xs != [] {
      SumNonNegative(xs[1..]);
    }
  }

  /** The mean of values between `lo` and `hi` lies between them. */
  lemma MeanBounds(xs: seq<real>, lo: real, hi: real)
    requires xs != []
    requires forall i :: 0 <= i < |xs| ==> lo <= xs[i] <= hi
    ensures lo <= Mean(xs) <= hi
  {
    SumBounds(xs, lo, hi);
    var n := |xs| as real;
    var m := Mean(xs);
    if m < lo {
      ScaleStrictlyMonotone(n, m, lo);
    }
    if hi < m {
      ScaleStrictlyMonotone(n, hi, m);
    }
  }

  function Prices(rs: seq<CarRecord>): (r: seq<real>)
    ensures |r| == |rs| && forall i :: 0 <= i < |rs| ==> r[i] == rs[i].price
  {
    seq(|rs|, i requires 0 <= i < |rs| => rs[i].price)
  }

  function Mileages(rs: seq<CarRecord>): (r: seq<real>)
    ensures |r| == |rs| && forall i :: 0 <= i < |rs| ==> r[i] == rs[i].mileage
  {
    seq(|rs|, i requires 0 <= i < |rs| => rs[i].mileage)
  }

  function Ages(rs: seq<CarRecord>, currentYear: int): (r: seq<real>)
    ensures |r| == |rs| && forall i :: 0 <= i < |rs| ==> r[i] == Age(rs[i].year, currentYear) as real
  {
    seq(|rs|, i requires 0 <= i < |rs| => Age(rs[i].year, currentYear) as real)
  }

  /** Adding a car adds its price to the total value. */
  lemma TotalValueAppend(rs: seq<CarRecord>, c: CarRecord)
    ensures Sum(Prices(rs + [c])) == Sum(Prices(rs)) + c.price
  {
    assert Prices(rs + [c]) == Prices(rs) + [c.price];
    SumAppend(Prices(rs), [c.price]);
  }

  /** Removing a car takes its price off the total value. */
  lemma TotalValueRemoveAt(rs: seq<CarRecord>, i: nat)
    requires i < |rs|
    ensures Sum(Prices(RemoveAt(rs, i))) == Sum(Prices(rs)) - rs[i].price
  {
    var ps := Prices(rs);
    assert Prices(RemoveAt(rs, i)) == ps[..i] + ps[i + 1..];
    assert ps == ps[..i] + [ps[i]] + ps[i + 1..];
    SumAppend(ps[..i] + [ps[i]], ps[i + 1..]);
    SumAppend(ps[..i], [ps[i]]);
    SumAppend(ps[..i], ps[i + 1..]);
  }

  /** The distinct values of a field: a Python `set(...)` over the inventory. */
  function Makes(rs: seq<CarRecord>): (r: set<string>)
    ensures forall m :: m in r <==> exists i :: 0 <= i < |rs| && rs[i].make == m
  {
    set i | 0 <= i < |rs| :: rs[i].make
  }

  function Colors(rs: seq<CarRecord>): (r: set<string>)
    ensures forall m :: m in r <==> exists i :: 0 <= i < |rs| && rs[i].color == m
  {
    set i | 0 <= i < |rs| :: rs[i].color
  }

  /**
   * The summary `get_statistics` returns, unrounded. An empty inventory has
   * no `makes` and `colors` entries at all, hence the options.
   */
  datatype Statistics = Statistics(
    totalCars: nat,
    totalValue: real,
    averagePrice: real,
    averageAge: real,
    averageMileage: real,
    makes: Option<set<string>>,
    colors: Option<set<string>>)

  function InventoryStatistics(rs: seq<CarRecord>, currentYear: int): (r: Statistics)
    ensures rs == [] ==> r == Statistics(0, 0.0, 0.0, 0.0, 0.0, None, None)
    ensures rs != [] ==> r.totalCars == |rs| && r.totalValue == Sum(Prices(rs))
    ensures rs != [] ==> r.averagePrice * |rs| as real == r.totalValue
    ensures rs != [] ==> r.averageAge * |rs| as real == Sum(Ages(rs, currentYear))
    ensures rs != [] ==> r.averageMileage * |rs| as real == Sum(Mileages(rs))
    ensures rs != [] ==> r.makes.Some? && forall m :: m in r.makes.value <==> exists i :: 0 <= i < |rs| && rs[i].make == m
    ensures rs != [] ==> r.colors.Some? && forall m :: m in r.colors.value <==> exists i :: 0 <= i < |rs| && rs[i].color == m
  {
    if rs == [] then Statistics(0, 0.0, 0.0, 0.0, 0.0, None, None)
    else Statistics(|rs|, Sum(Prices(rs)), Mean(Prices(rs)), Mean(Ages(rs, currentYear)),
                    Mean(Mileages(rs)), Some(Makes(rs)), Some(Colors(rs)))
  }

  // ---------------------------------------------------------------------------
  // The manager

  /** The inventory: the cars in the order they were added. */
  class CarManager {
    var inventory: seq<Car>

    /** A new manager has an empty inventory. */
    constructor ()
      ensures inventory == []
    {
      inventory := [];
    }

    /** The current field values of the stored cars, in stored order. */
    function Records(): (r: seq<CarRecord>)
      reads this, inventory
      ensures |r| == |inventory|
    {
      Snapshot(inventory)
    }

    /** Appends the car; the cars already stored keep their order. */
    method AddCar(car: Car)
      modifies this
      ensures inventory == old(inventory) + [car]
      ensures Records() == old(Records()) + [car.Record()]
      ensures GetTotalInventoryValue() == old(GetTotalInventoryValue()) + car.price
    {
      inventory := inventory + [car];
      assert Records()[..|Records()| - 1] == old(Records());
      TotalValueAppend(old(Records()), car.Record());
    }

    /**
     * Removes the first car whose make, model and year equal the arguments
     * exactly and reports whether there was one; otherwise nothing changes.
     */
    method RemoveCar(make: string, model: string, year: int) returns (removed: bool)
      modifies this
      ensures removed <==> FirstMatch(old(Records()), make, model, year).Some?
      ensures !removed ==> inventory == old(inventory)
      ensures removed ==> var i := FirstMatch(old(Records()), make, model, year).value;
        inventory == RemoveAt(old(inventory), i) && Records() == RemoveAt(old(Records()), i)
      ensures removed ==> var i := FirstMatch(old(Records()), make, model, year).value;
        GetTotalInventoryValue() == old(GetTotalInventoryValue()) - old(Records())[i].price
    {
      for i := 0 to |inventory|
        invariant inventory == old(inventory)
        invariant forall j :: 0 <= j < i ==> !IsKeyMatch(Records()[j], make, model, year)
      {
        var car := inventory[i];
        if car.make == make && car.model == model && car.year == year {
          assert IsKeyMatch(Records()[i], make, model, year);
          SnapshotRemoveAt(inventory, i);
          TotalValueRemoveAt(Records(), i);
          inventory := RemoveAt(inventory, i);
          return true;
        }
      }
      return false;
    }

    /** The stored list itself, in stored order. */
    function GetAllCars(): (r: seq<Car>)
      reads this
      ensures |r| == GetCarCount()
      ensures forall i :: 0 <= i < |r| ==> r[i] == inventory[i]
    {
      inventory
    }

    function GetCarCount(): (r: nat)
      reads this
      ensures r == |inventory|
    {
      |inventory|
    }

    /** The cars whose make equals `make` ignoring case, in stored order. */
    function SearchByMake(make: string): (r: seq<CarRecord>)
      reads this, inventory
      ensures IsSubsequence(r, Records())
      ensures forall c :: c in r <==> c in Records() && EqualsIgnoreCase(c.make, make)
      ensures forall c :: multiset(r)[c] == if EqualsIgnoreCase(c.make, make) then multiset(Records())[c] else 0
    {
      var r := Select(Records(), MakeIs(make));
      SelectIsSubsequence(Records(), MakeIs(make));
      SelectCounts(Records(), MakeIs(make));
      assert forall c :: c in r <==> c in Records() && Meets(c, MakeIs(make)) by {
        forall c { SelectMembership(Records(), MakeIs(make), c); }
      }
      r
    }

    /** The cars whose model equals `model` ignoring case, in stored order. */
    function SearchByModel(model: string): (r: seq<CarRecord>)
      reads this, inventory
      ensures IsSubsequence(r, Records())
      ensures forall c :: c in r <==> c in Records() && EqualsIgnoreCase(c.model, model)
      ensures forall c :: multiset(r)[c] == if EqualsIgnoreCase(c.model, model) then multiset(Records())[c] else 0
    {
      var r := Select(Records(), ModelIs(model));
      SelectIsSubsequence(Records(), ModelIs(model));
      SelectCounts(Records(), ModelIs(model));
      assert forall c :: c in r <==> c in Records() && Meets(c, ModelIs(model)) by {
        forall c { SelectMembership(Records(), ModelIs(model), c); }
      }
      r
    }

    /** The cars with `minYear <= year <= maxYear`, in stored order. */
    function SearchByYearRange(minYear: int, maxYear: int): (r: seq<CarRecord>)
      reads this, inventory
      ensures IsSubsequence(r, Records())
      ensures forall c :: c in r <==> c in Records() && minYear <= c.year <= maxYear
      ensures forall c :: multiset(r)[c] == if minYear <= c.year <= maxYear then multiset(Records())[c] else 0
      ensures maxYear < minYear ==> r == []
    {
      var r := Select(Records(), YearBetween(minYear, maxYear));
      SelectIsSubsequence(Records(), YearBetween(minYear, maxYear));
      SelectCounts(Records(), YearBetween(minYear, maxYear));
      assert forall c :: c in r <==> c in Records() && Meets(c, YearBetween(minYear, maxYear)) by {
        forall c { SelectMembership(Records(), YearBetween(minYear, maxYear), c); }
      }
      assert maxYear < minYear ==> r == [] by {
        if maxYear < minYear { EmptyRangeFindsNothing(Records(), YearBetween(minYear, maxYear)); }
      }
      r
    }

    /** The cars with `minPrice <= price <= maxPrice`, in stored order. */
    function SearchByPriceRange(minPrice: real, maxPrice: real): (r: seq<CarRecord>)
      reads this, inventory
      ensures IsSubsequence(r, Records())
      ensures forall c :: c in r <==> c in Records() && minPrice <= c.price <= maxPrice
      ensures forall c :: multiset(r)[c] == if minPrice <= c.price <= maxPrice then multiset(Records())[c] else 0
      ensures maxPrice < minPrice ==> r == []
    {
      var r := Select(Records(), PriceBetween(minPrice, maxPrice));
      SelectIsSubsequence(Records(), PriceBetween(minPrice, maxPrice));
      SelectCounts(Records(), PriceBetween(minPrice, maxPrice));
      assert forall c :: c in r <==> c in Records() && Meets(c, PriceBetween(minPrice, maxPrice)) by {
        forall c { SelectMembership(Records(), PriceBetween(minPrice, maxPrice), c); }
      }
      assert maxPrice < minPrice ==> r == [] by {
        if maxPrice < minPrice { EmptyRangeFindsNothing(Records(), PriceBetween(minPrice, maxPrice)); }
      }
      r
    }

    /** The sum of the stored prices, 0 for an empty inventory. */
    function GetTotalInventoryValue(): (r: real)
      reads this, inventory
      ensures inventory == [] ==> r == 0.0
      ensures (forall i :: 0 <= i < |inventory| ==> 0.0 <= inventory[i].price) ==> 0.0 <= r
    {
      assert (forall i :: 0 <= i < |inventory| ==> 0.0 <= inventory[i].price) ==> 0.0 <= Sum(Prices(Records())) by {
        if forall i :: 0 <= i < |inventory| ==> 0.0 <= inventory[i].price {
          SumNonNegative(Prices(Records()));
        }
      }
      Sum(Prices(Records()))
    }

    /** The total value divided by the number of cars, 0 for an empty inventory. */
    function GetAveragePrice(): (r: real)
      reads this, inventory
      ensures inventory == [] ==> r == 0.0
      ensures inventory != [] ==> r * |inventory| as real == GetTotalInventoryValue()
    {
      Mean(Prices(Records()))
    }

    /** The summary of the inventory; its totals agree with the other queries. */
    function GetStatistics(currentYear: int): (r: Statistics)
      reads this, inventory
      ensures inventory == [] ==> r == Statistics(0, 0.0, 0.0, 0.0, 0.0, None, None)
      ensures inventory != [] ==> r.totalCars == GetCarCount() && r.totalValue == GetTotalInventoryValue()
      ensures inventory != [] ==> r.averagePrice == GetAveragePrice()
      ensures inventory != [] ==> r.averageAge == Mean(Ages(Records(), currentYear))
      ensures inventory != [] ==> r.averageMileage == Mean(Mileages(Records()))
      ensures inventory != [] ==> r.makes.Some?
      ensures inventory != [] && r.makes.Some? ==>
        forall m :: m in r.makes.value <==> exists i :: 0 <= i < |inventory| && inventory[i].make == m
      ensures inventory != [] ==> r.colors.Some?
      ensures inventory != [] && r.colors.Some? ==>
        forall m :: m in r.colors.value <==> exists i :: 0 <= i < |inventory| && inventory[i].color == m
    {
      var rs := Records();
      assert |rs| == |inventory|;
      assert forall i :: 0 <= i < |rs| ==> rs[i].make == inventory[i].make && rs[i].color == inventory[i].color;
      InventoryStatistics(rs, currentYear)
    }

    /** A new list: the cars ordered by price; equal prices keep their stored order. */
    function SortByPrice(ascending: bool := true): (r: seq<CarRecord>)
      reads this, inventory
      ensures multiset(r) == multiset(Records())
      ensures forall i, j :: 0 <= i < j < |r| ==>
        if ascending then r[i].price <= r[j].price else r[j].price <= r[i].price
      ensures Stable(r, Records(), ByPrice)
    {
      var r := SortBy(Records(), ByPrice, ascending);
      SortByCorrect(Records(), ByPrice, ascending);
      assert forall i, j :: 0 <= i < j < |r| ==>
        InOrder(KeyOf(r[i], ByPrice), KeyOf(r[j], ByPrice), ascending);
      r
    }

    /** A new list: the cars ordered by year; equal years keep their stored order. */
    function SortByYear(ascending: bool := true): (r: seq<CarRecord>)
      reads this, inventory
      ensures multiset(r) == multiset(Records())
      ensures forall i, j :: 0 <= i < j < |r| ==>
        if ascending then r[i].year <= r[j].year else r[j].year <= r[i].year
      ensures Stable(r, Records(), ByYear)
    {
      var r := SortBy(Records(), ByYear, ascending);
      SortByCorrect(Records(), ByYear, ascending);
      assert forall i, j :: 0 <= i < j < |r| ==>
        InOrder(KeyOf(r[i], ByYear), KeyOf(r[j], ByYear), ascending);
      r
    }

    /** A new list: the cars ordered by mileage; equal mileages keep their stored order. */
    function SortByMileage(ascending: bool := true): (r: seq<CarRecord>)
      reads this, inventory
      ensures multiset(r) == multiset(Records())
      ensures forall i, j :: 0 <= i < j < |r| ==>
        if ascending then r[i].mileage <= r[j].mileage else r[j].mileage <= r[i].mileage
      ensures Stable(r, Records(), ByMileage)
    {
      var r := SortBy(Records(), ByMileage, ascending);
      SortByCorrect(Records(), ByMileage, ascending);
      assert forall i, j :: 0 <= i < j < |r| ==>
        InOrder(KeyOf(r[i], ByMileage), KeyOf(r[j], ByMileage), ascending);
      r
    }
  }
}

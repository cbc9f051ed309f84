/**
 * The inventory exercised on the three cars of the repository's test script
 * (test_cars.py): a Toyota Camry 2020 at 25000, a Honda Civic 2021 at 22000
 * and a Ford Mustang 2019 at 35000. Everything below follows from the
 * model's definitions and contracts.
 */
module Scenarios {
  import opened Wrappers
  import opened Cars
  import opened Sorting
  import opened Inventory

  function Camry(): CarRecord {
    CarRecord("Toyota", "Camry", 2020, "Silver", 25000.0, 35000.0, None, [])
  }

  function Civic(): CarRecord {
    CarRecord("Honda", "Civic", 2021, "Blue", 22000.0, 25000.0, None, [])
  }

  function Mustang(): CarRecord {
    CarRecord("Ford", "Mustang", 2019, "Red", 35000.0, 45000.0, None, [])
  }

  /** Total 82000, average 82000 / 3, and the 2020-2025 search finds the Camry and the Civic. */
  lemma TestInventoryFigures()
    ensures Sum(Prices([Camry(), Civic(), Mustang()])) == 82000.0
    ensures Mean(Prices([Camry(), Civic(), Mustang()])) == 82000.0 / 3.0
    ensures Select([Camry(), Civic(), Mustang()], YearBetween(2020, 2025)) == [Camry(), Civic()]
  {
    var ps := Prices([Camry(), Civic(), Mustang()]);
    assert ps == [25000.0, 22000.0, 35000.0];
    assert ps[1..][1..] == [35000.0];
  }

  /** By price, ascending: Civic, Camry, Mustang. */
  lemma TestSortByPriceAscending()
    ensures SortBy([Camry(), Civic(), Mustang()], ByPrice, true) == [Civic(), Camry(), Mustang()]
  {
    SortByCons(Mustang(), [], ByPrice, true);
    SortByCons(Civic(), [Mustang()], ByPrice, true);
    InsertCons(Civic(), Mustang(), [], ByPrice, true);
    SortByCons(Camry(), [Civic(), Mustang()], ByPrice, true);
    InsertCons(Camry(), Civic(), [Mustang()], ByPrice, true);
    InsertCons(Camry(), Mustang(), [], ByPrice, true);
  }

  /** By price, descending: Mustang, Camry, Civic. */
  lemma TestSortByPriceDescending()
    ensures SortBy([Camry(), Civic(), Mustang()], ByPrice, false) == [Mustang(), Camry(), Civic()]
  {
    SortByCons(Mustang(), [], ByPrice, false);
    SortByCons(Civic(), [Mustang()], ByPrice, false);
    InsertCons(Civic(), Mustang(), [], ByPrice, false);
    SortByCons(Camry(), [Civic(), Mustang()], ByPrice, false);
    InsertCons(Camry(), Mustang(), [Civic()], ByPrice, false);
    InsertCons(Camry(), Civic(), [], ByPrice, false);
  }

  /** Removing the Camry succeeds once and then finds nothing; the count follows. */
  method RemoveTwice()
  {
    var m := new CarManager();
    var camry := new Car("Toyota", "Camry", 2020, "Silver", 25000.0, 35000.0);
    var civic := new Car("Honda", "Civic", 2021, "Blue", 22000.0, 25000.0);
    var mustang := new Car("Ford", "Mustang", 2019, "Red", 35000.0, 45000.0);
    m.AddCar(camry);
    m.AddCar(civic);
    m.AddCar(mustang);
    assert m.GetCarCount() == 3;
    assert m.Records() == [camry.Record(), civic.Record(), mustang.Record()];

    var removed := m.RemoveCar("Toyota", "Camry", 2020);
    assert removed;
    assert m.GetCarCount() == 2;
    assert m.Records() == [civic.Record(), mustang.Record()];

    removed := m.RemoveCar("Toyota", "Camry", 2020);
    assert !removed;
    assert m.GetCarCount() == 2;
  }

  /** A car bought in 2020 is six years old in 2026 and keeps exactly 10% of its price. */
  method DepreciationOfTestCar()
  {
    var camry := new Car("Toyota", "Camry", 2020, "Silver", 25000.0, 35000.0);
    assert camry.GetAge(2026) == 6;
    CurrentValueFloorReached(25000.0, 6, 35000.0);
    assert camry.GetDepreciation(2026) == 2500.0;
    var result := camry.UpdateMileage(30000.0);
    assert result.Fail? && camry.mileage == 35000.0;
    result := camry.UpdateMileage(35000.0);
    assert result.Pass?;
    camry.AddServiceRecord("2026-01-02 09:30:00", "Oil Change", 50.0, "Regular maintenance");
    assert camry.serviceHistory == [ServiceRecord("2026-01-02 09:30:00", "Oil Change", 50.0, "Regular maintenance", 35000.0)];
  }
}

# Car inventory — a verified model

This project models the in-memory core of a small car-inventory application:

- **`Car`** (`car.py`): a mutable record with these operations:
  - an odometer that refuses to go down;
  - an append-only service log stamped with the current mileage;
  - an owner setter;
  - two derived figures: the age and a depreciated value, which loses 15% per year and 0.05% per 1000 miles, capped at 90%.
- **`CarManager`** (`car_manager.py`): an ordered list of cars with these operations:
  - append;
  - removal of the first exact (make, model, year) match;
  - order-preserving searches;
  - total and average price;
  - a statistics summary;
  - three stable key sorts that return a new list.

Layout:

- `wrappers.dfy`: `Option` and `Outcome`.
- `text.dfy`: ASCII lower-casing, and the decimal rendering of an integer with its parser.
- `car.dfy` (module `Cars`): the `Car` class, its value snapshot `CarRecord`, and the depreciation arithmetic.
- `sorting.dfy` (module `Sorting`): a stable insertion sort. It is proved to return a permutation, to be ordered and to be stable. It is also proved to be the only list with those three properties.
- `car_manager.dfy` (module `Inventory`): the `CarManager` class.
  - It holds `seq<Car>`, i.e. references, as the Python list does.
  - Queries are stated over `Records()`, the value snapshot of the stored cars.
- `scenarios.dfy`: the three cars of the repository's test script, worked through the model.

Modelling decisions:

- Money, mileage and cost are `real`, so the formulas are exact.
- The current year is a parameter, and so is the date stamped on a service entry.
- A `ValueError` becomes `Fail(ValueError(message))` of an `Outcome`. The mileage is then left unchanged.

## Model

| member | source | states |
|---|---|---|
| Cars.Car.constructor | car.py:11-31 | every argument is stored unchanged, mileage defaults to 0, and a new car has no owner and an empty service history |
| Cars.Car.UpdateMileage | car.py:47-59 | fails with "New mileage cannot be less than current mileage" exactly when the new reading is below the current one, and then leaves the mileage alone; otherwise, equal readings included, the mileage becomes the new reading; only `mileage` may change |
| Cars.NextMileage | car.py:57-59 | the reading after one request is never below the current one and is either the current reading or the requested one |
| Cars.MileageAfterIsHighest | car.py:57-59 | after any series of update requests the reading is at least the start and every request, and is the start or one of the requests: it never went down |
| Cars.MileageAfterGrows | car.py:57-59 | replaying more of a series of requests never gives a lower reading |
| Cars.Car.AddServiceRecord | car.py:61-78 | the history grows by exactly one entry, earlier entries are untouched, and the new last entry has the given date, type, cost, description (default empty) and the car's current mileage; only the history may change |
| Cars.Car.SetOwner | car.py:80-82 | the owner becomes the given name whatever it was; only the owner may change |
| Cars.Age | car.py:42-45 | year + age == current year, with no clamping: the age is negative exactly when the car is dated after the current year |
| Cars.Car.GetAge | car.py:42-45 | the car's year plus its age is the current year |
| Cars.DepreciationRate | car.py:89-91 | the depreciated fraction never exceeds 0.9, and is non-negative when age and mileage are |
| Cars.RetainedFraction | car.py:92 | the retained fraction `1 - rate` is at least 0.1, and at most 1 when age and mileage are non-negative |
| Cars.CurrentValueBounds | car.py:84-92 | for a non-negative price the value is at least a tenth of the price, and at most the price when age and mileage are non-negative |
| Cars.DepreciationRateMonotone | car.py:89-91 | the rate does not decrease as age or mileage grows |
| Cars.CurrentValueMonotone | car.py:84-92 | for a non-negative price the value does not increase as age or mileage grows |
| Cars.CurrentValueFloorReached | car.py:89-92 | from six years of age on, with non-negative mileage, the cap applies and exactly a tenth of the price remains |
| Cars.Car.GetDepreciation | car.py:84-92 | the car's value is at least a tenth of a non-negative price, and at most the price once its year is not in the future and its mileage is non-negative |
| Cars.Car.ToDict | car.py:94-107 | the summary copies every stored field unchanged, its age added to the year gives the current year, and its value respects the 10% floor and the price ceiling |
| Cars.Car.ToString | car.py:33-35 | the text starts with the year's decimal rendering followed by a space, that prefix parses back to the year, and the text ends with `)` |
| Text.IntToStringRoundTrip | car.py:35 | the decimal rendering of any integer, as an f-string writes it, parses back to the same integer |
| Text.ToLower | car_manager.py:49 | lower-casing keeps the length and lower-cases each ASCII letter, leaving other characters alone |
| Text.ToLowerIdempotent | car_manager.py:49 | lower-casing twice is the same as lower-casing once |
| Inventory.CarManager.constructor | car_manager.py:12-14 | a new manager has an empty inventory |
| Inventory.CarManager.AddCar | car_manager.py:16-23 | the car is appended at the end, the earlier cars keep their order, and the total value grows by the car's price |
| Inventory.CarManager.RemoveCar | car_manager.py:25-41 | returns true exactly when some car has exactly that make, model and year; then the first such car is removed, the others keep their relative order, and the total value drops by its price; otherwise the inventory is unchanged |
| Inventory.FirstMatch | car_manager.py:37-40 | finds the position of the first car whose make, model and year all match exactly, with no match before it, and finds nothing exactly when no car matches |
| Inventory.RemoveAt | car_manager.py:39 | `pop(i)` shortens the list by one; the elements before `i` stay and the ones after move down by one |
| Inventory.RemovingTheOnlyMatchLeavesNone | car_manager.py:37-41 | once the only matching car is removed, a second removal with the same key finds nothing |
| Inventory.SnapshotRemoveAt | car_manager.py:39 | removing a car from the list removes its snapshot from the same position |
| Inventory.CarManager.GetAllCars | car_manager.py:43-45 | the stored list itself, in stored order, as long as the count |
| Inventory.CarManager.GetCarCount | car_manager.py:117-119 | the count is the inventory length |
| Inventory.SelectIsSubsequence | car_manager.py:47-61 | a filter's result is a subsequence of the inventory: it keeps the stored order |
| Inventory.SelectCounts | car_manager.py:47-61 | every car meeting the filter is kept as often as it occurs, and no other car is kept |
| Inventory.SelectMembership | car_manager.py:47-61 | a car is in the result exactly when it is in the inventory and meets the filter |
| Inventory.SelectAppend | car_manager.py:47-61 | filtering a concatenation is concatenating the filtered parts |
| Inventory.EmptyRangeFindsNothing | car_manager.py:55-61 | a year or price range whose minimum exceeds its maximum finds nothing |
| Inventory.CarManager.SearchByMake | car_manager.py:47-49 | the result keeps the stored order and holds exactly the cars whose make equals the argument ignoring case, each as often as it is stored |
| Inventory.CarManager.SearchByModel | car_manager.py:51-53 | the result keeps the stored order and holds exactly the cars whose model equals the argument ignoring case, each as often as it is stored |
| Inventory.CarManager.SearchByYearRange | car_manager.py:55-57 | the result keeps the stored order, holds exactly the cars with minimum <= year <= maximum, each as often as it is stored, and is empty when the minimum exceeds the maximum |
| Inventory.CarManager.SearchByPriceRange | car_manager.py:59-61 | the result keeps the stored order, holds exactly the cars with minimum <= price <= maximum, each as often as it is stored, and is empty when the minimum exceeds the maximum |
| Inventory.SumAppend | car_manager.py:65 | the sum of a concatenation is the sum of the parts |
| Inventory.SumBounds | car_manager.py:65 | a sum of values between lo and hi lies between n*lo and n*hi |
| Inventory.SumNonNegative | car_manager.py:65 | a sum of non-negative prices is non-negative |
| Inventory.Mean | car_manager.py:67-71 | the mean of an empty list is 0; otherwise the mean times the count is the sum |
| Inventory.MeanBounds | car_manager.py:67-71 | the mean of values between lo and hi lies between them |
| Inventory.TotalValueAppend | car_manager.py:63-65 | adding a car adds its price to the total value |
| Inventory.TotalValueRemoveAt | car_manager.py:63-65 | removing a car takes its price off the total value |
| Inventory.CarManager.GetTotalInventoryValue | car_manager.py:63-65 | the total of an empty inventory is 0, and the total of non-negative prices is non-negative |
| Inventory.CarManager.GetAveragePrice | car_manager.py:67-71 | the average of an empty inventory is 0; otherwise the average times the count is the total value |
| Inventory.Makes | car_manager.py:90 | the set of makes holds exactly the makes some stored car has |
| Inventory.Colors | car_manager.py:91 | the set of colors holds exactly the colors some stored car has |
| Inventory.InventoryStatistics | car_manager.py:73-92 | an empty inventory gives count 0 and zero totals and averages, with no makes or colors entries; otherwise the count, the total price, the averages of price, age and mileage, and the exact sets of makes and colors |
| Inventory.CarManager.GetStatistics | car_manager.py:73-92 | the summary's count, total value and average price agree with `GetCarCount`, `GetTotalInventoryValue` and `GetAveragePrice`; its average age and average mileage are the means of the cars' ages (from the current year) and mileages; its makes and colors are exactly those of the stored cars; an empty inventory gives zeros and no makes or colors |
| Sorting.WithKeyMembers | car_manager.py:94-104 | a key group holds exactly the cars of the list that have that key value |
| Sorting.InsertPermutes | car_manager.py:94-104 | inserting adds the one car and nothing else |
| Sorting.InsertSorted | car_manager.py:94-104 | inserting into an ordered list keeps it ordered in the requested direction |
| Sorting.InsertStable | car_manager.py:94-104 | inserting a car only moves it past cars of other key values |
| Sorting.SortedCons | car_manager.py:94-104 | a car that may precede every car of an ordered list can be put in front of it |
| Sorting.SortedUncons | car_manager.py:94-104 | the front car of an ordered list may precede every other car, and the rest is ordered |
| Sorting.WithKeyCons | car_manager.py:94-104 | the key group of a list with a car in front starts with that car exactly when the car has that key |
| Sorting.SortByPermutes | car_manager.py:94-104 | `sorted` returns a permutation of its input |
| Sorting.SortBySorted | car_manager.py:94-104 | `sorted` returns a list ordered by the key, ascending or, with `reverse`, descending |
| Sorting.SortByStable | car_manager.py:94-104 | `sorted` keeps the input order among cars of equal key, in both directions |
| Sorting.SortByCorrect | car_manager.py:94-104 | the sort's result is a permutation, ordered, and stable |
| Sorting.SortByCons | car_manager.py:94-104 | sorting a list with a car in front inserts that car into the sorted rest |
| Sorting.InsertCons | car_manager.py:94-104 | an inserted car passes a car exactly when its key is strictly out of order with that car's key |
| Sorting.HeadComesFirst | car_manager.py:94-104 | the first car of an ordered list may precede every car in it |
| Sorting.StableKeepsEmptiness | car_manager.py:94-104 | two lists with the same key groups are both empty or both non-empty |
| Sorting.SortedStableUnique | car_manager.py:94-104 | two lists that are both ordered and have the same key groups are equal: order plus stability determine the result |
| Sorting.SortByIsTheStableSort | car_manager.py:94-104 | any ordered list that keeps every key value's input order is the list the sort returns |
| Inventory.CarManager.SortByPrice | car_manager.py:94-96 | a permutation of the inventory ordered by price (descending when not ascending), with equal prices in stored order |
| Inventory.CarManager.SortByYear | car_manager.py:98-100 | a permutation of the inventory ordered by year (descending when not ascending), with equal years in stored order |
| Inventory.CarManager.SortByMileage | car_manager.py:102-104 | a permutation of the inventory ordered by mileage (descending when not ascending), with equal mileages in stored order |
| Scenarios.TestInventoryFigures | test_cars.py:40-44 | on the three test cars, the total value is 82000, the average is 82000/3, and the 2020-2025 search finds the Camry and the Civic |
| Scenarios.TestSortByPriceAscending | test_cars.py:40-44 | the test cars by ascending price are the Civic, then the Camry, then the Mustang |
| Scenarios.TestSortByPriceDescending | test_cars.py:40-44 | the test cars by descending price are the Mustang, then the Camry, then the Civic |

## Left out

- The Streamlit user interface in `app.py` is presentation only and is not part of this model.
- `export_to_json` (car_manager.py:106-115) writes a file through `json.dump`. This is I/O and is not modelled.
- `datetime.now()` is not modelled. The current year (car.py:44) and the service-record timestamp (car.py:72) are parameters, and the timestamp is an uninterpreted string.
- The `round(..., 2)` and `round(..., 1)` calls in `to_dict` and `get_statistics` are display rounding. They are not modelled: the model's figures are exact.
- Python floats are modelled as exact reals. IEEE rounding of the depreciation constants, NaN and infinities are not modelled.
- Text.ToLower: folds ASCII letters only, whereas Python's `str.lower()` folds all of Unicode.
- Search results, sort results and the statistics are value snapshots (`CarRecord`), whereas Python returns lists that share the `Car` objects. The model does not capture that a caller mutating a returned car changes the stored one.
- Inventory.CarManager.GetAllCars: returns the stored references as a `seq` value, whereas `get_all_cars` (car_manager.py:45) returns the live list object, so a caller's `append` or `pop` on it changes the inventory; that aliasing is not modelled.
- Cars.Car.ToDict: copies the service history as a `seq` value, whereas `to_dict` (car.py:106) returns the live `service_history` list, so appending to the returned list changes the car; that aliasing is not modelled.
- `__repr__` (car.py:37-40) only formats text for debugging and is not modelled.
- Cars.Car.ToString: states the year prefix and its round trip, not the layout of the make, model and color parts after it.
- `test_cars.py` only prints values and is not modelled as a test suite. Its three cars are used as worked examples in `scenarios.dfy`.

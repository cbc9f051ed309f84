/**
 * One vehicle of the inventory: its stored fields, the guarded odometer
 * update, the append-only service log, the owner setter and the two derived
 * figures (age and depreciated value).
 *
 * The clock is not read: the current year, and the date stamped on a
 * service entry, are parameters.
 */
module Cars {
  import opened Wrappers
  import opened Text

  /** One entry of the service log; `mileage` is the odometer reading when it was logged. */
  datatype ServiceRecord = ServiceRecord(
    date: string,
    serviceType: string,
    cost: real,
    description: string,
    mileage: real)

  /** A value snapshot of every stored field of a car. */
  datatype CarRecord = CarRecord(
    make: string,
    model: string,
    year: int,
    color: string,
    price: real,
    mileage: real,
    owner: Option<string>,
    serviceHistory: seq<ServiceRecord>)

  /** The summary a car exports: its stored fields plus its age and current value (unrounded). */
  datatype CarSummary = CarSummary(
    make: string,
    model: string,
    year: int,
    color: string,
    price: real,
    mileage: real,
    owner: Option<string>,
    age: int,
    currentValue: real,
    serviceHistory: seq<ServiceRecord>)

  /** The error raised when an odometer update would lower the reading. */
  datatype CarError = ValueError(message: string)

  const MileageRollbackMessage: string := "New mileage cannot be less than current mileage"

  /** Depreciation per year of age (15%). */
  const YearlyRate: real := 0.15
  /** Depreciation per 1000 miles on the odometer (0.05%). */
  const PerThousandMilesRate: real := 0.0005
  /** At most this fraction of the price is ever depreciated away. */
  const MaxDepreciation: real := 0.9

  /** Years since manufacture; negative for a car dated in the future (no clamping). */
  function Age(year: int, currentYear: int): (r: int)
    ensures year + r == currentYear
    ensures r < 0 <==> currentYear < year
    ensures r == 0 <==> currentYear == year
  {
    currentYear - year
  }

  /** The fraction of the price lost to age and mileage, capped at MaxDepreciation. */
  function DepreciationRate(age: int, mileage: real): (r: real)
    ensures r <= MaxDepreciation
    ensures 0 <= age && 0.0 <= mileage ==> 0.0 <= r
  {
    var uncapped := age as real * YearlyRate + (mileage / 1000.0) * PerThousandMilesRate;
    if uncapped < MaxDepreciation then uncapped else MaxDepreciation
  }

  /** The fraction of the price a car keeps: at least 10%, and at most all of it once age and mileage are non-negative. */
  function RetainedFraction(age: int, mileage: real): (r: real)
    ensures 1.0 - MaxDepreciation <= r
    ensures 0 <= age && 0.0 <= mileage ==> r <= 1.0
  {
    1.0 - DepreciationRate(age, mileage)
  }

  /** The depreciated value of a car bought at `price`. */
  function CurrentValue(price: real, age: int, mileage: real): (r: real)
  {
    price * RetainedFraction(age, mileage)
  }

  /** The value never falls below 10% of a non-negative price, and never exceeds the price once age and mileage are non-negative. */
  lemma CurrentValueBounds(price: real, age: int, mileage: real)
    ensures 0.0 <= price ==> price / 10.0 <= CurrentValue(price, age, mileage)
    ensures 0.0 <= price && 0 <= age && 0.0 <= mileage ==> CurrentValue(price, age, mileage) <= price
  {
    var kept := RetainedFraction(age, mileage);
    assert CurrentValue(price, age, mileage) == price * kept;
    if 0.0 <= price {
      ScaledBounds(price, kept);
    }
  }

  /** A non-negative amount scaled by a fraction between 10% and 100%. */
  lemma ScaledBounds(price: real, kept: real)
    requires 0.0 <= price && 0.1 <= kept
    ensures price / 10.0 <= price * kept
    ensures kept <= 1.0 ==> price * kept <= price
  {
    ScaleMonotone(price, 0.1, kept);
    if kept <= 1.0 { ScaleMonotone(price, kept, 1.0); }
  }

  /** Scaling by a non-negative factor keeps order. */
  lemma ScaleMonotone(p: real, x: real, y: real)
    requires 0.0 <= p && x <= y
    ensures p * x <= p * y
  {
    assert p * y - p * x == p * (y - x);
  }

  /** The rate never decreases as the car gets older or is driven further. */
  lemma DepreciationRateMonotone(age1: int, age2: int, mileage1: real, mileage2: real)
    requires age1 <= age2 && mileage1 <= mileage2
    ensures DepreciationRate(age1, mileage1) <= DepreciationRate(age2, mileage2)
  {
    assert age1 as real * YearlyRate <= age2 as real * YearlyRate;
    assert (mileage1 / 1000.0) * PerThousandMilesRate <= (mileage2 / 1000.0) * PerThousandMilesRate;
  }

  /** For a non-negative price the value never increases with age or mileage. */
  lemma CurrentValueMonotone(price: real, age1: int, age2: int, mileage1: real, mileage2: real)
    requires 0.0 <= price
    requires age1 <= age2 && mileage1 <= mileage2
    ensures CurrentValue(price, age2, mileage2) <= CurrentValue(price, age1, mileage1)
  {
    DepreciationRateMonotone(age1, age2, mileage1, mileage2);
    ScaleMonotone(price, RetainedFraction(age2, mileage2), RetainedFraction(age1, mileage1));
  }

  /** From six years of age on (with a non-negative odometer) the cap applies: 10% of the price remains. */
  lemma CurrentValueFloorReached(price: real, age: int, mileage: real)
    requires 6 <= age && 0.0 <= mileage
    ensures DepreciationRate(age, mileage) == MaxDepreciation
    ensures CurrentValue(price, age, mileage) == price / 10.0
  {
    assert age as real * YearlyRate >= 6.0 * YearlyRate;
  }

  /** The odometer reading after one update request: rejected requests leave it as it was. */
  function NextMileage(current: real, requested: real): (r: real)
    ensures current <= r
    ensures r == current || r == requested
  {
    if requested < current then current else requested
  }

  /** The odometer reading after a series of update requests, each accepted or rejected in turn. */
  function MileageAfter(start: real, requests: seq<real>): (r: real)
    decreases |requests|
  {
    if requests == [] then start
    else MileageAfter(NextMileage(start, requests[0]), requests[1..])
  }

  /**
   * Whatever the requests, the final reading is the highest of the starting
   * reading and every request: the odometer never goes down.
   */
  lemma {:induction false} MileageAfterIsHighest(start: real, requests: seq<real>)
    ensures start <= MileageAfter(start, requests)
    ensures forall i :: 0 <= i < |requests| ==> requests[i] <= MileageAfter(start, requests)
    ensures MileageAfter(start, requests) == start || MileageAfter(start, requests) in requests
    decreases |requests|
  {
    if requests != [] {
      var next := NextMileage(start, requests[0]);
      MileageAfterIsHighest(next, requests[1..]);
      forall i | 0 <= i < |requests|
        ensures requests[i] <= MileageAfter(start, requests)
      {
        if i > 0 {
          assert requests[i] == requests[1..][i - 1];
        }
      }
    }
  }

  /** Replaying more requests never yields a lower reading. */
  lemma {:induction false} MileageAfterGrows(start: real, requests: seq<real>, k: nat)
    requires k <= |requests|
    ensures MileageAfter(start, requests[..k]) <= MileageAfter(start, requests)
    decreases |requests|
  {
    if k == 0 {
      MileageAfterIsHighest(start, requests);
    } else {
      assert requests[..k][0] == requests[0];
      assert requests[..k][1..] == requests[1..][..k - 1];
      MileageAfterGrows(NextMileage(start, requests[0]), requests[1..], k - 1);
    }
  }

  /** A car whose fields the inventory's callers update in place. */
  class Car {
    var make: string
    var model: string
    var year: int
    var color: string
    var price: real
    var mileage: real
    var owner: Option<string>
    var serviceHistory: seq<ServiceRecord>

    /** Every argument is stored unchanged; a new car has no owner and no service history. */
    constructor (make: string, model: string, year: int, color: string, price: real, mileage: real := 0.0)
      ensures this.make == make && this.model == model && this.year == year
      ensures this.color == color && this.price == price && this.mileage == mileage
      ensures owner == None && serviceHistory == []
    {
      this.make := make;
      this.model := model;
      this.year := year;
      this.color := color;
      this.price := price;
      this.mileage := mileage;
      this.owner := None;
      this.serviceHistory := [];
    }

    /** The car's current field values. */
    function Record(): CarRecord
      reads this
    {
      CarRecord(make, model, year, color, price, mileage, owner, serviceHistory)
    }

    /** `{year} {make} {model} ({color})`. */
    function ToString(): (r: string)
      reads this
      ensures var y := IntToString(year);
        && |y| < |r| && r[..|y|] == y && r[|y|] == ' '
        && ' ' !in r[..|y|] && ParseInt(r[..|y|]) == year
        && r[|r| - 1] == ')'
    {
      var y := IntToString(year);
      var r := y + " " + make + " " + model + " (" + color + ")";
      assert r[..|y|] == y;
      IntToStringRoundTrip(year);
      r
    }

    /** Years since manufacture, counted from the given current year. */
    function GetAge(currentYear: int): (r: int)
      reads this
      ensures year + r == currentYear
    {
      Age(year, currentYear)
    }

    /** The depreciated value: at least 10% of a non-negative price, and at most the price once age and mileage are non-negative. */
    function GetDepreciation(currentYear: int): (r: real)
      reads this
      ensures 0.0 <= price ==> price / 10.0 <= r
      ensures 0.0 <= price && year <= currentYear && 0.0 <= mileage ==> r <= price
    {
      CurrentValueBounds(price, GetAge(currentYear), mileage);
      CurrentValue(price, GetAge(currentYear), mileage)
    }

    /** The exported summary: stored fields as they are, age and value derived from them. */
    function ToDict(currentYear: int): (r: CarSummary)
      reads this
      ensures r.make == make && r.model == model && r.year == year && r.color == color
      ensures r.price == price && r.mileage == mileage && r.owner == owner
      ensures r.serviceHistory == serviceHistory
      ensures r.year + r.age == currentYear
      ensures 0.0 <= r.price ==> r.price / 10.0 <= r.currentValue
      ensures 0.0 <= r.price && 0 <= r.age && 0.0 <= r.mileage ==> r.currentValue <= r.price
    {
      CarSummary(make, model, year, color, price, mileage, owner,
                 GetAge(currentYear), GetDepreciation(currentYear), serviceHistory)
    }

    /** Raises instead of lowering the odometer; an equal reading is accepted. */
    method UpdateMileage(newMileage: real) returns (result: Outcome<CarError>)
      modifies this`mileage
      ensures result.Fail? <==> newMileage < old(mileage)
      ensures result.Fail? ==> result.error == ValueError(MileageRollbackMessage) && mileage == old(mileage)
      ensures result.Pass? ==> mileage == newMileage
      ensures mileage == NextMileage(old(mileage), newMileage)
    {
      if newMileage < mileage {
        return Fail(ValueError(MileageRollbackMessage));
      }
      mileage := newMileage;
      result := Pass;
    }

    /** Appends one entry stamped with the current odometer reading; earlier entries stay as they were. */
    method AddServiceRecord(date: string, serviceType: string, cost: real, description: string := "")
      modifies this`serviceHistory
      ensures |serviceHistory| == |old(serviceHistory)| + 1
      ensures serviceHistory[..|old(serviceHistory)|] == old(serviceHistory)
      ensures serviceHistory[|serviceHistory| - 1] == ServiceRecord(date, serviceType, cost, description, mileage)
    {
      serviceHistory := serviceHistory + [ServiceRecord(date, serviceType, cost, description, mileage)];
    }

    /** Replaces the owner, whatever it was. */
    method SetOwner(ownerName: string)
      modifies this`owner
      ensures owner == Some(ownerName)
    {
      owner := Some(ownerName);
    }
  }
}

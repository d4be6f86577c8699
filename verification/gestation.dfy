/** The gestation record kept per avatar: its time unit and the record itself. */
module Gestation {
  import opened Wrappers
  import opened Decimal

  /** The unit the gestation duration is counted in, with the source's
      `#[repr(u8)]` discriminants: Hours 0, Days 1, Weeks 2, Months 3, Mins 4. */
  datatype GestationType = Hours | Days | Weeks | Months | Mins

  /** `u8::from(unit)` (and `i32::from`, which yields the same number). */
  function ToU8(t: GestationType): (v: U8)
    ensures v <= 4
  {
    match t
    case Hours => 0
    case Days => 1
    case Weeks => 2
    case Months => 3
    case Mins => 4
  }

  /** `GestationType::try_from(u8)`: the unit whose discriminant is v, an
      error for anything above 4. */
  function TryFromU8(v: U8): (r: Result<GestationType, string>)
    ensures r.Success? <==> v <= 4
    ensures r.Success? ==> ToU8(r.value) == v
    ensures r.Failure? ==> r.error == "Invalid value for TimeUnit"
  {
    match v
    case 0 => Success(Hours)
    case 1 => Success(Days)
    case 2 => Success(Weeks)
    case 3 => Success(Months)
    case 4 => Success(Mins)
    case _ => Failure("Invalid value for TimeUnit")
  }

  /** Seconds in one unit; a month is taken as 30 days. */
  function SecondsPerUnit(t: GestationType): (s: int)
    ensures s > 0 && s % 60 == 0
  {
    match t
    case Hours => 3600
    case Days => 86400
    case Weeks => 604800
    case Months => 2592000
    case Mins => 60
  }

  /** Converting a unit to its discriminant and back gives the unit. */
  lemma TryFromToU8(t: GestationType)
    ensures TryFromU8(ToU8(t)) == Success(t)
  {
  }

  /** Distinct units have distinct discriminants. */
  lemma ToU8Injective(s: GestationType, t: GestationType)
    ensures ToU8(s) == ToU8(t) ==> s == t
  {
  }

  /** The units nest: 60 minutes an hour, 24 hours a day, 7 days a week and
      30 days a month. */
  lemma UnitRatios()
    ensures SecondsPerUnit(Mins) == 60
    ensures SecondsPerUnit(Hours) == 60 * SecondsPerUnit(Mins)
    ensures SecondsPerUnit(Days) == 24 * SecondsPerUnit(Hours)
    ensures SecondsPerUnit(Weeks) == 7 * SecondsPerUnit(Days)
    ensures SecondsPerUnit(Months) == 30 * SecondsPerUnit(Days)
  {
  }

  /** One avatar's record. Times are whole seconds on the wall clock; the
      duration is the source's `f32`, kept as a real. */
  datatype ChildInfo = ChildInfo(
    conceptionTime: Option<int>,
    gestationTime: real,
    gestation: GestationType,
    childCount: U8)

  /** `ChildInfo::default()`, also the record a newly seen avatar gets. */
  const DefaultChildInfo: ChildInfo := ChildInfo(None, 8.0, Hours, 0)

  /** The record invariant: a conception time is set exactly while there is
      at least one child. */
  predicate Consistent(c: ChildInfo) {
    c.conceptionTime.None? <==> c.childCount == 0
  }

  /** The default record is consistent. */
  lemma DefaultConsistent()
    ensures Consistent(DefaultChildInfo)
  {
  }
}

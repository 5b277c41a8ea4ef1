/** The workout entities: the shared base `Workout` and its two variants
    `Running` and `Cycling`, built once and never changed afterwards. */
module Workouts {
  import opened Decimal

  /** A JavaScript number. Finite numbers are modelled by exact reals, so
      IEEE-754 rounding and overflow are not part of this model. */
  datatype Number = Finite(value: real) | NaN | PositiveInfinity | NegativeInfinity {

    /** `Number.isFinite(x)` */
    predicate IsFinite() {
      Finite?
    }

    /** `x > 0` (false for NaN) */
    predicate IsPositive() {
      (Finite? && value > 0.0) || PositiveInfinity?
    }
  }

  /** JavaScript's `a / b` on finite operands. A zero divisor is taken to be +0. */
  function Divide(a: real, b: real): (q: Number)
    ensures q.IsFinite() <==> b != 0.0
    ensures q.IsFinite() ==> q.value * b == a
    ensures b == 0.0 ==> (q.NaN? <==> a == 0.0) && (q.PositiveInfinity? <==> a > 0.0)
  {
    if b != 0.0 then Finite(a / b)
    else if a > 0.0 then PositiveInfinity
    else if a < 0.0 then NegativeInfinity
    else NaN
  }

  /** `[lat, lng]` of a map click. */
  datatype Coords = Coords(lat: real, lng: real)

  /** `Date.getMonth()` is 0 for January up to 11 for December. */
  type Month = m: nat | m < 12

  /** `Date.getDate()` is the day of the month. */
  type Day = d: nat | 1 <= d <= 31 witness 1

  /** The part of the creation `Date` that the description reads. */
  datatype Date = Date(month: Month, day: Day)

  /** The `type` field: the discriminant of the two variants. */
  datatype WorkoutType = RunningType | CyclingType

  datatype Workout =
    | Running(date: Date, id: string, coords: Coords, distance: real, duration: real,
              description: string, cadence: real, pace: Number)
    | Cycling(date: Date, id: string, coords: Coords, distance: real, duration: real,
              description: string, elevation: real, speed: Number)
  {
    function Type(): WorkoutType {
      if Running? then RunningType else CyclingType
    }
  }

  /** The string stored in the `type` field. */
  function TypeName(t: WorkoutType): string {
    match t
    case RunningType => "running"
    case CyclingType => "cycling"
  }

  /** `toUpperCase` on a single character; only ASCII letters are handled. */
  function UpperCase(c: char): (u: char)
    ensures 'a' <= c <= 'z' ==> 'A' <= u <= 'Z' && u as int - 'A' as int == c as int - 'a' as int
    ensures !('a' <= c <= 'z') ==> u == c
  {
    if 'a' <= c <= 'z' then (c as int - 32) as char else c
  }

  /** `s[0].toUpperCase() + s.slice(1)` */
  function Capitalised(s: string): (r: string)
    requires s != []
    ensures |r| == |s| && r[0] == UpperCase(s[0]) && r[1..] == s[1..]
  {
    [UpperCase(s[0])] + s[1..]
  }

  const MONTHS: seq<string> :=
    ["January", "February", "March", "April", "May", "June", "July",
     "August", "September", "October", "November", "December"]

  /** `_setDescription`: "<Capitalised type> on <Month> <day>". */
  function Description(t: WorkoutType, date: Date): string {
    Capitalised(TypeName(t)) + " on " + MONTHS[date.month] + " " + ToDecimal(date.day)
  }

  /** The description starts with the capitalised type followed by " on ". */
  lemma DescriptionStart(t: WorkoutType, date: Date)
    ensures var s := Description(t, date);
      |s| > 11 && s[7..11] == " on " &&
      s[..7] == (if t == RunningType then "Running" else "Cycling")
  {
  }

  lemma MonthsDistinct(m1: Month, m2: Month)
    requires MONTHS[m1] == MONTHS[m2]
    ensures m1 == m2
  {
  }

  /** In `a + " " + x` with `x` all digits, the last space is the one at index |a|. */
  lemma LastSpace(a: string, x: string)
    requires AllDigits(x)
    ensures (a + " " + x)[|a|] == ' '
    ensures forall i :: |a| < i < |a| + 1 + |x| ==> (a + " " + x)[i] != ' '
  {
  }

  /** Two strings that end in " " and a run of digits split the same way. */
  lemma SplitAtLastSpace(a: string, x: string, b: string, y: string)
    requires AllDigits(x) && AllDigits(y)
    requires a + " " + x == b + " " + y
    ensures a == b && x == y
  {
    var s := a + " " + x;
    LastSpace(a, x);
    LastSpace(b, y);
    assert |a| == |b|;
    assert a == s[..|a|] == b;
    assert x == s[|a| + 1..] == y;
  }

  /** The description determines the type, the month and the day it was built from. */
  lemma DescriptionInjective(t1: WorkoutType, d1: Date, t2: WorkoutType, d2: Date)
    requires Description(t1, d1) == Description(t2, d2)
    ensures t1 == t2 && d1 == d2
  {
    var head1 := Capitalised(TypeName(t1)) + " on " + MONTHS[d1.month];
    var head2 := Capitalised(TypeName(t2)) + " on " + MONTHS[d2.month];
    SplitAtLastSpace(head1, ToDecimal(d1.day), head2, ToDecimal(d2.day));
    DecimalInjective(d1.day, d2.day);
    assert head1[0] == head2[0];
    assert t1 == t2;
    assert MONTHS[d1.month] == head1[11..] == head2[11..] == MONTHS[d2.month];
    MonthsDistinct(d1.month, d2.month);
  }

  /** `(Date.now() + '').slice(-10)`: the last ten characters of the decimal timestamp. */
  function IdOf(now: nat): (id: string)
    ensures var s := ToDecimal(now);
      |id| == (if |s| < 10 then |s| else 10) && id == s[|s| - |id|..]
  {
    var s := ToDecimal(now);
    if |s| <= 10 then s else s[|s| - 10..]
  }

  /** The id is a string of at most ten digits that denotes the timestamp modulo 10^10;
      it has exactly ten digits once the timestamp has ten digits of its own. */
  lemma IdIsTimestampSuffix(now: nat)
    ensures AllDigits(IdOf(now)) && 1 <= |IdOf(now)| <= 10
    ensures Value(IdOf(now)) == now % Pow10(10)
    ensures now >= Pow10(9) ==> |IdOf(now)| == 10
  {
    var s := ToDecimal(now);
    var p := Pow10(10);
    ValueOfDecimal(now);
    if |s| <= 10 {
      assert IdOf(now) == s;
      if now >= p {
        DigitsOfLarge(now, 10);
      }
      assert now < p;
    } else {
      assert IdOf(now) == s[|s| - 10..];
      SuffixValue(s, 10);
    }
    if now >= Pow10(9) {
      DigitsOfLarge(now, 9);
    }
  }

  /** Ids repeat every 10^10 milliseconds: two workouts made that far apart share one. */
  lemma IdRepeatsEvery(now: nat)
    requires now >= Pow10(9)
    ensures IdOf(now + Pow10(10)) == IdOf(now)
  {
    var p := Pow10(10);
    IdIsTimestampSuffix(now);
    IdIsTimestampSuffix(now + p);
    assert now + p == (now / p + 1) * p + now % p;
    ModUnique(now + p, p, now / p + 1, now % p);
    SameValueSameDigits(IdOf(now + p), IdOf(now));
  }

  /** `Running.calcPace`: minutes per kilometre. */
  function Pace(distance: real, duration: real): (p: Number)
    ensures p.IsFinite() <==> distance != 0.0
    ensures p.IsFinite() ==> p.value * distance == duration
    ensures distance > 0.0 && duration > 0.0 ==> p.IsFinite() && p.value > 0.0
  {
    Divide(duration, distance)
  }

  /** `Cycling.calcSpeed`: kilometres per hour, from a duration in minutes. */
  function Speed(distance: real, duration: real): (v: Number)
    ensures v.IsFinite() <==> duration != 0.0
    ensures duration != 0.0 ==> v == Finite(60.0 * distance / duration)
  {
    var hours := duration / 60.0;
    assert duration != 0.0 ==> distance / hours == 60.0 * distance / duration;
    Divide(distance, hours)
  }

  /** `new Running(coords, distance, duration, cadence)` at time `now` on `date`. */
  function NewRunning(coords: Coords, distance: real, duration: real, cadence: real,
                      now: nat, date: Date): Workout
  {
    Running(date, IdOf(now), coords, distance, duration,
            Description(RunningType, date), cadence, Pace(distance, duration))
  }

  /** `new Cycling(coords, distance, duration, elevation)` at time `now` on `date`. */
  function NewCycling(coords: Coords, distance: real, duration: real, elevation: real,
                      now: nat, date: Date): Workout
  {
    Cycling(date, IdOf(now), coords, distance, duration,
            Description(CyclingType, date), elevation, Speed(distance, duration))
  }

  /** What every workout the application builds satisfies: positive distance and
      duration, a digit id, the description of its own type and date, and the
      derived metric consistent with the base fields. */
  predicate WellFormed(w: Workout) {
    && w.distance > 0.0 && w.duration > 0.0
    && AllDigits(w.id) && 1 <= |w.id| <= 10
    && w.description == Description(w.Type(), w.date)
    && match w
       case Running(_, _, _, _, _, _, cadence, pace) =>
         cadence > 0.0 && pace.IsFinite() && pace.value * w.distance == w.duration
       case Cycling(_, _, _, _, _, _, _, speed) =>
         speed.IsFinite() && speed.value * w.duration == 60.0 * w.distance
  }

  /** A running workout built from positive inputs is well formed, keeps its
      arguments and has pace = duration / distance. */
  lemma NewRunningWellFormed(coords: Coords, distance: real, duration: real, cadence: real,
                             now: nat, date: Date)
    requires distance > 0.0 && duration > 0.0 && cadence > 0.0
    ensures var w := NewRunning(coords, distance, duration, cadence, now, date);
      && WellFormed(w) && w.Type() == RunningType
      && w.coords == coords && w.distance == distance && w.duration == duration
      && w.cadence == cadence && w.id == IdOf(now) && w.date == date
      && w.pace == Finite(duration / distance)
  {
  }

  /** A cycling workout built from a positive distance and duration is well formed,
      whatever its elevation, keeps its arguments and has
      speed = distance / (duration / 60) = 60 * distance / duration. */
  lemma NewCyclingWellFormed(coords: Coords, distance: real, duration: real, elevation: real,
                             now: nat, date: Date)
    requires distance > 0.0 && duration > 0.0
    ensures var w := NewCycling(coords, distance, duration, elevation, now, date);
      && WellFormed(w) && w.Type() == CyclingType
      && w.coords == coords && w.distance == distance && w.duration == duration
      && w.elevation == elevation && w.id == IdOf(now) && w.date == date
      && w.speed == Finite(distance / (duration / 60.0))
      && w.speed == Finite(60.0 * distance / duration)
  {
  }
}

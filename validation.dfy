/** The input check of `App._newWorkout`: the form's numbers are accepted only
    when finite and positive, and an accepted form becomes a new workout. */
module Validation {
  import opened Workouts

  /** The submitted form: the selected type and the fields read with unary `+`. */
  datatype FormInput = FormInput(kind: WorkoutType, distance: Number, duration: Number,
                                 cadence: Number, elevation: Number)

  /** `validInputs(...inputs)`: every input is a finite number. */
  predicate ValidInputs(inputs: seq<Number>) {
    forall i :: 0 <= i < |inputs| ==> inputs[i].IsFinite()
  }

  /** `allPositive(...inputs)`: every input is greater than zero. */
  predicate AllPositive(inputs: seq<Number>) {
    forall i :: 0 <= i < |inputs| ==> inputs[i].IsPositive()
  }

  /** The two checks on the three fields of a form, spelled out field by field. */
  lemma ChecksOfThree(a: Number, b: Number, c: Number)
    ensures ValidInputs([a, b, c]) <==> a.IsFinite() && b.IsFinite() && c.IsFinite()
    ensures AllPositive([a, b, c]) <==> a.IsPositive() && b.IsPositive() && c.IsPositive()
  {
    var s := [a, b, c];
    assert s[0] == a && s[1] == b && s[2] == c;
  }

  /** `allPositive` on two fields, spelled out. */
  lemma ChecksOfTwo(a: Number, b: Number)
    ensures AllPositive([a, b]) <==> a.IsPositive() && b.IsPositive()
  {
    var s := [a, b];
    assert s[0] == a && s[1] == b;
  }

  const INVALID_INPUT_ALERT := "Inputs have to positive numbers!"

  /** The outcome of one submission: the workout that was built, or the alert shown. */
  datatype Submission = Accepted(workout: Workout) | Rejected(alert: string)

  /** Validation and construction in `_newWorkout`, for a form submitted after a
      map click at `click`, at time `now` on `date`. Running checks cadence both
      for finiteness and for positivity; cycling checks elevation only for finiteness. */
  function Submit(input: FormInput, click: Coords, now: nat, date: Date): (r: Submission)
    ensures r.Accepted? ==> WellFormed(r.workout)
    ensures r.Accepted? ==> r.workout.Type() == input.kind && r.workout.coords == click
    ensures r.Accepted? ==> r.workout.id == IdOf(now) && r.workout.date == date
    ensures r.Rejected? ==> r.alert == INVALID_INPUT_ALERT
  {
    var FormInput(kind, distance, duration, cadence, elevation) := input;
    match kind
    case RunningType =>
      if !ValidInputs([distance, duration, cadence]) || !AllPositive([distance, duration, cadence])
      then Rejected(INVALID_INPUT_ALERT)
      else
        ChecksOfThree(distance, duration, cadence);
        NewRunningWellFormed(click, distance.value, duration.value, cadence.value, now, date);
        Accepted(NewRunning(click, distance.value, duration.value, cadence.value, now, date))
    case CyclingType =>
      if !ValidInputs([distance, duration, elevation]) || !AllPositive([distance, duration])
      then Rejected(INVALID_INPUT_ALERT)
      else
        ChecksOfThree(distance, duration, elevation);
        ChecksOfTwo(distance, duration);
        NewCyclingWellFormed(click, distance.value, duration.value, elevation.value, now, date);
        Accepted(NewCycling(click, distance.value, duration.value, elevation.value, now, date))
  }

  /** A running form is accepted exactly when distance, duration and cadence are all
      finite and all greater than zero; the workout then carries those three values. */
  lemma RunningAcceptedIff(input: FormInput, click: Coords, now: nat, date: Date)
    requires input.kind == RunningType
    ensures var r := Submit(input, click, now, date);
      && (r.Accepted? <==>
            && input.distance.Finite? && input.distance.value > 0.0
            && input.duration.Finite? && input.duration.value > 0.0
            && input.cadence.Finite? && input.cadence.value > 0.0)
      && (r.Accepted? ==>
            && r.workout.Running?
            && r.workout.distance == input.distance.value
            && r.workout.duration == input.duration.value
            && r.workout.cadence == input.cadence.value
            && r.workout.pace == Finite(input.duration.value / input.distance.value))
  {
    ChecksOfThree(input.distance, input.duration, input.cadence);
    if Submit(input, click, now, date).Accepted? {
      NewRunningWellFormed(click, input.distance.value, input.duration.value,
                           input.cadence.value, now, date);
    }
  }

  /** A cycling form is accepted exactly when distance, duration and elevation are all
      finite and distance and duration are greater than zero: a zero or negative
      elevation is accepted. The workout then carries those three values. */
  lemma CyclingAcceptedIff(input: FormInput, click: Coords, now: nat, date: Date)
    requires input.kind == CyclingType
    ensures var r := Submit(input, click, now, date);
      && (r.Accepted? <==>
            && input.distance.Finite? && input.distance.value > 0.0
            && input.duration.Finite? && input.duration.value > 0.0
            && input.elevation.Finite?)
      && (r.Accepted? ==>
            && r.workout.Cycling?
            && r.workout.distance == input.distance.value
            && r.workout.duration == input.duration.value
            && r.workout.elevation == input.elevation.value
            && r.workout.speed == Finite(60.0 * input.distance.value / input.duration.value))
  {
    ChecksOfThree(input.distance, input.duration, input.elevation);
    ChecksOfTwo(input.distance, input.duration);
    if Submit(input, click, now, date).Accepted? {
      NewCyclingWellFormed(click, input.distance.value, input.duration.value,
                           input.elevation.value, now, date);
    }
  }

  /** The asymmetry between the two variants: the same numbers with a non-positive
      third field are rejected as a run and accepted as a ride. */
  lemma ThirdFieldAsymmetry(distance: real, duration: real, third: real,
                            click: Coords, now: nat, date: Date)
    requires distance > 0.0 && duration > 0.0 && third <= 0.0
    ensures Submit(FormInput(RunningType, Finite(distance), Finite(duration), Finite(third), NaN),
                   click, now, date).Rejected?
    ensures Submit(FormInput(CyclingType, Finite(distance), Finite(duration), NaN, Finite(third)),
                   click, now, date).Accepted?
  {
  }
}

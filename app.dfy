/** The `App` controller: the map's readiness and view, the slot holding the last
    map click, the ordered list of workouts, and their persistence. */
module Application {
  import opened Wrappers
  import opened Workouts
  import opened Validation
  import opened Storage

  /** The `localStorage` key the workouts are saved under. */
  const STORAGE_KEY := "workouts"

  /** The workouts a page load finds in storage: the saved list, or none. */
  function Saved(items: map<string, seq<Workout>>): seq<Workout> {
    if STORAGE_KEY in items then items[STORAGE_KEY] else []
  }

  predicate HasId(workouts: seq<Workout>, id: string) {
    exists i :: 0 <= i < |workouts| && workouts[i].id == id
  }

  /** `i` is the position of the first workout whose id is `id`. */
  predicate IsFirstWithId(workouts: seq<Workout>, id: string, i: int) {
    && 0 <= i < |workouts| && workouts[i].id == id
    && forall j :: 0 <= j < i ==> workouts[j].id != id
  }

  /** `workouts.find(work => work.id === id)`, as the position of the match. */
  method FindById(workouts: seq<Workout>, id: string) returns (found: Option<nat>)
    ensures found.Some? ==> IsFirstWithId(workouts, id, found.value)
    ensures found.None? <==> !HasId(workouts, id)
  {
    var i := 0;
    while i < |workouts|
      invariant 0 <= i <= |workouts|
      invariant forall j :: 0 <= j < i ==> workouts[j].id != id
    {
      if workouts[i].id == id {
        return Some(i);
      }
      i := i + 1;
    }
    return None;
  }

  class App {
    /** `#map` has been created (the geolocation request succeeded). */
    var mapReady: bool
    /** The centre of the map view, once there is a map. */
    var viewCentre: Option<Coords>
    /** `#mapEvent`: the coordinates of the most recent map click, if any. */
    var mapEvent: Option<Coords>
    /** `#workouts`, oldest first. */
    var workouts: seq<Workout>
    const storage: LocalStorage

    /** There is a view exactly when there is a map, and a click only on a map. */
    ghost predicate Valid()
      reads this
    {
      && (mapReady <==> viewCentre.Some?)
      && (mapEvent.Some? ==> mapReady)
    }

    /** Storage holds exactly the in-memory list of workouts. */
    ghost predicate Persisted()
      reads this, storage
    {
      Saved(storage.items) == workouts
    }

    /** `new App()`: no map yet, no click yet, and the workouts read from storage.
        The geolocation request it starts is answered later by LoadMap. */
    constructor (storage: LocalStorage)
      ensures Valid() && this.storage == storage
      ensures !mapReady && mapEvent == None
      ensures workouts == Saved(storage.items)
      ensures Persisted()
    {
      this.storage := storage;
      mapReady := false;
      viewCentre := None;
      mapEvent := None;
      workouts := [];
      new;
      GetLocalStorage();
    }

    /** `_loadMap(position)`: the geolocation success callback creates the map
        centred on the user's position. */
    method LoadMap(position: Coords)
      requires Valid() && !mapReady
      modifies this`mapReady, this`viewCentre
      ensures Valid() && mapReady && viewCentre == Some(position)
    {
      mapReady := true;
      viewCentre := Some(position);
    }

    /** `_showForm(mapE)`: a map click overwrites the click slot. */
    method ShowForm(click: Coords)
      requires Valid() && mapReady
      modifies this`mapEvent
      ensures Valid() && mapEvent == Some(click)
    {
      mapEvent := Some(click);
    }

    /** `_newWorkout`: validate the form; on success append the new workout, located
        at the last click, and save the whole list; on failure change nothing. */
    method NewWorkout(input: FormInput, now: nat, date: Date) returns (r: Submission)
      requires Valid() && mapEvent.Some?
      modifies this`workouts, storage
      ensures Valid()
      ensures r == Submit(input, mapEvent.value, now, date)
      ensures r.Accepted? ==>
        && workouts == old(workouts) + [r.workout]
        && r.workout.coords == mapEvent.value
        && storage.items == old(storage.items)[STORAGE_KEY := workouts]
        && Persisted()
      ensures r.Rejected? ==> workouts == old(workouts) && storage.items == old(storage.items)
    {
      r := Submit(input, mapEvent.value, now, date);
      if r.Rejected? {
        return;
      }
      workouts := workouts + [r.workout];
      SetLocalStorage();
    }

    /** `_moveToPopup`: a click in the list centres the map on the first workout with
        the clicked entry's id. Nothing happens before the map exists, for a click
        outside any entry (`target` is None), or for an id that matches no workout
        (where the source fails on `undefined` before moving the map). */
    method MoveToPopup(target: Option<string>)
      requires Valid()
      modifies this`viewCentre
      ensures Valid()
      ensures mapReady && target.Some? && HasId(workouts, target.value) ==>
        exists i :: IsFirstWithId(workouts, target.value, i) && viewCentre == Some(workouts[i].coords)
      ensures !(mapReady && target.Some? && HasId(workouts, target.value)) ==>
        viewCentre == old(viewCentre)
    {
      if !mapReady || target.None? {
        return;
      }
      var found := FindById(workouts, target.value);
      if found.None? {
        return;
      }
      viewCentre := Some(workouts[found.value].coords);
    }

    /** `_setLocalStorage`: save the whole list under STORAGE_KEY. */
    method SetLocalStorage()
      requires Valid()
      modifies storage
      ensures Valid()
      ensures storage.items == old(storage.items)[STORAGE_KEY := workouts]
      ensures Persisted()
    {
      storage.SetItem(STORAGE_KEY, workouts);
    }

    /** `_getLocalStorage`: replace the list by the stored one; keep it when nothing
        is stored. */
    method GetLocalStorage()
      requires Valid()
      modifies this`workouts
      ensures Valid()
      ensures STORAGE_KEY in storage.items ==> workouts == storage.items[STORAGE_KEY]
      ensures STORAGE_KEY !in storage.items ==> workouts == old(workouts)
    {
      var data := storage.GetItem(STORAGE_KEY);
      if data.None? {
        return;
      }
      workouts := data.value;
    }

    /** `reset`: remove the saved workouts and reload the page, which builds a new
        `App` over the same storage; that one starts with no workouts. */
    method Reset() returns (reloaded: App)
      modifies storage
      ensures storage.items == old(storage.items) - {STORAGE_KEY}
      ensures fresh(reloaded) && reloaded.Valid() && reloaded.storage == storage
      ensures !reloaded.mapReady && reloaded.mapEvent == None && reloaded.workouts == []
    {
      storage.RemoveItem(STORAGE_KEY);
      reloaded := new App(storage);
    }
  }

  /** Saving, then loading the page again, restores the same ordered list. */
  method SaveThenReload(app: App) returns (reloaded: App)
    requires app.Valid()
    modifies app.storage
    ensures fresh(reloaded) && reloaded.Valid() && reloaded.storage == app.storage
    ensures reloaded.workouts == app.workouts
  {
    app.SetLocalStorage();
    reloaded := new App(app.storage);
  }

  /** The click slot holds one position: of two clicks before a submission, the
      accepted workout is placed at the second. */
  method LaterClickWins(app: App, first: Coords, second: Coords,
                        input: FormInput, now: nat, date: Date) returns (r: Submission)
    requires app.Valid() && app.mapReady
    modifies app, app.storage
    ensures r.Accepted? ==> r.workout.coords == second && app.workouts == old(app.workouts) + [r.workout]
    ensures r.Rejected? ==> app.workouts == old(app.workouts)
  {
    app.ShowForm(first);
    app.ShowForm(second);
    r := app.NewWorkout(input, now, date);
  }
}

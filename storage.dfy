/** The browser's `localStorage`, reduced to what the application uses: a map from
    keys to stored workout lists. The JSON text in between is not modelled; a
    stored list reads back as the list that was written. */
module Storage {
  import opened Wrappers
  import opened Workouts

  class LocalStorage {
    var items: map<string, seq<Workout>>

    constructor (items: map<string, seq<Workout>>)
      ensures this.items == items
    {
      this.items := items;
    }

    /** `localStorage.setItem(key, JSON.stringify(value))` */
    method SetItem(key: string, value: seq<Workout>)
      modifies this
      ensures items == old(items)[key := value]
    {
      items := items[key := value];
    }

    /** `JSON.parse(localStorage.getItem(key))`: the stored list, or nothing (`null`)
        when the key is absent. */
    method GetItem(key: string) returns (value: Option<seq<Workout>>)
      ensures value.Some? <==> key in items
      ensures value.Some? ==> value.value == items[key]
    {
      if key in items {
        value := Some(items[key]);
      } else {
        value := None;
      }
    }

    /** `localStorage.removeItem(key)` */
    method RemoveItem(key: string)
      modifies this
      ensures items == old(items) - {key}
      ensures key !in items
    {
      items := items - {key};
    }
  }
}

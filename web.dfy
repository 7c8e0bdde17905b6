/** The two browser services the pages share: the `localStorage` key-value
    store and the router's current location. */
module Web {
  import opened Types

  class Browser {
    var storage: map<string, string>
    var location: string

    constructor(storage: map<string, string>, location: string)
      ensures this.storage == storage && this.location == location
    {
      this.storage := storage;
      this.location := location;
    }

    /** `localStorage.getItem(key)`: null when the key is absent. */
    function GetItem(key: string): (v: Option<string>)
      reads this
      ensures v.Some? <==> key in storage
      ensures v.Some? ==> v.value == storage[key]
    {
      if key in storage then Some(storage[key]) else None
    }

    method SetItem(key: string, value: string)
      modifies this
      ensures storage == old(storage)[key := value] && location == old(location)
    {
      storage := storage[key := value];
    }

    method RemoveItem(key: string)
      modifies this
      ensures storage == old(storage) - {key} && location == old(location)
    {
      storage := storage - {key};
    }

    /** `navigate(path)`. */
    method Navigate(path: string)
      modifies this
      ensures location == path && storage == old(storage)
    {
      location := path;
    }
  }
}

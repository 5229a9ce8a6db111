/** The browser's `localStorage`, shared by the generator page and the
    sign-up and login pages: one mutable map from string keys to values.
    A value remembers which JSON serialization wrote it, so that
    `JSON.parse` can be modelled by looking at its shape. */
module Storage {
  import opened Options

  /** One record of the saved image list: `{imageData, prompt, timestamp}`. */
  datatype ImageItem = ImageItem(imageData: string, prompt: string, timestamp: string)

  /** The `userData` record written at sign-up; `password` holds `btoa` of
      the password. */
  datatype UserRecord = UserRecord(fullName: string, email: string, password: string, createdAt: string)

  /** A stored string: `JSON.stringify` of an image list or of a user record,
      or any other text (flags such as 'true', or text that is not one of
      those serializations). */
  datatype Stored = ImageList(items: seq<ImageItem>) | UserJson(user: UserRecord) | Text(text: string)

  /** JavaScript truthiness of what `getItem` returns: null and the empty
      string are false; a serialized list or record is never empty. */
  predicate IsTruthy(v: Option<Stored>) {
    v.Some? && v.value != Text("")
  }

  class LocalStorage {
    var entries: map<string, Stored>

    constructor (initial: map<string, Stored>)
      ensures entries == initial
    {
      entries := initial;
    }

    /** `getItem(key)`: the value, or None (JavaScript's null). */
    function GetItem(key: string): Option<Stored>
      reads this
    {
      if key in entries then Some(entries[key]) else None
    }

    method SetItem(key: string, value: Stored)
      modifies this
      ensures entries == old(entries)[key := value]
    {
      entries := entries[key := value];
    }

    method RemoveItem(key: string)
      modifies this
      ensures entries == old(entries) - {key}
    {
      entries := entries - {key};
    }
  }
}

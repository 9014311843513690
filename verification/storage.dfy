/** The browser's `localStorage` as the stores see it: a map from keys to
    strings, written by `setItem`, cleared by `removeItem`. `JSON.stringify`
    and `JSON.parse` are abstract: a codec states only the law the stores
    rely on, that parsing what was stringified gives the list back. */
module Storage {
  import opened Common

  /** The key/value area shared by every store of the application. */
  class LocalStorage {
    var entries: map<string, string>

    constructor (initial: map<string, string>)
      ensures entries == initial
    {
      entries := initial;
    }

    /** `localStorage.getItem(key)`: `None` stands for `null`. */
    function Get(key: string): (v: Option<string>)
      reads this
      ensures v.Some? <==> key in entries
      ensures v.Some? ==> v.value == entries[key]
    {
      if key in entries then Some(entries[key]) else None
    }

    method SetItem(key: string, value: string)
      modifies this
      ensures entries == old(entries)[key := value]
    {
      entries := entries[key := value];
    }

    method RemoveItem(key: string)
      modifies this
      ensures entries == old(entries) - {key}
    {
      entries := entries - {key};
    }
  }

  /** What `JSON.parse` followed by `Array.isArray` can tell a loader: an
      array of items, some other JSON value, or a parse error (a throw). */
  datatype Parsed<T> = Array(items: seq<T>) | NotArray | Malformed

  /** `JSON.stringify` and `JSON.parse` for lists of one item type. */
  datatype Json<!T> = Json(stringify: seq<T> -> string, parse: string -> Parsed<T>)

  /** The law of the codec: the empty list prints as `[]`, no list prints
      as the empty string, and parsing what was printed gives it back. */
  ghost predicate Lawful<T(!new)>(json: Json<T>) {
    json.stringify([]) == "[]"
    && forall xs :: json.stringify(xs) != "" && json.parse(json.stringify(xs)) == Array(xs)
  }

  /** What a decode-or-default loader returns: the initial list and the
      storage as it leaves it. */
  datatype Loaded<T> = Loaded(items: seq<T>, entries: map<string, string>)

  /** The `useState` initialiser of the task and group stores: a stored
      value that is missing, empty or exactly `"[]"` gives the seed; one that
      parses to an array gives that array; anything else gives the seed and
      the key is removed. The loader never touches another key. */
  function LoadOrSeed<T>(entries: map<string, string>, key: string, json: Json<T>, seed: seq<T>)
    : (r: Loaded<T>)
    ensures r.entries == entries || r.entries == entries - {key}
    ensures r.entries != entries ==> r.items == seed && key in entries
    ensures r.items != seed ==> key in entries && json.parse(entries[key]) == Array(r.items)
    ensures key !in entries || entries[key] in {"", "[]"} ==> r == Loaded(seed, entries)
    ensures key in entries && entries[key] !in {"", "[]"} && json.parse(entries[key]).Array? ==>
              r == Loaded(json.parse(entries[key]).items, entries)
    ensures key in entries && entries[key] !in {"", "[]"} && !json.parse(entries[key]).Array? ==>
              r == Loaded(seed, entries - {key})
  {
    if key in entries && entries[key] != "" && entries[key] != "[]" then
      match json.parse(entries[key])
      case Array(xs) => Loaded(xs, entries)
      case _ => Loaded(seed, entries - {key})
    else
      Loaded(seed, entries)
  }

  /** Saving a list and loading again gives the list back, except that an
      empty list comes back as the seed: `"[]"` is read as "nothing saved". */
  lemma SaveThenLoad<T(!new)>(entries: map<string, string>, key: string, json: Json<T>, seed: seq<T>, xs: seq<T>)
    requires Lawful(json)
    ensures var r := LoadOrSeed(entries[key := json.stringify(xs)], key, json, seed);
            r.items == (if xs == [] then seed else xs)
            && r.entries == entries[key := json.stringify(xs)]
  {
    if xs != [] {
      // "[]" is the text of the empty list, so it cannot be the text of xs.
      assert json.parse(json.stringify(xs)) == Array(xs);
      assert json.parse(json.stringify([])) == Array([]);
    }
  }
}

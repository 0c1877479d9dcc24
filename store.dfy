/** The wishlist store: the browser's `localStorage` as a string-keyed map,
    the single `wishlist` entry holding the serialised list, and the two
    operations `getWishlist` and `saveWishlist`. */
module Store {
  import opened Wrappers
  import opened Wishlist

  /** The storage key of the list. */
  const WishlistKey: string := "wishlist"

  /** What the code falls back to when nothing usable is stored. */
  const EmptyArrayText: string := "[]"

  /** The page's `localStorage`: every key the page origin has stored. */
  class LocalStorage {
    var entries: map<string, string>

    constructor (entries: map<string, string>)
      ensures this.entries == entries
    {
      this.entries := entries;
    }
  }

  /** `JSON.parse` as used on the stored text (`None` where it throws) and
      `JSON.stringify` as used on the list. */
  datatype Json = Json(parse: string -> Option<seq<Item>>, stringify: seq<Item> -> string)

  /** What the model relies on from the JSON built-ins: `"[]"` parses to the
      empty list, a stringified list is never the empty string (it is at
      least `"[]"`) and parses back to itself. */
  ghost predicate Lawful(json: Json)
  {
    json.parse(EmptyArrayText) == Some([]) &&
    forall xs :: json.stringify(xs) != "" && json.parse(json.stringify(xs)) == Some(xs)
  }

  /** `localStorage.getItem(key)`: `None` where JavaScript returns null. */
  function GetItem(entries: map<string, string>, key: string): (r: Option<string>)
    ensures r.Some? <==> key in entries
    ensures r.Some? ==> r.value == entries[key]
  {
    if key in entries then Some(entries[key]) else None
  }

  /** `getWishlist`: a missing or empty stored value is read as `"[]"`, and a
      value that fails to parse yields the empty list instead of an error. */
  function Load(entries: map<string, string>, json: Json): (r: seq<Item>)
    ensures (WishlistKey in entries && entries[WishlistKey] != "" &&
             json.parse(entries[WishlistKey]).Some?) ==> r == json.parse(entries[WishlistKey]).value
    ensures (WishlistKey in entries && entries[WishlistKey] != "" &&
             json.parse(entries[WishlistKey]).None?) ==> r == []
  {
    var raw := GetItem(entries, WishlistKey);
    var text := if raw.Some? && raw.value != "" then raw.value else EmptyArrayText;
    match json.parse(text)
    case Some(list) => list
    case None => []
  }

  /** Loading gives the empty list, never an error, when the key is absent,
      when its value is the empty string, or when the value does not parse. */
  lemma LoadFallback(entries: map<string, string>, json: Json)
    requires json.parse(EmptyArrayText) == Some([])
    ensures WishlistKey !in entries ==> Load(entries, json) == []
    ensures WishlistKey in entries && entries[WishlistKey] == "" ==> Load(entries, json) == []
    ensures WishlistKey in entries && json.parse(entries[WishlistKey]).None? ==> Load(entries, json) == []
  {
  }

  /** The storage after `saveWishlist(list)`: the `wishlist` entry is
      overwritten with the whole serialised list and no other key changes. */
  function Saved(entries: map<string, string>, json: Json, list: seq<Item>): (r: map<string, string>)
    ensures r.Keys == entries.Keys + {WishlistKey}
    ensures r[WishlistKey] == json.stringify(list)
    ensures forall k :: k in entries && k != WishlistKey ==> r[k] == entries[k]
  {
    entries[WishlistKey := json.stringify(list)]
  }

  /** What is saved is what is loaded next: a full overwrite, no merge with
      the previous value. */
  lemma LoadSaved(entries: map<string, string>, json: Json, list: seq<Item>)
    requires Lawful(json)
    ensures Load(Saved(entries, json, list), json) == list
  {
    assert json.stringify(list) != "" && json.parse(json.stringify(list)) == Some(list);
  }

  /** `saveWishlist`. */
  method SaveWishlist(storage: LocalStorage, json: Json, list: seq<Item>)
    modifies storage
    ensures storage.entries == Saved(old(storage.entries), json, list)
  {
    storage.entries := Saved(storage.entries, json, list);
  }
}

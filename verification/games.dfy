/** Game records as loaded from the games list: string-keyed, string-valued objects. */
module Games {
  import opened Values

  /** One game record: `name`, `image`, and `path` or `emulator` plus `rom`. */
  type Record = map<string, string>

  /** `game_data.get(key)`: the value under `key`, or `None` when the key is missing. */
  function Get(game: Record, key: string): (v: Option<string>)
    ensures v.Some? <==> key in game
    ensures v.Some? ==> v.value == game[key]
  {
    if key in game then Some(game[key]) else None
  }

  /** Python truthiness of an optional string: present and non-empty. */
  predicate Truthy(v: Option<string>) {
    v.Some? && v.value != ""
  }
}

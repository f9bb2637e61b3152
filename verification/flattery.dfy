/** Dotted keys (src/rdmlibpy/metadata/flattery.py): `flatten` turns nested
    mappings into one level of `a.b.c`-style keys, `rebuild` nests such keys
    again. A mapping is a `Dict<Value>`; a nested mapping is a `VDict` value. */
module Flattery {
  import opened Dicts
  import opened Values

  /** `s[j:j+len(sep)] == sep` */
  predicate OccursAt(s: string, sep: string, j: int) {
    0 <= j && j + |sep| <= |s| && s[j..j + |sep|] == sep
  }

  /** `s.find(sep)`, None standing for -1: the first position where `sep`
      occurs (the empty string occurs at 0). */
  function Find(s: string, sep: string): (r: Option<nat>)
    ensures r.Some? ==> OccursAt(s, sep, r.value) && forall j :: 0 <= j < r.value ==> !OccursAt(s, sep, j)
    ensures r.None? ==> forall j :: 0 <= j ==> !OccursAt(s, sep, j)
  {
    FindFrom(s, sep, 0)
  }

  function FindFrom(s: string, sep: string, i: nat): (r: Option<nat>)
    ensures r.Some? ==> i <= r.value && OccursAt(s, sep, r.value) && forall j :: i <= j < r.value ==> !OccursAt(s, sep, j)
    ensures r.None? ==> forall j :: i <= j ==> !OccursAt(s, sep, j)
    decreases |s| - i
  {
    if i + |sep| > |s| then None
    else if s[i..i + |sep|] == sep then Some(i)
    else FindFrom(s, sep, i + 1)
  }

  // ---------------------------------------------------------------- flatten

  /** The `items` list `_flatten_dict(d, parent_key)` collects from the
      `i`-th entry of `d` on: a key below a non-empty parent key becomes
      `parent_key + sep + k`; a mapping value contributes the items of its
      own flattened dict, any other value one item. */
  function FlattenItems(d: Value, i: nat, parentKey: string, sep: string): (r: Dict<Value>)
    requires d.VDict?
    ensures forall x :: x in r ==> !x.1.VDict?
    decreases d, 0, |d.entries| - i
  {
    if i >= |d.entries| then []
    else
      var k := d.entries[i].0;
      var v := d.entries[i].1;
      var newKey := if parentKey != "" then parentKey + sep + k else k;
      var here := if v.VDict? then FlattenDict(v, newKey, sep) else [(newKey, v)];
      here + FlattenItems(d, i + 1, parentKey, sep)
  }

  /** `_flatten_dict(d, parent_key)`: `dict(items)`, so a key produced twice
      keeps its first position and its last value. */
  function FlattenDict(d: Value, parentKey: string, sep: string): (r: Dict<Value>)
    requires d.VDict?
    ensures Distinct(r)
    ensures forall x :: x in r ==> !x.1.VDict?
    decreases d, 1
  {
    var items := FlattenItems(d, 0, parentKey, sep);
    UpdateEntryFrom([], items);
    FromItems(items)
  }

  /** `flatten(mapping, sep)` */
  function Flatten(m: Dict<Value>, sep: string := "."): Dict<Value> {
    FlattenDict(VDict(m), "", sep)
  }

  // ---------------------------------------------------------------- rebuild

  /** The first level of a dotted key: up to the first separator, or the
      whole key when it has none. */
  function FirstLevel(key: string, sep: string): string {
    match Find(key, sep)
    case None => key
    case Some(i) => key[..i]
  }

  /** With an empty separator `_insert_key` never shortens the key: it walks
      down the chain of `""` entries, fails on the first one that is not a
      dict, and recurses without end below the last one. */
  function EmptySeparatorError(current: Value): (e: Error)
    requires current.VDict?
    ensures e == RecursionError || e == ValueError(NotADictionary(""))
    decreases current
  {
    match IndexOf(current.entries, "")
    case None => RecursionError
    case Some(i) =>
      var v := current.entries[i].1;
      if !v.VDict? then ValueError(NotADictionary("")) else EmptySeparatorError(v)
  }

  /** `_insert_key(key, value, current)`, returning the new `current`. */
  function InsertKey(key: string, value: Value, current: Dict<Value>, sep: string): (r: Result<Dict<Value>>)
    decreases |key|
  {
    if sep == "" then Err(EmptySeparatorError(VDict(current)))
    else match Find(key, sep)
      case None =>
        if HasKey(current, key) then Err(ValueError(KeyExists(key)))
        else Ok(Set(current, key, value))
      case Some(index) =>
        var level := key[..index];
        if HasKey(current, level) && !Get(current, level).VDict? then Err(ValueError(NotADictionary(level)))
        else
          var sub := if HasKey(current, level) then Get(current, level).entries else [];
          var sub' :- InsertKey(key[index + |sep|..], value, sub, sep);
          Ok(Set(current, level, VDict(sub')))
  }

  /** The items from the first on, inserted one after the other into `acc`. */
  function RebuildFrom(items: Dict<Value>, acc: Dict<Value>, sep: string): Result<Dict<Value>>
    decreases |items|
  {
    if items == [] then Ok(acc)
    else
      var acc' :- InsertKey(items[0].0, items[0].1, acc, sep);
      RebuildFrom(items[1..], acc', sep)
  }

  /** What `rebuild(mapping, sep)` returns or raises. */
  function Rebuilt(mapping: Dict<Value>, sep: string := "."): Result<Dict<Value>> {
    RebuildFrom(mapping, [], sep)
  }

  /** `rebuild(mapping, sep)`: the loop over `mapping.items()`. */
  method Rebuild(mapping: Dict<Value>, sep: string := ".") returns (r: Result<Dict<Value>>)
    ensures r == Rebuilt(mapping, sep)
  {
    var result: Dict<Value> := [];
    for i := 0 to |mapping|
      invariant Rebuilt(mapping, sep) == RebuildFrom(mapping[i..], result, sep)
    {
      var (key, value) := mapping[i];
      assert mapping[i..][0] == (key, value) && mapping[i..][1..] == mapping[i + 1..];
      var next := InsertKey(key, value, result, sep);
      if next.Err? {
        return Err(next.error);
      }
      result := next.value;
    }
    return Ok(result);
  }

  /** Reading a dotted key back: the first level names a dict holding the
      rest of the key, down to the last level, which names the value. */
  function Lookup(d: Dict<Value>, key: string, sep: string): Option<Value>
    requires sep != ""
    decreases |key|
  {
    match Find(key, sep)
    case None => if HasKey(d, key) then Some(Get(d, key)) else None
    case Some(i) =>
      var level := key[..i];
      if HasKey(d, level) && Get(d, level).VDict? then Lookup(Get(d, level).entries, key[i + |sep|..], sep)
      else None
  }

  // --------------------------------------------------- the round-trip domain

  /** `key` is split off cleanly: in `key + sep` the separator first occurs
      right after `key`. For a one-character separator this is "`key` does
      not contain it"; a longer separator may also overlap the key's end. */
  predicate SplitsAt(key: string, sep: string) {
    Find(key + sep, sep) == Some(|key|)
  }

  /** Nested mappings on which `flatten` loses nothing: distinct keys at every
      level, each non-empty and split off cleanly, no empty sub-mapping. */
  predicate Clean(m: Value, sep: string)
    decreases m
  {
    m.VDict? && Distinct(m.entries) &&
    forall i :: 0 <= i < |m.entries| ==>
      m.entries[i].0 != "" && SplitsAt(m.entries[i].0, sep) &&
      (m.entries[i].1.VDict? ==> m.entries[i].1.entries != [] && Clean(m.entries[i].1, sep))
  }

  /** Every key of `d` with `pre` put in front. */
  function Under(pre: string, d: Dict<Value>): (r: Dict<Value>)
    ensures |r| == |d| && forall j :: 0 <= j < |d| ==> r[j] == (pre + d[j].0, d[j].1)
  {
    seq(|d|, j requires 0 <= j < |d| => (pre + d[j].0, d[j].1))
  }
}

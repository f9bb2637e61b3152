/** What `flatten` and `rebuild` guarantee: flattened values are never
    mappings, empty sub-mappings vanish, `rebuild` places every value where
    its dotted key says and nowhere else, conflicting keys are refused, and
    `rebuild(flatten(m)) == m` on the mappings `Clean` describes. */
module FlatteryProofs {
  import opened Dicts
  import opened Values
  import opened Flattery

  // ----------------------------------------------------------- separators

  /** A cleanly split non-empty key has a non-empty separator and does not
      contain it. */
  lemma SplitsAtShape(k: string, sep: string)
    requires k != "" && SplitsAt(k, sep)
    ensures sep != ""
    ensures Find(k, sep) == None
  {
    forall j | 0 <= j ensures !OccursAt(k, sep, j) {
      if OccursAt(k, sep, j) {
        assert (k + sep)[j..j + |sep|] == k[j..j + |sep|];
        assert OccursAt(k + sep, sep, j);
      }
    }
  }

  /** Below a cleanly split key, the key is what `find` splits off. */
  lemma FindAfterSplit(k: string, sep: string, r: string)
    requires SplitsAt(k, sep)
    ensures Find(k + sep + r, sep) == Some(|k|)
    ensures (k + sep + r)[..|k|] == k && (k + sep + r)[|k| + |sep|..] == r
    ensures FirstLevel(k + sep + r, sep) == k
  {
    var s := k + sep + r;
    assert s[|k|..|k| + |sep|] == sep;
    assert OccursAt(s, sep, |k|);
    forall j | 0 <= j < |k| ensures !OccursAt(s, sep, j) {
      if OccursAt(s, sep, j) {
        assert s[j..j + |sep|] == (k + sep)[j..j + |sep|];
        assert OccursAt(k + sep, sep, j);
      }
    }
    assert s[..|k|] == k;
    assert s[|k| + |sep|..] == r;
  }

  /** For a one-character separator, "split off cleanly" is "does not
      contain the separator". */
  lemma SingleCharSplits(k: string, c: char)
    ensures SplitsAt(k, [c]) <==> c !in k
  {
    var s := k + [c];
    forall j | 0 <= j < |s| ensures OccursAt(s, [c], j) <==> s[j] == c {
      assert s[j..j + 1] == [s[j]];
    }
    assert OccursAt(s, [c], |k|);
    if c in k {
      var j :| 0 <= j < |k| && k[j] == c;
      assert s[j] == c;
    }
  }

  // --------------------------------------------------------------- prefixes

  lemma UnderIndexOf(pre: string, d: Dict<Value>, k: string)
    ensures IndexOf(Under(pre, d), pre + k) == IndexOf(d, k)
  {
    var u := Under(pre, d);
    forall j | 0 <= j < |d| ensures (u[j].0 == pre + k) == (d[j].0 == k) {
      if u[j].0 == pre + k {
        assert d[j].0 == (pre + d[j].0)[|pre|..];
        assert k == (pre + k)[|pre|..];
      }
    }
    match IndexOf(d, k)
    case None =>
    case Some(i) =>
      assert u[i].0 == pre + k;
  }

  lemma UnderSet(pre: string, d: Dict<Value>, k: string, v: Value)
    ensures Set(Under(pre, d), pre + k, v) == Under(pre, Set(d, k, v))
  {
    UnderIndexOf(pre, d, k);
    match IndexOf(d, k)
    case Some(i) =>
      assert Under(pre, d[i := (k, v)]) == Under(pre, d)[i := (pre + k, v)];
    case None =>
      assert Under(pre, d + [(k, v)]) == Under(pre, d) + [(pre + k, v)];
  }

  lemma {:induction false} UnderUpdate(pre: string, d: Dict<Value>, e: Dict<Value>)
    ensures Update(Under(pre, d), Under(pre, e)) == Under(pre, Update(d, e))
    decreases |e|
  {
    if e == [] {
      assert Under(pre, e) == [];
    } else {
      UnderSet(pre, d, e[0].0, e[0].1);
      assert Under(pre, e)[1..] == Under(pre, e[1..]);
      UnderUpdate(pre, Set(d, e[0].0, e[0].1), e[1..]);
    }
  }

  /** Prefixing every key commutes with `dict(items)`. */
  lemma UnderFromItems(pre: string, items: Dict<Value>)
    ensures FromItems(Under(pre, items)) == Under(pre, FromItems(items))
  {
    var none: Dict<Value> := [];
    assert Under(pre, none) == none;
    UnderUpdate(pre, none, items);
  }

  lemma UnderUnder(p: string, q: string, d: Dict<Value>)
    ensures Under(p, Under(q, d)) == Under(p + q, d)
  {
    forall j | 0 <= j < |d| ensures p + (q + d[j].0) == (p + q) + d[j].0 {
    }
  }

  lemma UnderAppend(pre: string, a: Dict<Value>, b: Dict<Value>)
    ensures Under(pre, a + b) == Under(pre, a) + Under(pre, b)
  {
  }

  lemma UnderDistinct(pre: string, d: Dict<Value>)
    requires Distinct(d)
    ensures Distinct(Under(pre, d))
  {
    var u := Under(pre, d);
    forall i, j | 0 <= i < j < |u| ensures u[i].0 != u[j].0 {
      assert d[i].0 == u[i].0[|pre|..] && d[j].0 == u[j].0[|pre|..];
    }
  }

  // ---------------------------------------------------------------- flatten

  /** One nested mapping under `p + sep + k` flattens to its flattening under
      `k`, prefixed by `p + sep`. */
  lemma NestedUnder(v: Value, y: Dict<Value>, k: string, p: string, sep: string)
    requires v.VDict?
    requires FlattenItems(v, 0, p + sep + k, sep) == Under(p + sep + k + sep, y)
    requires FlattenItems(v, 0, k, sep) == Under(k + sep, y)
    ensures FlattenDict(v, p + sep + k, sep) == Under(p + sep, FlattenDict(v, k, sep))
  {
    UnderFromItems(p + sep + k + sep, y);
    UnderFromItems(k + sep, y);
    UnderUnder(p + sep, k + sep, FromItems(y));
    assert (p + sep) + (k + sep) == p + sep + k + sep;
  }

  /** Below a non-empty parent key every flattened key is the parent key, the
      separator and the key flattened at the top. */
  lemma {:induction false} FlattenItemsUnder(d: Value, i: nat, p: string, sep: string)
    requires Clean(d, sep) && p != ""
    ensures FlattenItems(d, i, p, sep) == Under(p + sep, FlattenItems(d, i, "", sep))
    decreases d, |d.entries| - i
  {
    if i < |d.entries| {
      var k := d.entries[i].0;
      var v := d.entries[i].1;
      assert k != "";
      var rest := FlattenItems(d, i + 1, "", sep);
      FlattenItemsUnder(d, i + 1, p, sep);
      var here := if v.VDict? then FlattenDict(v, k, sep) else [(k, v)];
      var here' := if v.VDict? then FlattenDict(v, p + sep + k, sep) else [(p + sep + k, v)];
      assert FlattenItems(d, i, "", sep) == here + rest;
      assert FlattenItems(d, i, p, sep) == here' + FlattenItems(d, i + 1, p, sep);
      if v.VDict? {
        assert Clean(v, sep);
        FlattenItemsUnder(v, 0, p + sep + k, sep);
        FlattenItemsUnder(v, 0, k, sep);
        NestedUnder(v, FlattenItems(v, 0, "", sep), k, p, sep);
      } else {
        assert [(p + sep + k, v)] == Under(p + sep, [(k, v)]);
      }
      UnderAppend(p + sep, here, rest);
    }
  }

  lemma FlattenDictUnder(d: Value, p: string, sep: string)
    requires Clean(d, sep) && p != ""
    ensures FlattenDict(d, p, sep) == Under(p + sep, FlattenDict(d, "", sep))
  {
    FlattenItemsUnder(d, 0, p, sep);
    UnderFromItems(p + sep, FlattenItems(d, 0, "", sep));
  }

  /** A clean mapping with entries from `i` on flattens to some items. */
  lemma {:induction false} FlattenNonEmpty(d: Value, i: nat, p: string, sep: string)
    requires Clean(d, sep) && i < |d.entries|
    ensures FlattenItems(d, i, p, sep) != []
    decreases d
  {
    var k := d.entries[i].0;
    var v := d.entries[i].1;
    if v.VDict? {
      var newKey := if p != "" then p + sep + k else k;
      FlattenNonEmpty(v, 0, newKey, sep);
      UpdateNeverShrinks([], FlattenItems(v, 0, newKey, sep));
    }
  }

  /** The flattened keys of one top-level entry all have that entry's key as
      their first level, and do not repeat. */
  lemma EntryItems(d: Value, i: nat, sep: string)
    requires Clean(d, sep) && i < |d.entries|
    ensures var v := d.entries[i].1;
            var here := if v.VDict? then FlattenDict(v, d.entries[i].0, sep) else [(d.entries[i].0, v)];
            Distinct(here) && forall x :: x in here ==> FirstLevel(x.0, sep) == d.entries[i].0
  {
    var k := d.entries[i].0;
    var v := d.entries[i].1;
    SplitsAtShape(k, sep);
    if v.VDict? {
      assert Clean(v, sep);
      var f := FlattenDict(v, "", sep);
      FlattenDictUnder(v, k, sep);
      UnderDistinct(k + sep, f);
      forall x | x in Under(k + sep, f) ensures FirstLevel(x.0, sep) == k {
        var j :| 0 <= j < |f| && Under(k + sep, f)[j] == x;
        FindAfterSplit(k, sep, f[j].0);
        assert x.0 == k + sep + f[j].0;
      }
    }
  }

  /** On a clean mapping flattening produces no key twice, and every key's
      first level is a key of the mapping from entry `i` on. */
  lemma {:induction false} FlattenItemsDistinct(d: Value, i: nat, sep: string)
    requires Clean(d, sep) && i <= |d.entries|
    ensures Distinct(FlattenItems(d, i, "", sep))
    ensures forall x :: x in FlattenItems(d, i, "", sep) ==> HasKey(d.entries[i..], FirstLevel(x.0, sep))
    decreases |d.entries| - i
  {
    if i < |d.entries| {
      var k := d.entries[i].0;
      var v := d.entries[i].1;
      var here := if v.VDict? then FlattenDict(v, k, sep) else [(k, v)];
      var rest := FlattenItems(d, i + 1, "", sep);
      assert FlattenItems(d, i, "", sep) == here + rest;
      EntryItems(d, i, sep);
      FlattenItemsDistinct(d, i + 1, sep);
      assert d.entries[i..][1..] == d.entries[i + 1..];
      var later := d.entries[i + 1..];
      assert !HasKey(later, k) by {
        forall j | 0 <= j < |later| ensures later[j].0 != k {
          assert later[j] == d.entries[i + 1 + j];
        }
      }
      forall a, b | 0 <= a < |here| && 0 <= b < |rest| ensures here[a].0 != rest[b].0 {
        assert here[a] in here && rest[b] in rest;
      }
      DistinctAppend(here, rest);
      forall x | x in here + rest ensures HasKey(d.entries[i..], FirstLevel(x.0, sep)) {
        HasKeyCons(d.entries[i..], FirstLevel(x.0, sep));
        if x in here {
        } else {
          assert x in rest;
        }
      }
    }
  }

  /** On a clean mapping `dict(items)` has nothing to merge. */
  lemma FlattenIsItems(d: Value, sep: string)
    requires Clean(d, sep)
    ensures FlattenDict(d, "", sep) == FlattenItems(d, 0, "", sep)
  {
    FlattenItemsDistinct(d, 0, sep);
    FromItemsOfDistinct(FlattenItems(d, 0, "", sep));
  }

  // ------------------------------------------------------------ round trip

  lemma {:induction false} RebuildFromAppend(a: Dict<Value>, b: Dict<Value>, acc: Dict<Value>, sep: string)
    ensures RebuildFrom(a + b, acc, sep) ==
            var r := RebuildFrom(a, acc, sep);
            if r.Err? then Err(r.error) else RebuildFrom(b, r.value, sep)
    decreases |a|
  {
    if a == [] {
      assert a + b == b;
    } else {
      assert (a + b)[0] == a[0] && (a + b)[1..] == a[1..] + b;
      var r1 := InsertKey(a[0].0, a[0].1, acc, sep);
      if r1.Ok? {
        RebuildFromAppend(a[1..], b, r1.value, sep);
      }
    }
  }

  /** The dict `acc` holds under `k`, or a fresh one. */
  function Below(acc: Dict<Value>, k: string): Dict<Value> {
    if HasKey(acc, k) && Get(acc, k).VDict? then Get(acc, k).entries else []
  }

  /** Inserting `k + sep + r` is inserting `r` into the dict under `k`. */
  lemma InsertUnder(k: string, r: string, v: Value, acc: Dict<Value>, sep: string)
    requires k != "" && SplitsAt(k, sep)
    requires HasKey(acc, k) ==> Get(acc, k).VDict?
    ensures InsertKey(k + sep + r, v, acc, sep) ==
            var s := InsertKey(r, v, Below(acc, k), sep);
            if s.Err? then Err(s.error) else Ok(Set(acc, k, VDict(s.value)))
  {
    SplitsAtShape(k, sep);
    FindAfterSplit(k, sep, r);
  }

  /** Inserting every item of `x` below `k`: the items are inserted into the
      dict under `k`, which is created by the first of them. */
  lemma {:induction false} RebuildUnder(k: string, x: Dict<Value>, acc: Dict<Value>, sep: string)
    requires k != "" && SplitsAt(k, sep)
    requires HasKey(acc, k) ==> Get(acc, k).VDict?
    requires HasKey(acc, k) || x != []
    ensures RebuildFrom(Under(k + sep, x), acc, sep) ==
            var r := RebuildFrom(x, Below(acc, k), sep);
            if r.Err? then Err(r.error) else Ok(Set(acc, k, VDict(r.value)))
    decreases |x|
  {
    var u := Under(k + sep, x);
    if x == [] {
      assert u == [];
      SetSame(acc, k);
    } else {
      assert u[0] == (k + sep + x[0].0, x[0].1);
      assert u[1..] == Under(k + sep, x[1..]);
      InsertUnder(k, x[0].0, x[0].1, acc, sep);
      var s := InsertKey(x[0].0, x[0].1, Below(acc, k), sep);
      if s.Ok? {
        var acc' := Set(acc, k, VDict(s.value));
        assert HasKey(acc', k) && Get(acc', k) == VDict(s.value);
        RebuildUnder(k, x[1..], acc', sep);
        var r := RebuildFrom(x[1..], s.value, sep);
        if r.Ok? {
          SetTwice(acc, k, VDict(s.value), VDict(r.value));
        }
      }
    }
  }

  lemma AppendStep(acc: Dict<Value>, s: Dict<Value>, i: nat)
    requires i < |s|
    ensures acc + [s[i]] + s[i + 1..] == acc + s[i..]
  {
    assert s[i..] == [s[i]] + s[i + 1..];
  }

  lemma MissingAfterAppend(acc: Dict<Value>, k: string, v: Value, key: string)
    requires key != k && !HasKey(acc, key)
    ensures !HasKey(acc + [(k, v)], key)
  {
    var a' := acc + [(k, v)];
    forall a | 0 <= a < |a'| ensures a'[a].0 != key {
      if a < |acc| { assert a'[a] == acc[a]; }
    }
  }

  /** The items of one entry, rebuilt into a dict without its key, append
      the entry, given that its nested mapping (if any) round-trips. */
  lemma EntryRebuilds(d: Value, i: nat, acc: Dict<Value>, sep: string)
    requires Clean(d, sep) && i < |d.entries|
    requires !HasKey(acc, d.entries[i].0)
    requires d.entries[i].1.VDict? ==> RebuildFrom(FlattenDict(d.entries[i].1, "", sep), [], sep) == Ok(d.entries[i].1.entries)
    ensures var v := d.entries[i].1;
            var here := if v.VDict? then FlattenDict(v, d.entries[i].0, sep) else [(d.entries[i].0, v)];
            RebuildFrom(here, acc, sep) == Ok(acc + [d.entries[i]])
  {
    var k := d.entries[i].0;
    var v := d.entries[i].1;
    SplitsAtShape(k, sep);
    if v.VDict? {
      assert Clean(v, sep);
      FlattenDictUnder(v, k, sep);
      FlattenNonEmpty(v, 0, "", sep);
      UpdateNeverShrinks([], FlattenItems(v, 0, "", sep));
      RebuildUnder(k, FlattenDict(v, "", sep), acc, sep);
    }
  }

  /** Rebuilding the items of the entries from `i` on appends those entries. */
  lemma {:induction false} RoundTripFrom(d: Value, i: nat, acc: Dict<Value>, sep: string)
    requires Clean(d, sep) && i <= |d.entries|
    requires forall j :: i <= j < |d.entries| ==> !HasKey(acc, d.entries[j].0)
    ensures RebuildFrom(FlattenItems(d, i, "", sep), acc, sep) == Ok(acc + d.entries[i..])
    decreases d, 0, |d.entries| - i
  {
    if i == |d.entries| {
      assert acc + d.entries[i..] == acc;
    } else {
      var k := d.entries[i].0;
      var v := d.entries[i].1;
      var here := if v.VDict? then FlattenDict(v, k, sep) else [(k, v)];
      var rest := FlattenItems(d, i + 1, "", sep);
      assert FlattenItems(d, i, "", sep) == here + rest;
      RebuildFromAppend(here, rest, acc, sep);
      if v.VDict? {
        assert Clean(v, sep);
        RoundTripValue(v, sep);
      }
      EntryRebuilds(d, i, acc, sep);
      var acc' := acc + [(k, v)];
      forall j | i + 1 <= j < |d.entries| ensures !HasKey(acc', d.entries[j].0) {
        MissingAfterAppend(acc, k, v, d.entries[j].0);
      }
      RoundTripFrom(d, i + 1, acc', sep);
      AppendStep(acc, d.entries, i);
    }
  }

  lemma {:induction false} RoundTripValue(d: Value, sep: string)
    requires Clean(d, sep)
    ensures RebuildFrom(FlattenDict(d, "", sep), [], sep) == Ok(d.entries)
    decreases d, 1
  {
    FlattenIsItems(d, sep);
    RoundTripFrom(d, 0, [], sep);
    assert [] + d.entries[0..] == d.entries;
  }

  /** `rebuild(flatten(m, sep), sep) == m`, entry order included, on clean
      mappings. */
  lemma RoundTrip(m: Dict<Value>, sep: string)
    requires Clean(VDict(m), sep)
    ensures Rebuilt(Flatten(m, sep), sep) == Ok(m)
  {
    RoundTripValue(VDict(m), sep);
  }

  // ------------------------------------------------------ where rebuild puts values

  /** A key is its first level, the separator found after it, and the rest. */
  lemma KeyPieces(key: string, i: nat, sep: string)
    requires OccursAt(key, sep, i)
    ensures key == key[..i] + sep + key[i + |sep|..]
  {
    assert key == key[..i] + key[i..i + |sep|] + key[i + |sep|..];
  }

  /** After a successful insertion the key reads back the inserted value. */
  lemma {:induction false} InsertKeyFinds(key: string, v: Value, cur: Dict<Value>, sep: string)
    requires sep != "" && InsertKey(key, v, cur, sep).Ok?
    ensures Lookup(InsertKey(key, v, cur, sep).value, key, sep) == Some(v)
    decreases |key|
  {
    InsertKeyStep(key, v, cur, sep);
    var cur' := InsertKey(key, v, cur, sep).value;
    var f := Find(key, sep);
    if f.None? {
      LookupStep(cur', key, sep);
    } else {
      var level := key[..f.value];
      var rest := key[f.value + |sep|..];
      var s := InsertKey(rest, v, Below(cur, level), sep);
      LookupSetBelow(cur, level, s.value, key, sep);
      InsertKeyFinds(rest, v, Below(cur, level), sep);
    }
  }

  /** What a successful insertion did to `cur`, one level down. */
  lemma InsertKeyStep(key: string, v: Value, cur: Dict<Value>, sep: string)
    requires sep != "" && InsertKey(key, v, cur, sep).Ok?
    ensures Find(key, sep).None? ==>
              !HasKey(cur, key) && InsertKey(key, v, cur, sep).value == Set(cur, key, v)
    ensures Find(key, sep).Some? ==>
              var i := Find(key, sep).value;
              var level := key[..i];
              var s := InsertKey(key[i + |sep|..], v, Below(cur, level), sep);
              (HasKey(cur, level) ==> Get(cur, level).VDict?) && s.Ok? &&
              InsertKey(key, v, cur, sep).value == Set(cur, level, VDict(s.value))
  {
  }

  /** One level of `Lookup`. */
  lemma LookupStep(cur: Dict<Value>, k2: string, sep: string)
    requires sep != ""
    ensures Lookup(cur, k2, sep).Some? ==> HasKey(cur, FirstLevel(k2, sep))
    ensures Find(k2, sep).None? ==> Lookup(cur, k2, sep) == if HasKey(cur, k2) then Some(Get(cur, k2)) else None
    ensures Find(k2, sep).Some? ==>
              var level := FirstLevel(k2, sep);
              Lookup(cur, k2, sep) ==
              if HasKey(cur, level) && Get(cur, level).VDict? then Lookup(Below(cur, level), k2[Find(k2, sep).value + |sep|..], sep)
              else None
  {
  }

  /** Assigning under another first level leaves a lookup alone. */
  lemma LookupSetOther(cur: Dict<Value>, level: string, x: Value, k2: string, sep: string)
    requires sep != "" && FirstLevel(k2, sep) != level
    ensures Lookup(Set(cur, level, x), k2, sep) == Lookup(cur, k2, sep)
  {
  }

  /** Below the level just assigned a dict, a lookup reads that dict. */
  lemma LookupSetBelow(cur: Dict<Value>, level: string, s: Dict<Value>, k2: string, sep: string)
    requires sep != "" && Find(k2, sep).Some? && k2[..Find(k2, sep).value] == level
    ensures Lookup(Set(cur, level, VDict(s)), k2, sep) == Lookup(s, k2[Find(k2, sep).value + |sep|..], sep)
  {
  }

  /** A lookup below the level an insertion descends into reads the dict
      the insertion descends into. */
  lemma LookupBelowLevel(cur: Dict<Value>, k2: string, sep: string)
    requires sep != "" && Find(k2, sep).Some? && Lookup(cur, k2, sep).Some?
    ensures Lookup(cur, k2, sep) == Lookup(Below(cur, FirstLevel(k2, sep)), k2[Find(k2, sep).value + |sep|..], sep)
  {
    LookupStep(cur, k2, sep);
  }

  /** A successful insertion keeps every non-mapping value that was readable. */
  lemma {:induction false} InsertKeyPreserves(key: string, v: Value, cur: Dict<Value>, k2: string, sep: string)
    requires sep != "" && InsertKey(key, v, cur, sep).Ok?
    requires Lookup(cur, k2, sep).Some? && !Lookup(cur, k2, sep).value.VDict?
    ensures Lookup(InsertKey(key, v, cur, sep).value, k2, sep) == Lookup(cur, k2, sep)
    decreases |key|
  {
    InsertKeyStep(key, v, cur, sep);
    LookupStep(cur, k2, sep);
    var f := Find(key, sep);
    if f.None? {
      LookupSetOther(cur, key, v, k2, sep);
    } else {
      var level := key[..f.value];
      var rest := key[f.value + |sep|..];
      var s := InsertKey(rest, v, Below(cur, level), sep);
      if FirstLevel(k2, sep) != level {
        LookupSetOther(cur, level, VDict(s.value), k2, sep);
      } else {
        var rest2 := k2[Find(k2, sep).value + |sep|..];
        LookupSetBelow(cur, level, s.value, k2, sep);
        LookupBelowLevel(cur, k2, sep);
        InsertKeyPreserves(rest, v, Below(cur, level), rest2, sep);
      }
    }
  }

  /** Two keys with the same first level and the same rest are one key. */
  lemma SameLevelSameRest(key: string, k2: string, sep: string)
    requires Find(key, sep).Some? && Find(k2, sep).Some?
    requires FirstLevel(key, sep) == FirstLevel(k2, sep)
    requires key[Find(key, sep).value + |sep|..] == k2[Find(k2, sep).value + |sep|..]
    ensures key == k2
  {
    KeyPieces(key, Find(key, sep).value, sep);
    KeyPieces(k2, Find(k2, sep).value, sep);
  }

  /** The last step of `InsertKeyOnlyAdds` below the level inserted into. */
  lemma OnlyAddsBelow(key: string, k2: string, cur: Dict<Value>, s: Dict<Value>, sep: string)
    requires sep != "" && Find(key, sep).Some? && Find(k2, sep).Some?
    requires FirstLevel(k2, sep) == FirstLevel(key, sep)
    requires var rest2 := k2[Find(k2, sep).value + |sep|..];
             rest2 == key[Find(key, sep).value + |sep|..] ||
             Lookup(Below(cur, FirstLevel(key, sep)), rest2, sep) == Lookup(s, rest2, sep)
    requires var l := Lookup(Set(cur, FirstLevel(key, sep), VDict(s)), k2, sep); l.Some?
    requires HasKey(cur, FirstLevel(key, sep)) ==> Get(cur, FirstLevel(key, sep)).VDict?
    ensures k2 == key || Lookup(cur, k2, sep) == Lookup(Set(cur, FirstLevel(key, sep), VDict(s)), k2, sep)
  {
    var level := FirstLevel(key, sep);
    var rest2 := k2[Find(k2, sep).value + |sep|..];
    LookupSetBelow(cur, level, s, k2, sep);
    if rest2 == key[Find(key, sep).value + |sep|..] {
      SameLevelSameRest(key, k2, sep);
    } else {
      LookupStep(cur, k2, sep);
      assert Lookup([], rest2, sep).None?;
    }
  }

  /** The first step of `InsertKeyOnlyAdds`, for a key without separator. */
  lemma OnlyAddsTop(key: string, v: Value, cur: Dict<Value>, k2: string, sep: string)
    requires sep != "" && Find(key, sep).None? && !v.VDict?
    requires Lookup(Set(cur, key, v), k2, sep).Some?
    ensures k2 == key || Lookup(cur, k2, sep) == Lookup(Set(cur, key, v), k2, sep)
  {
    if FirstLevel(k2, sep) != key {
      LookupSetOther(cur, key, v, k2, sep);
    } else {
      LookupStep(Set(cur, key, v), k2, sep);
    }
  }

  /** A successful insertion of a non-mapping value makes no non-mapping value
      readable except under the inserted key. */
  lemma {:induction false} InsertKeyOnlyAdds(key: string, v: Value, cur: Dict<Value>, k2: string, sep: string)
    requires sep != "" && InsertKey(key, v, cur, sep).Ok? && !v.VDict?
    requires var l := Lookup(InsertKey(key, v, cur, sep).value, k2, sep); l.Some? && !l.value.VDict?
    ensures k2 == key || Lookup(cur, k2, sep) == Lookup(InsertKey(key, v, cur, sep).value, k2, sep)
    decreases |key|
  {
    InsertKeyStep(key, v, cur, sep);
    var cur' := InsertKey(key, v, cur, sep).value;
    var f := Find(key, sep);
    if f.None? {
      OnlyAddsTop(key, v, cur, k2, sep);
    } else {
      var level := key[..f.value];
      var rest := key[f.value + |sep|..];
      var s := InsertKey(rest, v, Below(cur, level), sep);
      if FirstLevel(k2, sep) != level {
        LookupSetOther(cur, level, VDict(s.value), k2, sep);
      } else {
        LookupStep(cur', k2, sep);
        var rest2 := k2[Find(k2, sep).value + |sep|..];
        LookupSetBelow(cur, level, s.value, k2, sep);
        InsertKeyOnlyAdds(rest, v, Below(cur, level), rest2, sep);
        OnlyAddsBelow(key, k2, cur, s.value, sep);
      }
    }
  }

  lemma {:induction false} RebuildFromPreserves(items: Dict<Value>, acc: Dict<Value>, k2: string, sep: string)
    requires sep != "" && RebuildFrom(items, acc, sep).Ok?
    requires Lookup(acc, k2, sep).Some? && !Lookup(acc, k2, sep).value.VDict?
    ensures Lookup(RebuildFrom(items, acc, sep).value, k2, sep) == Lookup(acc, k2, sep)
    decreases |items|
  {
    if items != [] {
      InsertKeyPreserves(items[0].0, items[0].1, acc, k2, sep);
      RebuildFromPreserves(items[1..], InsertKey(items[0].0, items[0].1, acc, sep).value, k2, sep);
    }
  }

  lemma {:induction false} RebuildFromFinds(items: Dict<Value>, acc: Dict<Value>, j: nat, sep: string)
    requires sep != "" && RebuildFrom(items, acc, sep).Ok?
    requires j < |items| && !items[j].1.VDict?
    ensures Lookup(RebuildFrom(items, acc, sep).value, items[j].0, sep) == Some(items[j].1)
    decreases |items|
  {
    var acc' := InsertKey(items[0].0, items[0].1, acc, sep).value;
    if j == 0 {
      InsertKeyFinds(items[0].0, items[0].1, acc, sep);
      RebuildFromPreserves(items[1..], acc', items[0].0, sep);
    } else {
      RebuildFromFinds(items[1..], acc', j - 1, sep);
    }
  }

  lemma {:induction false} RebuildFromOnly(items: Dict<Value>, acc: Dict<Value>, k2: string, sep: string)
    requires sep != "" && RebuildFrom(items, acc, sep).Ok?
    requires forall x :: x in items ==> !x.1.VDict?
    requires var l := Lookup(RebuildFrom(items, acc, sep).value, k2, sep); l.Some? && !l.value.VDict?
    ensures var l := Lookup(RebuildFrom(items, acc, sep).value, k2, sep);
            (k2, l.value) in items || Lookup(acc, k2, sep) == l
    decreases |items|
  {
    if items != [] {
      var acc' := InsertKey(items[0].0, items[0].1, acc, sep).value;
      var l := Lookup(RebuildFrom(items, acc, sep).value, k2, sep);
      assert items[0] in items;
      RebuildFromOnly(items[1..], acc', k2, sep);
      if (k2, l.value) in items[1..] {
        assert (k2, l.value) in items;
      } else {
        InsertKeyOnlyAdds(items[0].0, items[0].1, acc, k2, sep);
        if k2 == items[0].0 {
          InsertKeyFinds(items[0].0, items[0].1, acc, sep);
          assert (k2, l.value) == items[0];
        }
      }
    }
  }

  /** Every non-mapping value of the flat mapping reads back under its key
      from the rebuilt one. */
  lemma RebuiltPlacesEveryValue(mapping: Dict<Value>, sep: string)
    requires sep != "" && Rebuilt(mapping, sep).Ok?
    ensures forall j :: 0 <= j < |mapping| && !mapping[j].1.VDict? ==>
              Lookup(Rebuilt(mapping, sep).value, mapping[j].0, sep) == Some(mapping[j].1)
  {
    forall j | 0 <= j < |mapping| && !mapping[j].1.VDict?
      ensures Lookup(Rebuilt(mapping, sep).value, mapping[j].0, sep) == Some(mapping[j].1)
    {
      RebuildFromFinds(mapping, [], j, sep);
    }
  }

  /** When the flat mapping holds no mappings, every non-mapping value that
      reads back from the rebuilt one is an entry of the flat mapping. */
  lemma RebuiltPlacesNothingElse(mapping: Dict<Value>, sep: string)
    requires sep != "" && Rebuilt(mapping, sep).Ok?
    requires forall x :: x in mapping ==> !x.1.VDict?
    ensures forall k :: Lookup(Rebuilt(mapping, sep).value, k, sep).Some? &&
                        !Lookup(Rebuilt(mapping, sep).value, k, sep).value.VDict? ==>
              (k, Lookup(Rebuilt(mapping, sep).value, k, sep).value) in mapping
  {
    forall k | Lookup(Rebuilt(mapping, sep).value, k, sep).Some? &&
               !Lookup(Rebuilt(mapping, sep).value, k, sep).value.VDict?
      ensures (k, Lookup(Rebuilt(mapping, sep).value, k, sep).value) in mapping
    {
      RebuildFromOnly(mapping, [], k, sep);
      assert Lookup([], k, sep).None?;
    }
  }

  /** A non-mapping value under `k` and another under `k + sep + r` cannot
      both be placed: `rebuild` raises, whichever comes first. */
  lemma ConflictingKeysFail(mapping: Dict<Value>, i: nat, j: nat, r: string, sep: string)
    requires i < |mapping| && j < |mapping|
    requires !mapping[i].1.VDict? && !mapping[j].1.VDict?
    requires mapping[i].0 != "" && SplitsAt(mapping[i].0, sep)
    requires mapping[j].0 == mapping[i].0 + sep + r
    ensures Rebuilt(mapping, sep).Err?
  {
    var k := mapping[i].0;
    SplitsAtShape(k, sep);
    if Rebuilt(mapping, sep).Ok? {
      var res := Rebuilt(mapping, sep).value;
      RebuildFromFinds(mapping, [], i, sep);
      RebuildFromFinds(mapping, [], j, sep);
      FindAfterSplit(k, sep, r);
      assert false;
    }
  }

  // ----------------------------------------------------- flatten, read back

  /** On a clean mapping the flattened entries are exactly its leaves: a
      non-mapping value at path `k1, ..., kn` appears under
      `k1 + sep + ... + sep + kn`, and nothing else appears. */
  lemma FlattenedEntriesAreLeaves(m: Dict<Value>, sep: string, key: string, v: Value)
    requires Clean(VDict(m), sep) && sep != ""
    ensures (key, v) in Flatten(m, sep) <==> Lookup(m, key, sep) == Some(v) && !v.VDict?
  {
    var f := Flatten(m, sep);
    RoundTrip(m, sep);
    RebuiltPlacesEveryValue(f, sep);
    RebuiltPlacesNothingElse(f, sep);
    if (key, v) in f {
      var j :| 0 <= j < |f| && f[j] == (key, v);
      assert !f[j].1.VDict?;
    }
  }

  /** The items from entry `i` on depend on those entries only. */
  lemma {:induction false} FlattenItemsSuffix(s: Dict<Value>, i: nat, t: Dict<Value>, j: nat, p: string, sep: string)
    requires i <= |s| && j <= |t| && s[i..] == t[j..]
    ensures FlattenItems(VDict(s), i, p, sep) == FlattenItems(VDict(t), j, p, sep)
    decreases |s| - i
  {
    if i < |s| {
      assert s[i] == s[i..][0] == t[j..][0] == t[j];
      assert s[i + 1..] == s[i..][1..] == t[j..][1..] == t[j + 1..];
      FlattenItemsSuffix(s, i + 1, t, j + 1, p, sep);
    }
  }

  /** Dropping an entry of `a` from the front changes no later item. */
  lemma {:induction false} EmptySubmapSkipped(a: Dict<Value>, k: string, b: Dict<Value>, i: nat, p: string, sep: string)
    requires i <= |a|
    ensures FlattenItems(VDict(a + [(k, VDict([]))] + b), i, p, sep) == FlattenItems(VDict(a + b), i, p, sep)
    decreases |a| - i
  {
    var s := a + [(k, VDict([]))] + b;
    if i < |a| {
      assert s[i] == (a + b)[i] == a[i];
      EmptySubmapSkipped(a, k, b, i + 1, p, sep);
    } else {
      EmptySubmapAt(a, k, b, p, sep);
    }
  }

  lemma EmptySubmapAt(a: Dict<Value>, k: string, b: Dict<Value>, p: string, sep: string)
    ensures FlattenItems(VDict(a + [(k, VDict([]))] + b), |a|, p, sep) == FlattenItems(VDict(a + b), |a|, p, sep)
  {
    var s := a + [(k, VDict([]))] + b;
    var newKey := if p != "" then p + sep + k else k;
    var none: Dict<Value> := [];
    assert FlattenItems(VDict(none), 0, newKey, sep) == none;
    assert FlattenDict(VDict(none), newKey, sep) == none;
    assert s[|a|] == (k, VDict([]));
    assert s[|a| + 1..] == b == (a + b)[|a|..];
    FlattenItemsSuffix(s, |a| + 1, a + b, |a|, p, sep);
  }

  /** A nested empty mapping contributes no keys. */
  lemma EmptySubmapVanishes(a: Dict<Value>, k: string, b: Dict<Value>, sep: string)
    ensures Flatten(a + [(k, VDict([]))] + b, sep) == Flatten(a + b, sep)
  {
    EmptySubmapSkipped(a, k, b, 0, "", sep);
  }

  // ---------------------------------------------------- rebuild, error paths

  /** With an empty separator no non-empty mapping rebuilds. */
  lemma EmptySeparatorNeverRebuilds(mapping: Dict<Value>)
    ensures Rebuilt(mapping, "").Ok? <==> mapping == []
    ensures mapping != [] ==> Rebuilt(mapping, "") == Err(RecursionError)
  {
    var none: Dict<Value> := [];
    assert IndexOf(none, "") == None;
  }

  // -------------------------------------------------------------- examples

  /** `{'d': 2, 'e': 3}` */
  function InnerC(): Value {
    VDict([("d", VInt(2)), ("e", VInt(3))])
  }

  /** `{'b': 1, 'c': {'d': 2, 'e': 3}}` */
  function InnerA(): Value {
    VDict([("b", VInt(1)), ("c", InnerC())])
  }

  /** `{'a': {'b': 1, 'c': {'d': 2, 'e': 3}}, 'f': 4}` */
  function Nested(): Dict<Value> {
    [("a", InnerA()), ("f", VInt(4))]
  }

  /** `{'a.b': 1, 'a.c.d': 2, 'a.c.e': 3, 'f': 4}` with `c` for the dot. */
  function Flat(c: char): Dict<Value> {
    [(['a', c, 'b'], VInt(1)), (['a', c, 'c', c, 'd'], VInt(2)), (['a', c, 'c', c, 'e'], VInt(3)), ("f", VInt(4))]
  }

  /** Clean mappings, built one entry at a time. */
  lemma CleanCons(k: string, v: Value, rest: Dict<Value>, sep: string)
    requires k != "" && SplitsAt(k, sep)
    requires forall j :: 0 <= j < |rest| ==> rest[j].0 != k
    requires v.VDict? ==> v.entries != [] && Clean(v, sep)
    requires Clean(VDict(rest), sep)
    ensures Clean(VDict([(k, v)] + rest), sep)
  {
    var m := [(k, v)] + rest;
    forall i | 1 <= i < |m| ensures m[i] == rest[i - 1] {
    }
  }

  lemma LeafIsClean(k: string, v: Value, sep: string)
    requires k != "" && SplitsAt(k, sep) && !v.VDict?
    ensures Clean(VDict([(k, v)]), sep)
  {
    var none: Dict<Value> := [];
    assert [(k, v)] == [(k, v)] + none;
    CleanCons(k, v, none, sep);
  }

  lemma InnerCIsClean(c: char)
    requires c !in "abcdef"
    ensures Clean(InnerC(), [c])
  {
    SingleCharSplits("d", c);
    SingleCharSplits("e", c);
    LeafIsClean("e", VInt(3), [c]);
    CleanCons("d", VInt(2), [("e", VInt(3))], [c]);
    assert [("d", VInt(2))] + [("e", VInt(3))] == InnerC().entries;
  }

  lemma InnerAIsClean(c: char)
    requires c !in "abcdef"
    ensures Clean(InnerA(), [c])
  {
    SingleCharSplits("b", c);
    SingleCharSplits("c", c);
    InnerCIsClean(c);
    var none: Dict<Value> := [];
    assert Clean(VDict(none), [c]);
    CleanCons("c", InnerC(), none, [c]);
    assert [("c", InnerC())] + none == [("c", InnerC())];
    CleanCons("b", VInt(1), [("c", InnerC())], [c]);
    assert [("b", VInt(1))] + [("c", InnerC())] == InnerA().entries;
  }

  lemma NestedIsClean(c: char)
    requires c !in "abcdef"
    ensures Clean(VDict(Nested()), [c])
  {
    SingleCharSplits("a", c);
    SingleCharSplits("f", c);
    InnerAIsClean(c);
    LeafIsClean("f", VInt(4), [c]);
    CleanCons("a", InnerA(), [("f", VInt(4))], [c]);
    assert [("a", InnerA())] + [("f", VInt(4))] == Nested();
  }

  lemma FlattenInnerC(c: char)
    requires c !in "abcdef"
    ensures FlattenDict(InnerC(), "c", [c]) == [(['c', c, 'd'], VInt(2)), (['c', c, 'e'], VInt(3))]
  {
    var sep := [c];
    InnerCIsClean(c);
    FlattenIsItems(InnerC(), sep);
    assert FlattenItems(InnerC(), 2, "", sep) == [];
    assert FlattenItems(InnerC(), 1, "", sep) == [("e", VInt(3))];
    assert FlattenDict(InnerC(), "", sep) == [("d", VInt(2)), ("e", VInt(3))];
    FlattenDictUnder(InnerC(), "c", sep);
    UnderC(c);
  }

  lemma UnderC(c: char)
    ensures Under("c" + [c], [("d", VInt(2)), ("e", VInt(3))]) == [(['c', c, 'd'], VInt(2)), (['c', c, 'e'], VInt(3))]
  {
    var sep := [c];
    assert "c" + sep + "d" == ['c', c, 'd'] && "c" + sep + "e" == ['c', c, 'e'];
  }

  lemma FlattenInnerATop(c: char)
    requires c !in "abcdef"
    ensures FlattenDict(InnerA(), "", [c]) == [("b", VInt(1)), (['c', c, 'd'], VInt(2)), (['c', c, 'e'], VInt(3))]
  {
    InnerAIsClean(c);
    FlattenIsItems(InnerA(), [c]);
    InnerAItems(c);
  }

  lemma InnerAItems(c: char)
    requires c !in "abcdef"
    ensures FlattenItems(InnerA(), 0, "", [c]) == [("b", VInt(1)), (['c', c, 'd'], VInt(2)), (['c', c, 'e'], VInt(3))]
  {
    var sep := [c];
    FlattenInnerC(c);
    assert FlattenItems(InnerA(), 2, "", sep) == [];
    assert FlattenItems(InnerA(), 1, "", sep) == FlattenDict(InnerC(), "c", sep);
  }

  lemma FlattenInnerA(c: char)
    requires c !in "abcdef"
    ensures FlattenDict(InnerA(), "a", [c]) == Flat(c)[..3]
  {
    var sep := [c];
    var fc := [(['c', c, 'd'], VInt(2)), (['c', c, 'e'], VInt(3))];
    FlattenInnerATop(c);
    assert FlattenDict(InnerA(), "a", sep) == Under("a" + sep, FlattenDict(InnerA(), "", sep)) by {
      InnerAIsClean(c);
      FlattenDictUnder(InnerA(), "a", sep);
    }
    UnderA(c);
  }

  lemma UnderA(c: char)
    ensures Under("a" + [c], [("b", VInt(1)), (['c', c, 'd'], VInt(2)), (['c', c, 'e'], VInt(3))]) == Flat(c)[..3]
  {
    var sep := [c];
    assert "a" + sep + "b" == ['a', c, 'b'];
    assert "a" + sep + ['c', c, 'd'] == ['a', c, 'c', c, 'd'] && "a" + sep + ['c', c, 'e'] == ['a', c, 'c', c, 'e'];
  }

  lemma FlattenNested(c: char)
    requires c !in "abcdef"
    ensures Flatten(Nested(), [c]) == Flat(c)
  {
    NestedIsClean(c);
    FlattenIsItems(VDict(Nested()), [c]);
    NestedItems(c);
  }

  lemma NestedItems(c: char)
    requires c !in "abcdef"
    ensures FlattenItems(VDict(Nested()), 0, "", [c]) == Flat(c)
  {
    var sep := [c];
    FlattenInnerA(c);
    assert FlattenItems(VDict(Nested()), 2, "", sep) == [];
    assert FlattenItems(VDict(Nested()), 1, "", sep) == [("f", VInt(4))];
    assert Flat(c)[..3] + [("f", VInt(4))] == Flat(c);
  }

  /** With any one-character separator outside the keys, the nested example
      flattens to its dotted form and rebuilds from it. */
  lemma FlattenAndRebuildAny(c: char)
    requires c !in "abcdef"
    ensures Flatten(Nested(), [c]) == Flat(c)
    ensures Rebuilt(Flat(c), [c]) == Ok(Nested())
  {
    FlattenNested(c);
    NestedIsClean(c);
    RoundTrip(Nested(), [c]);
  }

  /** The dotted form, as the test suite uses it. */
  lemma FlattenAndRebuildDotted()
    ensures Flatten(Nested(), ".") == [("a.b", VInt(1)), ("a.c.d", VInt(2)), ("a.c.e", VInt(3)), ("f", VInt(4))]
    ensures Rebuilt([("a.b", VInt(1)), ("a.c.d", VInt(2)), ("a.c.e", VInt(3)), ("f", VInt(4))], ".") == Ok(Nested())
  {
    FlattenAndRebuildAny('.');
    assert Flat('.') == [("a.b", VInt(1)), ("a.c.d", VInt(2)), ("a.c.e", VInt(3)), ("f", VInt(4))];
  }

  /** The colon-separated form, as the test suite uses it. */
  lemma FlattenAndRebuildColon()
    ensures Flatten(Nested(), ":") == [("a:b", VInt(1)), ("a:c:d", VInt(2)), ("a:c:e", VInt(3)), ("f", VInt(4))]
    ensures Rebuilt([("a:b", VInt(1)), ("a:c:d", VInt(2)), ("a:c:e", VInt(3)), ("f", VInt(4))], ":") == Ok(Nested())
  {
    FlattenAndRebuildAny(':');
    assert Flat(':') == [("a:b", VInt(1)), ("a:c:d", VInt(2)), ("a:c:e", VInt(3)), ("f", VInt(4))];
  }

  /** The first occurrence, read off position by position. */
  lemma FindIs(s: string, sep: string, i: nat)
    requires OccursAt(s, sep, i)
    requires forall j :: 0 <= j < i ==> !OccursAt(s, sep, j)
    ensures Find(s, sep) == Some(i)
  {
  }


  /** The keys the examples below split, and where. */
  lemma ExampleFinds()
    ensures Find("a", ".") == None && Find("b", ".") == None
    ensures Find("a.b", ".") == Some(1)
    ensures Find("xaaay", "aa") == Some(1) && Find("xaaa", "aa") == Some(1)
    ensures Find("ay", "aa") == None
  {
    assert "a"[0..1] == "a" && "b"[0..1] == "b";
    assert "a.b"[0..1] == "a" && "a.b"[1..2] == ".";
    FindIs("a.b", ".", 1);
    assert "xaaay"[0..2] == "xa" && "xaaay"[1..3] == "aa";
    FindIs("xaaay", "aa", 1);
    assert "xaaa"[0..2] == "xa" && "xaaa"[1..3] == "aa";
    FindIs("xaaa", "aa", 1);
    assert "ay"[0..2] == "ay";
  }

  /** A flattened key that collides with a written-out one keeps the first
      position and the last value: `{"a": {"b": 1}, "a.b": 2}` flattens to
      `{"a.b": 2}`. */
  lemma CollisionExample()
    ensures Flatten([("a", VDict([("b", VInt(1))])), ("a.b", VInt(2))], ".") == [("a.b", VInt(2))]
  {
    var inner := VDict([("b", VInt(1))]);
    var none: Dict<Value> := [];
    assert "a" + "." + "b" == "a.b";
    assert FlattenItems(inner, 1, "a", ".") == none;
    assert FlattenItems(inner, 0, "a", ".") == [("a.b", VInt(1))];
    assert FromItems([("a.b", VInt(1))]) == [("a.b", VInt(1))];
    var d := VDict([("a", inner), ("a.b", VInt(2))]);
    assert FlattenItems(d, 2, "", ".") == none;
    assert FlattenItems(d, 1, "", ".") == [("a.b", VInt(2))];
    assert FlattenItems(d, 0, "", ".") == [("a.b", VInt(1)), ("a.b", VInt(2))];
    SetTwice(none, "a.b", VInt(1), VInt(2));
  }

  /** ... and that key rebuilds to a nesting the original did not have. */
  lemma CollisionRebuilds()
    ensures Rebuilt([("a.b", VInt(2))], ".") == Ok([("a", VDict([("b", VInt(2))]))])
  {
    ExampleFinds();
    var none: Dict<Value> := [];
    assert "a.b"[..1] == "a" && "a.b"[2..] == "b";
    assert Find("b", ".") == None;
    assert !HasKey(none, "b");
    assert Set(none, "b", VInt(2)) == [("b", VInt(2))];
    assert InsertKey("b", VInt(2), none, ".") == Ok([("b", VInt(2))]);
    assert !HasKey(none, "a");
    assert Set(none, "a", VDict([("b", VInt(2))])) == [("a", VDict([("b", VInt(2))]))];
    assert InsertKey("a.b", VInt(2), none, ".") == Ok([("a", VDict([("b", VInt(2))]))]);
    assert [("a.b", VInt(2))][1..] == none;
  }

  /** A separator that can overlap a key's end splits elsewhere on the way
      back: with `sep == "aa"`, `{"xa": {"y": 1}}` and `{"x": {"ay": 1}}`
      both flatten to `{"xaaay": 1}`, which rebuilds to the second. */
  lemma OverlapFlattens()
    ensures Flatten([("xa", VDict([("y", VInt(1))]))], "aa") == [("xaaay", VInt(1))]
    ensures Flatten([("x", VDict([("ay", VInt(1))]))], "aa") == [("xaaay", VInt(1))]
  {
    var none: Dict<Value> := [];
    assert "xa" + "aa" + "y" == "xaaay" && "x" + "aa" + "ay" == "xaaay";
    var i1 := VDict([("y", VInt(1))]);
    assert FlattenItems(i1, 1, "xa", "aa") == none;
    assert FlattenItems(i1, 0, "xa", "aa") == [("xaaay", VInt(1))];
    var d1 := VDict([("xa", i1)]);
    assert FlattenItems(d1, 1, "", "aa") == none;
    var i2 := VDict([("ay", VInt(1))]);
    assert FlattenItems(i2, 1, "x", "aa") == none;
    assert FlattenItems(i2, 0, "x", "aa") == [("xaaay", VInt(1))];
    var d2 := VDict([("x", i2)]);
    assert FlattenItems(d2, 1, "", "aa") == none;
  }

  lemma OverlapRebuilds()
    ensures Rebuilt([("xaaay", VInt(1))], "aa") == Ok([("x", VDict([("ay", VInt(1))]))])
    ensures !SplitsAt("xa", "aa")
  {
    ExampleFinds();
    assert "xa" + "aa" == "xaaa";
    var none: Dict<Value> := [];
    InsertOverlapKey();
    assert [("xaaay", VInt(1))][1..] == none;
  }

  lemma InsertOverlapKey()
    ensures InsertKey("xaaay", VInt(1), [], "aa") == Ok([("x", VDict([("ay", VInt(1))]))])
  {
    ExampleFinds();
    assert "xaaay"[..1] == "x" && "xaaay"[3..] == "ay";
    var none: Dict<Value> := [];
    assert !HasKey(none, "ay") && !HasKey(none, "x");
    assert Set(none, "ay", VInt(1)) == [("ay", VInt(1))];
    assert InsertKey("ay", VInt(1), none, "aa") == Ok([("ay", VInt(1))]);
    assert Set(none, "x", VDict([("ay", VInt(1))])) == [("x", VDict([("ay", VInt(1))]))];
  }

  /** A key that is both a value and a level cannot be rebuilt, whichever
      comes first. */
  lemma ConflictExamples()
    ensures Rebuilt([("a", VInt(1)), ("a.b", VInt(2))], ".") == Err(ValueError(NotADictionary("a")))
    ensures Rebuilt([("a.b", VInt(2)), ("a", VInt(1))], ".") == Err(ValueError(KeyExists("a")))
    ensures Rebuilt([("a", VInt(1)), ("a", VInt(2))], ".") == Err(ValueError(KeyExists("a")))
  {
    ExampleFinds();
    assert "a.b"[..1] == "a" && "a.b"[2..] == "b";
  }
}

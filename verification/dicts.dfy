/** Insertion-ordered dictionaries with string keys, the way Python's `dict`
    behaves: a list of (key, value) entries, assignment to a present key keeps
    its position, assignment to a new key appends it. */
module Dicts {

  datatype Option<+T> = None | Some(value: T)

  type Dict<X> = seq<(string, X)>

  /** Position of `k` in `d`, or None if `k` is not a key of `d`. */
  function IndexOf<X>(d: Dict<X>, k: string): (r: Option<nat>)
    ensures r.Some? ==> r.value < |d| && d[r.value].0 == k
    ensures r.Some? ==> forall j :: 0 <= j < r.value ==> d[j].0 != k
    ensures r.None? <==> forall j :: 0 <= j < |d| ==> d[j].0 != k
  {
    if d == [] then None
    else if d[0].0 == k then Some(0)
    else match IndexOf(d[1..], k)
      case None => None
      case Some(i) => Some(i + 1)
  }

  predicate HasKey<X>(d: Dict<X>, k: string) {
    IndexOf(d, k).Some?
  }

  function Get<X>(d: Dict<X>, k: string): X
    requires HasKey(d, k)
  {
    d[IndexOf(d, k).value].1
  }

  /** `d.get(k, default)` */
  function GetOr<X>(d: Dict<X>, k: string, default: X): X {
    if HasKey(d, k) then Get(d, k) else default
  }

  /** The keys of `d`, in order. */
  function Keys<X>(d: Dict<X>): (ks: seq<string>)
    ensures |ks| == |d|
    ensures forall i :: 0 <= i < |d| ==> ks[i] == d[i].0
  {
    if d == [] then [] else [d[0].0] + Keys(d[1..])
  }

  /** No key occurs twice: the invariant every Python dict keeps. */
  predicate Distinct<X>(d: Dict<X>) {
    forall i, j :: 0 <= i < j < |d| ==> d[i].0 != d[j].0
  }

  /** `d[k] = v` */
  function Set<X>(d: Dict<X>, k: string, v: X): (r: Dict<X>)
    ensures HasKey(d, k) ==> |r| == |d|
    ensures !HasKey(d, k) ==> r == d + [(k, v)]
    ensures HasKey(r, k) && Get(r, k) == v
    ensures forall j :: 0 <= j < |d| && d[j].0 != k ==> r[j] == d[j]
    ensures forall k' :: k' != k ==> (HasKey(r, k') <==> HasKey(d, k'))
    ensures forall k' :: k' != k && HasKey(d, k') ==> Get(r, k') == Get(d, k')
    ensures Distinct(d) ==> Distinct(r)
  {
    match IndexOf(d, k)
    case Some(i) =>
      var r := d[i := (k, v)];
      assert forall j :: 0 <= j < |r| ==> r[j].0 == d[j].0;
      assert forall k' :: IndexOf(r, k') == IndexOf(d, k') by {
        forall k' ensures IndexOf(r, k') == IndexOf(d, k') { IndexOfSameKeys(r, d, k'); }
      }
      r
    case None =>
      var r := d + [(k, v)];
      assert r[|d|].0 == k;
      assert IndexOf(r, k) == Some(|d|);
      assert forall k' :: k' != k && HasKey(d, k') ==> IndexOf(r, k') == IndexOf(d, k') by {
        forall k' | k' != k && HasKey(d, k') ensures IndexOf(r, k') == IndexOf(d, k') {
          IndexOfAppend(d, [(k, v)], k');
        }
      }
      r
  }

  /** `d.update(e)`: every entry of `e`, in order, assigned into `d`. */
  function Update<X>(d: Dict<X>, e: Dict<X>): (r: Dict<X>)
    decreases |e|
  {
    if e == [] then d else Update(Set(d, e[0].0, e[0].1), e[1..])
  }

  /** `dict(items)`: duplicate keys keep the first position and the last value. */
  function FromItems<X>(items: Dict<X>): (r: Dict<X>)
    ensures Distinct(r)
  {
    UpdateKeepsDistinct([], items);
    Update([], items)
  }

  lemma IndexOfSameKeys<X>(a: Dict<X>, b: Dict<X>, k: string)
    requires |a| == |b|
    requires forall j :: 0 <= j < |a| ==> a[j].0 == b[j].0
    ensures IndexOf(a, k) == IndexOf(b, k)
  {
    if a != [] && a[0].0 != k {
      IndexOfSameKeys(a[1..], b[1..], k);
    }
  }

  lemma IndexOfAppend<X>(a: Dict<X>, b: Dict<X>, k: string)
    requires HasKey(a, k)
    ensures IndexOf(a + b, k) == IndexOf(a, k)
  {
    if a[0].0 != k {
      assert (a + b)[1..] == a[1..] + b;
      IndexOfAppend(a[1..], b, k);
    }
  }

  lemma UpdateKeepsDistinct<X>(d: Dict<X>, e: Dict<X>)
    requires Distinct(d)
    ensures Distinct(Update(d, e))
    decreases |e|
  {
    if e != [] {
      UpdateKeepsDistinct(Set(d, e[0].0, e[0].1), e[1..]);
    }
  }

  /** Assigning distinct new keys one after the other only appends them. */
  lemma {:induction false} UpdateDistinctAppends<X>(d: Dict<X>, e: Dict<X>)
    requires Distinct(d + e)
    ensures Update(d, e) == d + e
    decreases |e|
  {
    if e != [] {
      assert !HasKey(d, e[0].0) by {
        forall j | 0 <= j < |d| ensures d[j].0 != e[0].0 {
          assert (d + e)[j] == d[j] && (d + e)[|d|] == e[0];
        }
      }
      assert d + [e[0]] + e[1..] == d + e;
      UpdateDistinctAppends(d + [e[0]], e[1..]);
    }
  }

  /** `dict(items)` is `items` itself when no key repeats. */
  lemma FromItemsOfDistinct<X>(items: Dict<X>)
    requires Distinct(items)
    ensures FromItems(items) == items
  {
    assert [] + items == items;
    UpdateDistinctAppends([], items);
  }

  lemma HasKeyCons<X>(e: Dict<X>, k: string)
    requires e != []
    ensures HasKey(e, k) <==> e[0].0 == k || HasKey(e[1..], k)
    ensures HasKey(e, k) && e[0].0 != k ==> Get(e, k) == Get(e[1..], k)
    ensures e[0].0 == k ==> Get(e, k) == e[0].1
  {
  }

  lemma SetAt<X>(d: Dict<X>, k0: string, v0: X, k: string)
    ensures HasKey(Set(d, k0, v0), k) <==> k == k0 || HasKey(d, k)
    ensures HasKey(Set(d, k0, v0), k) ==> Get(Set(d, k0, v0), k) == (if k == k0 then v0 else Get(d, k))
  {
  }

  /** After `d.update(e)` a key is present iff it was in `d` or in `e`, and
      holds `e`'s value if `e` has it (`e` being a dict, its keys are distinct). */
  lemma {:induction false} UpdateHasKey<X>(d: Dict<X>, e: Dict<X>, k: string)
    requires Distinct(e)
    ensures HasKey(Update(d, e), k) <==> HasKey(d, k) || HasKey(e, k)
    ensures HasKey(Update(d, e), k) ==>
              Get(Update(d, e), k) == (if HasKey(e, k) then Get(e, k) else Get(d, k))
    decreases |e|
  {
    if e != [] {
      var d' := Set(d, e[0].0, e[0].1);
      assert Update(d, e) == Update(d', e[1..]);
      UpdateHasKey(d', e[1..], k);
      HasKeyCons(e, k);
      SetAt(d, e[0].0, e[0].1, k);
      if e[0].0 == k {
        assert !HasKey(e[1..], k) by {
          forall j | 0 <= j < |e[1..]| ensures e[1..][j].0 != k {
            assert e[1..][j] == e[j + 1];
          }
        }
      }
    }
  }

  /** Assigning the same key twice keeps only the second value. */
  lemma SetTwice<X>(d: Dict<X>, k: string, a: X, b: X)
    ensures Set(Set(d, k, a), k, b) == Set(d, k, b)
  {
    match IndexOf(d, k)
    case Some(i) =>
      IndexOfSameKeys(d[i := (k, a)], d, k);
    case None =>
      var d' := d + [(k, a)];
      assert d'[|d|].0 == k;
      assert IndexOf(d', k) == Some(|d|);
      assert d'[|d| := (k, b)] == d + [(k, b)];
  }

  /** Assigning a key the value it already holds changes nothing. */
  lemma SetSame<X>(d: Dict<X>, k: string)
    requires HasKey(d, k)
    ensures Set(d, k, Get(d, k)) == d
  {
    var i := IndexOf(d, k).value;
    assert d[i := (k, d[i].1)] == d;
  }

  /** Every entry after `d[k] = v` was an entry of `d` or is the new one. */
  lemma SetEntryFrom<X>(d: Dict<X>, k: string, v: X)
    ensures forall x :: x in Set(d, k, v) ==> x in d || x == (k, v)
  {
    match IndexOf(d, k)
    case Some(i) =>
      var r := d[i := (k, v)];
      forall x | x in r ensures x in d || x == (k, v) {
        var j :| 0 <= j < |r| && r[j] == x;
        if j != i { assert d[j] == x; }
      }
    case None =>
  }

  /** Every entry after `d.update(e)` is an entry of `d` or of `e`. */
  lemma {:induction false} UpdateEntryFrom<X>(d: Dict<X>, e: Dict<X>)
    ensures forall x :: x in Update(d, e) ==> x in d || x in e
    decreases |e|
  {
    if e != [] {
      var d' := Set(d, e[0].0, e[0].1);
      SetEntryFrom(d, e[0].0, e[0].1);
      UpdateEntryFrom(d', e[1..]);
      forall x | x in Update(d, e) ensures x in d || x in e {
        assert x in d' || x in e[1..];
        if x in e[1..] {
          var j :| 0 <= j < |e[1..]| && e[1..][j] == x;
          assert e[j + 1] == x;
        }
      }
    }
  }

  /** `d.update(e)` never removes a key, so never shrinks the dict. */
  lemma {:induction false} UpdateNeverShrinks<X>(d: Dict<X>, e: Dict<X>)
    ensures forall k :: HasKey(d, k) ==> HasKey(Update(d, e), k)
    ensures |Update(d, e)| >= |d|
    ensures e != [] ==> |Update(d, e)| > 0
    decreases |e|
  {
    if e != [] {
      var d' := Set(d, e[0].0, e[0].1);
      assert HasKey(d', e[0].0);
      forall k | HasKey(d, k) ensures HasKey(d', k) {
        SetAt(d, e[0].0, e[0].1, k);
      }
      UpdateNeverShrinks(d', e[1..]);
    }
  }

  /** Two dicts without a common key concatenate into a dict. */
  lemma DistinctAppend<X>(a: Dict<X>, b: Dict<X>)
    requires Distinct(a) && Distinct(b)
    requires forall i, j :: 0 <= i < |a| && 0 <= j < |b| ==> a[i].0 != b[j].0
    ensures Distinct(a + b)
  {
    forall i, j | 0 <= i < j < |a + b| ensures (a + b)[i].0 != (a + b)[j].0 {
      if j < |a| {
        assert (a + b)[i] == a[i] && (a + b)[j] == a[j];
      } else if i < |a| {
        assert (a + b)[i] == a[i] && (a + b)[j] == b[j - |a|];
      } else {
        assert (a + b)[i] == b[i - |a|] && (a + b)[j] == b[j - |a|];
      }
    }
  }
}

/** Inheritance-aware lookup over nested metadata containers
    (src/rdmlibpy/metadata/metadata.py). A node wraps a mapping or a sequence
    and points at the node it was reached from; a key missing on a node is
    looked up on its nearest dict ancestor that holds it. */
module Metadata {
  import opened Dicts
  import opened Values

  /** A lookup key: attribute names and mapping keys are strings, list
      positions are ints. */
  datatype Key = KStr(s: string) | KInt(i: int)

  /** The class of a node: `MetadataDict`, `MetadataList`, or a bare
      `MetadataNode` built directly. */
  datatype NodeKind = PlainNode | DictNode | ListNode

  /** A metadata node; its fields are fixed when it is built. */
  datatype MetaNode = MetaNode(kind: NodeKind, parent: Option<MetaNode>, container: Value)

  /** What a lookup hands back: a plain value, or a child node wrapping a
      nested container. */
  datatype Item = Raw(value: Value) | Child(node: MetaNode)

  /** `_wrap_container(parent, container)` */
  function WrapContainer(parent: Option<MetaNode>, container: Value): (r: Result<MetaNode>)
    ensures r.Ok? <==> IsMapping(container) || IsSequence(container)
    ensures r.Ok? ==> r.value.parent == parent && r.value.container == container
    ensures r.Ok? ==> (r.value.kind == DictNode <==> IsMapping(container))
    ensures r.Ok? ==> (r.value.kind == ListNode <==> !IsMapping(container))
    ensures r.Err? ==> r.error == ValueError(NotAContainer)
  {
    if IsMapping(container) then Ok(MetaNode(DictNode, parent, container))
    else if IsSequence(container) then Ok(MetaNode(ListNode, parent, container))
    else Err(ValueError(NotAContainer))
  }

  /** `Metadata(container)`: a parentless root node. */
  function NewMetadata(container: Value): (r: Result<MetaNode>)
    ensures r.Ok? <==> container.VDict? || container.VList? || container.VTuple? || container.VStr? || container.VBytes?
    ensures r.Ok? ==> r.value.parent.None? && r.value.container == container
    ensures r.Ok? ==> r.value.kind == (if container.VDict? then DictNode else ListNode)
    ensures r.Err? ==> r.error == ValueError(NotAContainer)
  {
    WrapContainer(None, container)
  }

  /** `_needs_wrapping`: strings and bytes are sequences but stay plain. */
  predicate NeedsWrapping(v: Value) {
    if v.VStr? || v.VBytes? then false
    else IsMapping(v) || IsSequence(v)
  }

  /** `_wrap_child_node`: nested mappings and sequences become child nodes
      of `self`, everything else is handed back as it is. */
  function WrapChild(self: MetaNode, item: Value): (r: Item)
    ensures item.VDict? ==> r == Child(MetaNode(DictNode, Some(self), item))
    ensures item.VList? || item.VTuple? ==> r == Child(MetaNode(ListNode, Some(self), item))
    ensures !(item.VDict? || item.VList? || item.VTuple?) ==> r == Raw(item)
  {
    if NeedsWrapping(item) then Child(WrapContainer(Some(self), item).value) else Raw(item)
  }

  /** Python's index normalisation: `-len <= i < len`, negatives counted
      from the end. */
  function PyIndex(len: nat, i: int): (r: Option<nat>)
    ensures r.Some? <==> -(len as int) <= i < len
    ensures r.Some? ==> r.value < len && r.value as int == (if i < 0 then i + len else i)
  {
    if 0 <= i < len then Some(i) else if -(len as int) <= i < 0 then Some(i + len) else None
  }

  /** `container[key]`, with the exception it raises. */
  function Subscript(container: Value, key: Key): (r: Result<Value>)
    ensures container.VDict? ==>
              r == (if key.KStr? && HasKey(container.entries, key.s) then Ok(Get(container.entries, key.s)) else Err(KeyError))
    ensures r.Err? ==> r.error in {KeyError, IndexError, TypeError}
  {
    match container
    case VDict(e) =>
      if key.KStr? && HasKey(e, key.s) then Ok(Get(e, key.s)) else Err(KeyError)
    case _ =>
      if IsSequence(container) then
        if key.KInt? then
          match PyIndex(SeqLen(container), key.i)
          case None => Err(IndexError)
          case Some(j) => Ok(SeqAt(container, j))
        else Err(TypeError)
      else Err(TypeError)
  }

  /** `_try_get_item`: absent (None) for a non-int key on a sequence and for
      a missing key; an out-of-range list index still raises. */
  function TryGetItem(n: MetaNode, key: Key): (r: Result<Option<Value>>)
    ensures IsSequence(n.container) && key.KStr? ==> r == Ok(None)
    ensures n.container.VDict? ==>
              r == (if key.KStr? && HasKey(n.container.entries, key.s) then Ok(Some(Get(n.container.entries, key.s))) else Ok(None))
    ensures r.Err? ==> r.error == IndexError
  {
    if IsSequence(n.container) && !key.KInt? then Ok(None)
    else match Subscript(n.container, key)
      case Ok(v) => Ok(Some(v))
      case Err(e) => if e == KeyError || e == TypeError then Ok(None) else Err(e)
  }

  /** The item the lookup walk accepts from one node: a stored None counts
      as absent. */
  function Hit(n: MetaNode, key: Key): (r: Result<Option<Value>>)
    ensures r.Ok? && r.value.Some? ==> r.value.value != VNone && TryGetItem(n, key) == r
    ensures r.Ok? && r.value.None? <==> TryGetItem(n, key) in {Ok(None), Ok(Some(VNone))}
    ensures r.Err? <==> TryGetItem(n, key).Err?
  {
    var item :- TryGetItem(n, key);
    if item == Some(VNone) then Ok(None) else Ok(item)
  }

  /** The first hit on the dict nodes from `a` upwards; other nodes are
      passed over. */
  function FromAncestors(a: Option<MetaNode>, key: Key): Result<Option<Value>>
    decreases a
  {
    match a
    case None => Ok(None)
    case Some(m) =>
      if m.kind == DictNode then
        var h :- Hit(m, key);
        if h.Some? then Ok(h) else FromAncestors(m.parent, key)
      else FromAncestors(m.parent, key)
  }

  /** The first item `_iter_inheritance_chain` yields: the node's own, else
      the nearest dict ancestor's. */
  function InheritedItem(n: MetaNode, key: Key): Result<Option<Value>> {
    var own :- Hit(n, key);
    if own.Some? then Ok(own) else FromAncestors(n.parent, key)
  }

  /** The walk of `_iter_inheritance_chain` up to its first item, stepping
      from each node to its parent. */
  method FirstInheritedItem(n: MetaNode, key: Key) returns (r: Result<Option<Value>>)
    ensures r == InheritedItem(n, key)
  {
    var own := TryGetItem(n, key);
    if own.Err? {
      return Err(own.error);
    }
    if own.value.Some? && own.value.value != VNone {
      return own;
    }
    var node := n.parent;
    while node.Some?
      invariant InheritedItem(n, key) == FromAncestors(node, key)
      decreases node
    {
      var m := node.value;
      if m.kind == DictNode {
        var item := TryGetItem(m, key);
        if item.Err? {
          return Err(item.error);
        }
        if item.value.Some? && item.value.value != VNone {
          return item;
        }
      }
      node := m.parent;
    }
    return Ok(None);
  }

  /** `_get_impl(key, inherit=..., merge=...)` */
  function GetImpl(n: MetaNode, key: Key, inherit: bool := true, merge: bool := false): (r: Result<Item>)
    ensures !inherit ==> r == (match Subscript(n.container, key)
                                case Ok(v) => Ok(WrapChild(n, v))
                                case Err(e) => Err(e))
    ensures inherit && merge ==> r == Err(NotImplementedError)
  {
    if !inherit then
      var item :- Subscript(n.container, key);
      Ok(WrapChild(n, item))
    else if !merge then
      var found :- InheritedItem(n, key);
      if found.None? then Err(AttributeError) else Ok(WrapChild(n, found.value))
    else Err(NotImplementedError)
  }

  /** `__getattr__(name)`: `__name__` is never looked up. */
  function GetAttr(n: MetaNode, name: string): (r: Result<Item>)
    ensures name == "__name__" ==> r == Err(AttributeError)
    ensures name != "__name__" ==> r == GetImpl(n, KStr(name))
  {
    if name == "__name__" then Err(AttributeError) else GetImpl(n, KStr(name))
  }

  /** `__getitem__(key)`: an inherited lookup too. */
  function GetItem(n: MetaNode, key: Key): Result<Item> {
    GetImpl(n, key)
  }

  /** Whether `hash(v)` succeeds. */
  predicate Hashable(v: Value) {
    match v
    case VList(_) => false
    case VDict(_) => false
    case VProc(_) => false
    case VTuple(es) => forall i :: 0 <= i < |es| ==> Hashable(es[i])
    case _ => true
  }

  /** `x` occurs as a contiguous run inside `s`. */
  predicate IsSubsequence<T(==)>(x: seq<T>, s: seq<T>)
    decreases |s|
  {
    (|x| <= |s| && s[..|x|] == x) || (s != [] && IsSubsequence(x, s[1..]))
  }

  /** `item in container` */
  function ContainerContains(container: Value, item: Value): (r: Result<bool>)
    ensures container.VDict? && item.VStr? ==> r == Ok(HasKey(container.entries, item.s))
    ensures container.VList? || container.VTuple? ==>
              r == Ok(exists i :: 0 <= i < |container.elems| && PyEq(container.elems[i], item))
  {
    match container
    case VDict(e) =>
      if !Hashable(item) then Err(TypeError)
      else if item.VStr? then Ok(HasKey(e, item.s))
      else Ok(false)
    case VList(es) => Ok(exists i :: 0 <= i < |es| && PyEq(es[i], item))
    case VTuple(es) => Ok(exists i :: 0 <= i < |es| && PyEq(es[i], item))
    case VStr(s) => if item.VStr? then Ok(IsSubsequence(item.s, s)) else Err(TypeError)
    case VBytes(b) =>
      (match item
       case VInt(i) => if 0 <= i < 256 then Ok(i as bv8 in b) else Err(ValueError(ByteOutOfRange))
       case VBytes(x) => Ok(IsSubsequence(x, b))
       case _ => Err(TypeError))
    case _ => Err(TypeError)
  }

  /** `__contains__(item)`: the node's own container only. */
  function Contains(n: MetaNode, item: Value): Result<bool> {
    ContainerContains(n.container, item)
  }

  /** The elements `for key in keys` visits. */
  function Iterate(v: Value): (r: Result<seq<Value>>)
    ensures v.VList? || v.VTuple? ==> r == Ok(v.elems)
  {
    match v
    case VList(es) => Ok(es)
    case VTuple(es) => Ok(es)
    case VStr(s) => Ok(seq(|s|, i requires 0 <= i < |s| => VStr([s[i]])))
    case VBytes(b) => Ok(seq(|b|, i requires 0 <= i < |b| => VInt(b[i] as int)))
    case VDict(e) => Ok(seq(|e|, i requires 0 <= i < |e| => VStr(e[i].0)))
    case _ => Err(TypeError)
  }

  /** `all([k in container for k in ks])`: every membership test is made
      (and may raise) before the results are combined. */
  function AllContained(container: Value, ks: seq<Value>): Result<bool> {
    if ks == [] then Ok(true)
    else
      var b :- ContainerContains(container, ks[0]);
      var rest :- AllContained(container, ks[1..]);
      Ok(b && rest)
  }

  /** `MetadataDict.__defines__(keys)`: a single string is a one-key list. */
  function Defines(n: MetaNode, keys: Value): Result<bool>
    requires n.kind == DictNode
  {
    var ks :- if keys.VStr? then Ok([keys]) else Iterate(keys);
    AllContained(n.container, ks)
  }

  /** `MetadataList.items()`: each position with its wrapped element. */
  function ListItems(n: MetaNode): (r: seq<(int, Item)>)
    requires n.kind == ListNode && IsSequence(n.container)
    ensures |r| == SeqLen(n.container)
    ensures forall i :: 0 <= i < |r| ==> r[i] == (i, WrapChild(n, SeqAt(n.container, i)))
  {
    seq(SeqLen(n.container), i requires 0 <= i < SeqLen(n.container) => (i, WrapChild(n, SeqAt(n.container, i))))
  }
}

/** What the lookup promises: the nearest dict ancestor that holds a key
    answers for it, a miss everywhere raises AttributeError, and the
    non-inherited queries read the node's own container only. */
module MetadataProofs {
  import opened Dicts
  import opened Values
  import opened Metadata

  /** The item the node `k` steps above `a` (counting `a` itself as 0)
      offers to the walk: its hit if it is a dict node, absent otherwise. */
  function AncestorCandidate(a: Option<MetaNode>, k: nat, key: Key): Result<Option<Value>>
    decreases k
  {
    match a
    case None => Ok(None)
    case Some(m) =>
      if k == 0 then (if m.kind == DictNode then Hit(m, key) else Ok(None))
      else AncestorCandidate(m.parent, k - 1, key)
  }

  /** What the node `k` steps up the chain from `n` offers: `n` itself
      (whatever its kind), then its ancestors. */
  function Candidate(n: MetaNode, k: nat, key: Key): Result<Option<Value>> {
    if k == 0 then Hit(n, key) else AncestorCandidate(n.parent, k - 1, key)
  }

  lemma {:induction false} FoundOnAncestors(a: Option<MetaNode>, key: Key, v: Value) returns (k: nat)
    requires FromAncestors(a, key) == Ok(Some(v))
    ensures AncestorCandidate(a, k, key) == Ok(Some(v))
    ensures forall j: nat :: j < k ==> AncestorCandidate(a, j, key) == Ok(None)
    decreases a
  {
    var m := a.value;
    if m.kind == DictNode && Hit(m, key) == Ok(Some(v)) {
      k := 0;
    } else {
      assert FromAncestors(m.parent, key) == Ok(Some(v));
      var k' := FoundOnAncestors(m.parent, key, v);
      k := k' + 1;
      forall j: nat | j < k ensures AncestorCandidate(a, j, key) == Ok(None) {
        if j > 0 {
          assert AncestorCandidate(a, j, key) == AncestorCandidate(m.parent, j - 1, key);
        }
      }
    }
  }

  lemma {:induction false} FoundFromCandidate(a: Option<MetaNode>, key: Key, v: Value, k: nat)
    requires AncestorCandidate(a, k, key) == Ok(Some(v))
    requires forall j: nat :: j < k ==> AncestorCandidate(a, j, key) == Ok(None)
    ensures FromAncestors(a, key) == Ok(Some(v))
    decreases k
  {
    assert a.Some?;
    var m := a.value;
    if k > 0 {
      assert AncestorCandidate(a, 0, key) == Ok(None);
      forall j: nat | j < k - 1 ensures AncestorCandidate(m.parent, j, key) == Ok(None) {
        assert AncestorCandidate(a, j + 1, key) == AncestorCandidate(m.parent, j, key);
      }
      FoundFromCandidate(m.parent, key, v, k - 1);
    }
  }

  /** No node from `a` upwards offers the key. */
  ghost predicate AbsentAbove(a: Option<MetaNode>, key: Key) {
    forall k: nat :: AncestorCandidate(a, k, key) == Ok(None)
  }

  lemma AbsentOnAncestors(a: Option<MetaNode>, key: Key)
    ensures FromAncestors(a, key) == Ok(None) <==> AbsentAbove(a, key)
  {
    if FromAncestors(a, key) == Ok(None) {
      forall k: nat ensures AncestorCandidate(a, k, key) == Ok(None) {
        CandidateOfAbsent(a, key, k);
      }
    } else if AbsentAbove(a, key) {
      AbsentFromCandidates(a, key);
    }
  }

  lemma {:induction false} AbsentFromCandidates(a: Option<MetaNode>, key: Key)
    requires forall k: nat :: AncestorCandidate(a, k, key) == Ok(None)
    ensures FromAncestors(a, key) == Ok(None)
    decreases a
  {
    match a
    case None =>
    case Some(m) =>
      assert AncestorCandidate(a, 0, key) == Ok(None);
      forall k: nat ensures AncestorCandidate(m.parent, k, key) == Ok(None) {
        assert AncestorCandidate(a, k + 1, key) == Ok(None);
      }
      AbsentFromCandidates(m.parent, key);
  }

  lemma {:induction false} CandidateOfAbsent(a: Option<MetaNode>, key: Key, k: nat)
    requires FromAncestors(a, key) == Ok(None)
    ensures AncestorCandidate(a, k, key) == Ok(None)
    decreases k
  {
    match a
    case None =>
    case Some(m) =>
      if k > 0 {
        CandidateOfAbsent(m.parent, key, k - 1);
      }
  }

  lemma {:induction false} AncestorErrorsAreIndexErrors(a: Option<MetaNode>, key: Key)
    ensures FromAncestors(a, key).Err? ==> FromAncestors(a, key).error == IndexError
    decreases a
  {
    match a
    case None =>
    case Some(m) => AncestorErrorsAreIndexErrors(m.parent, key);
  }

  /** An inherited lookup yields `v` exactly when some node of the chain
      offers `v` and every node below it offers nothing: the node's own
      container first, then the dict ancestors nearest first, list and
      plain ancestors skipped, stored None treated as absent. */
  lemma InheritedItemIsNearest(n: MetaNode, key: Key, v: Value)
    ensures InheritedItem(n, key) == Ok(Some(v)) <==>
              exists k: nat :: Candidate(n, k, key) == Ok(Some(v)) && forall j: nat :: j < k ==> Candidate(n, j, key) == Ok(None)
  {
    if InheritedItem(n, key) == Ok(Some(v)) {
      if Hit(n, key) == Ok(Some(v)) {
        assert Candidate(n, 0, key) == Ok(Some(v));
      } else {
        var k' := FoundOnAncestors(n.parent, key, v);
        assert Candidate(n, k' + 1, key) == Ok(Some(v));
        assert forall j: nat :: j < k' + 1 ==> Candidate(n, j, key) == Ok(None);
      }
    }
    if exists k: nat :: Candidate(n, k, key) == Ok(Some(v)) && forall j: nat :: j < k ==> Candidate(n, j, key) == Ok(None) {
      var k: nat :| Candidate(n, k, key) == Ok(Some(v)) && forall j: nat :: j < k ==> Candidate(n, j, key) == Ok(None);
      if k > 0 {
        assert Candidate(n, 0, key) == Ok(None);
        forall j: nat | j < k - 1 ensures AncestorCandidate(n.parent, j, key) == Ok(None) {
          assert Candidate(n, j + 1, key) == AncestorCandidate(n.parent, j, key);
        }
        FoundFromCandidate(n.parent, key, v, k - 1);
      }
    }
  }

  /** `node.key` / `node[key]` raises AttributeError exactly when no node of
      the chain offers the key. */
  lemma MissingEverywhereRaises(n: MetaNode, key: Key)
    ensures GetItem(n, key) == Err(AttributeError) <==> forall k: nat :: Candidate(n, k, key) == Ok(None)
  {
    AbsentOnAncestors(n.parent, key);
    AncestorErrorsAreIndexErrors(n.parent, key);
    assert forall k: nat :: Candidate(n, k + 1, key) == AncestorCandidate(n.parent, k, key);
    if forall k: nat :: Candidate(n, k, key) == Ok(None) {
      assert Candidate(n, 0, key) == Ok(None);
      assert forall k: nat :: AncestorCandidate(n.parent, k, key) == Ok(None) by {
        forall k: nat ensures AncestorCandidate(n.parent, k, key) == Ok(None) {
          assert Candidate(n, k + 1, key) == Ok(None);
        }
      }
    }
    if GetItem(n, key) == Err(AttributeError) {
      assert InheritedItem(n, key) == Ok(None);
      forall k: nat ensures Candidate(n, k, key) == Ok(None) {
        if k > 0 {
          assert Candidate(n, k, key) == AncestorCandidate(n.parent, k - 1, key);
        }
      }
    }
  }

  /** A value of the node's own shadows every ancestor. */
  lemma OwnValueShadows(n: MetaNode, key: Key, v: Value)
    requires TryGetItem(n, key) == Ok(Some(v)) && v != VNone
    ensures GetItem(n, key) == Ok(WrapChild(n, v))
  {
  }

  /** A stored None does not stop the walk: the ancestors are asked. */
  lemma StoredNoneFallsThrough(n: MetaNode, key: Key)
    requires TryGetItem(n, key) == Ok(Some(VNone))
    ensures InheritedItem(n, key) == FromAncestors(n.parent, key)
  {
  }

  /** Attribute access on a list node always defers to its ancestors. */
  lemma ListAttributeComesFromAncestors(n: MetaNode, name: string)
    requires IsSequence(n.container)
    ensures InheritedItem(n, KStr(name)) == FromAncestors(n.parent, KStr(name))
  {
  }

  /** `items()` yields what indexing yields, for every element that is not
      None, and the negative index of the same element agrees too. */
  lemma ListItemsAgreeWithIndexing(n: MetaNode, i: nat)
    requires n.kind == ListNode && IsSequence(n.container)
    requires i < SeqLen(n.container) && SeqAt(n.container, i) != VNone
    ensures GetItem(n, KInt(i)) == Ok(ListItems(n)[i].1)
    ensures GetItem(n, KInt(i - SeqLen(n.container))) == Ok(ListItems(n)[i].1)
  {
  }

  /** An index outside `-len .. len-1` raises IndexError, whatever the
      ancestors hold. */
  lemma IndexOutOfRangeRaises(n: MetaNode, i: int)
    requires IsSequence(n.container) && !(-(SeqLen(n.container) as int) <= i < SeqLen(n.container))
    ensures GetItem(n, KInt(i)) == Err(IndexError)
  {
  }

  lemma {:induction false} AllContainedKeys(e: Dict<Value>, ks: seq<Value>)
    requires forall i :: 0 <= i < |ks| ==> ks[i].VStr?
    ensures AllContained(VDict(e), ks) == Ok(forall i :: 0 <= i < |ks| ==> HasKey(e, ks[i].s))
    decreases |ks|
  {
    if ks != [] {
      AllContainedKeys(e, ks[1..]);
      assert forall i :: 0 <= i < |ks[1..]| ==> ks[1..][i] == ks[i + 1];
    }
  }

  /** `__defines__` checks the node's own keys, never its ancestors'. */
  lemma DefinesOwnKeys(n: MetaNode, ks: seq<Value>, s: string)
    requires n.kind == DictNode && n.container.VDict?
    requires forall i :: 0 <= i < |ks| ==> ks[i].VStr?
    ensures Defines(n, VList(ks)) == Ok(forall i :: 0 <= i < |ks| ==> HasKey(n.container.entries, ks[i].s))
    ensures Defines(n, VStr(s)) == Ok(HasKey(n.container.entries, s))
  {
    AllContainedKeys(n.container.entries, ks);
    AllContainedKeys(n.container.entries, [VStr(s)]);
  }

  /** Every value equals itself under Python's `==`. */
  lemma {:induction false} PyEqReflexive(v: Value)
    ensures PyEq(v, v)
    decreases v
  {
    match v
    case VList(xs) =>
      forall i | 0 <= i < |xs| ensures PyEq(xs[i], xs[i]) { PyEqReflexive(xs[i]); }
    case VTuple(xs) =>
      forall i | 0 <= i < |xs| ensures PyEq(xs[i], xs[i]) { PyEqReflexive(xs[i]); }
    case VDict(e) =>
      forall i | 0 <= i < |e| ensures HasKey(e, e[i].0) && PyEq(Get(e, e[i].0), Get(e, e[i].0)) {
        assert HasKey(e, e[i].0);
        PyEqReflexive(Get(e, e[i].0));
      }
    case _ =>
  }

  /** A list or tuple contains each of its own elements. */
  lemma ContainsOwnElement(es: seq<Value>, item: Value)
    requires item in es
    ensures ContainerContains(VList(es), item) == Ok(true)
    ensures ContainerContains(VTuple(es), item) == Ok(true)
  {
    var i :| 0 <= i < |es| && es[i] == item;
    PyEqReflexive(item);
    assert PyEq(es[i], item);
  }

  /** `{'a': 1, 'b': 2} == {'b': 2, 'a': 1}` */
  lemma DictEqualityIgnoresOrder()
    ensures PyEq(VDict([("a", VInt(1)), ("b", VInt(2))]), VDict([("b", VInt(2)), ("a", VInt(1))]))
  {
    var d1: Dict<Value> := [("a", VInt(1)), ("b", VInt(2))];
    var d2: Dict<Value> := [("b", VInt(2)), ("a", VInt(1))];
    assert IndexOf(d1, "a") == Some(0) && IndexOf(d1, "b") == Some(1);
    assert IndexOf(d2, "a") == Some(1) && IndexOf(d2, "b") == Some(0);
  }

  /** `{'a': 1} != {'a': 2}` */
  lemma DictEqualityComparesValues()
    ensures !PyEq(VDict([("a", VInt(1))]), VDict([("a", VInt(2))]))
  {
    var d3: Dict<Value> := [("a", VInt(1))];
    var d4: Dict<Value> := [("a", VInt(2))];
    assert IndexOf(d3, "a") == Some(0) && IndexOf(d4, "a") == Some(0);
  }

  /** Membership in a list compares dicts whatever their key order, and
      never takes a tuple for a list. */
  lemma ContainsComparesAsPython()
    ensures ContainerContains(VList([VDict([("a", VInt(1)), ("b", VInt(2))])]),
                              VDict([("b", VInt(2)), ("a", VInt(1))])) == Ok(true)
    ensures ContainerContains(VList([VDict([("a", VInt(1))])]), VDict([("a", VInt(2))])) == Ok(false)
    ensures ContainerContains(VList([VList([])]), VTuple([])) == Ok(false)
  {
    var l1 := [VDict([("a", VInt(1)), ("b", VInt(2))])];
    DictEqualityIgnoresOrder();
    assert PyEq(l1[0], VDict([("b", VInt(2)), ("a", VInt(1))]));
    var l2 := [VDict([("a", VInt(1))])];
    DictEqualityComparesValues();
    assert !PyEq(l2[0], VDict([("a", VInt(2))]));
    var l3 := [VList([])];
    assert !PyEq(l3[0], VTuple([]));
  }

  /** `{'a': 1, 'child': {'b': 2}}` as a root node. */
  function ExampleRoot(): MetaNode {
    MetaNode(DictNode, None, VDict([("a", VInt(1)), ("child", VDict([("b", VInt(2))]))]))
  }

  /** Its `child` mapping, as attribute access wraps it. */
  function ExampleChild(): MetaNode {
    MetaNode(DictNode, Some(ExampleRoot()), VDict([("b", VInt(2))]))
  }

  /** A nested mapping reached by attribute access sees its parent's keys
      and keeps its own. */
  lemma NestedLookupExample()
    ensures GetAttr(ExampleRoot(), "child") == Ok(Child(ExampleChild()))
    ensures GetAttr(ExampleChild(), "a") == Ok(Raw(VInt(1)))
    ensures GetAttr(ExampleChild(), "b") == Ok(Raw(VInt(2)))
  {
    assert IndexOf(ExampleRoot().container.entries, "child") == Some(1);
    assert IndexOf(ExampleRoot().container.entries, "a") == Some(0);
    assert IndexOf(ExampleChild().container.entries, "a") == None;
    assert IndexOf(ExampleChild().container.entries, "b") == Some(0);
  }

  /** A key neither the node nor its parents hold is an AttributeError, the
      non-inherited lookup does not look up, and dunder names are refused. */
  lemma NestedLookupMisses()
    ensures GetAttr(ExampleChild(), "c") == Err(AttributeError)
    ensures GetImpl(ExampleChild(), KStr("a"), false) == Err(KeyError)
    ensures GetAttr(ExampleChild(), "__name__") == Err(AttributeError)
  {
    assert IndexOf(ExampleChild().container.entries, "a") == None;
    assert IndexOf(ExampleChild().container.entries, "c") == None;
    assert IndexOf(ExampleRoot().container.entries, "c") == None;
  }
}

/** What the descriptor builder promises: each shape builds the node it
    names, params are built entry by entry, sequences chain front to back,
    nested sequences flatten, and a built workflow runs its chain in order. */
module WorkflowProofs {
  import opened Dicts
  import opened Values
  import opened Base
  import opened Registry
  import opened Metadata
  import opened Workflows

  // ------------------------------------------------------------ single shapes

  /** Params that are already params pass the node validator unchanged. */
  lemma AsArgsValidated(ps: Dict<Param>)
    ensures ValidatedParams(AsArgs(ps)) == ps
  {
    var r := ValidatedParams(AsArgs(ps));
    assert forall i :: 0 <= i < |ps| ==> r[i] == ps[i];
  }

  /** An instance becomes a node of its own, a name the registered instance;
      neither has params. */
  lemma CreateInstanceOrName(reg: Registry, parent: Option<Node>, p: Process, name: string)
    ensures Create(reg, parent, VProc(p)) == Ok(Node(p, parent, []))
    ensures name in reg ==> Create(reg, parent, VStr(name)) == Ok(Node(reg[name], parent, []))
    ensures name !in reg ==> Create(reg, parent, VStr(name)) == Err(LookupError(VStr(name)))
  {
  }

  /** A `(process, params)` or `(name, params)` pair, as list or tuple: the
      runner is looked up first, then the params are built. */
  lemma CreatePair(reg: Registry, parent: Option<Node>, x: Value, kw: Dict<Value>)
    requires x.VProc? || x.VStr?
    ensures Create(reg, parent, VList([x, VDict(kw)])) == Create(reg, parent, VTuple([x, VDict(kw)]))
    ensures x.VStr? && x.s !in reg ==> Create(reg, parent, VList([x, VDict(kw)])) == Err(LookupError(x))
    ensures x.VProc? || x.s in reg ==>
              var runner := if x.VProc? then x.proc else reg[x.s];
              var ps := CreateParams(reg, VDict(kw), 0, []);
              Create(reg, parent, VList([x, VDict(kw)])) ==
                if ps.Ok? then Ok(Node(runner, parent, ps.value)) else Err(ps.error)
  {
    match CreateParams(reg, VDict(kw), 0, [])
    case Ok(ps) => AsArgsValidated(ps);
    case Err(_) =>
  }

  /** Neither an instance, a name, a mapping nor a sequence. */
  lemma CreateRejectsOtherShapes(reg: Registry, parent: Option<Node>, d: Value)
    requires d.VNone? || d.VBool? || d.VInt? || d.VBytes? || d.VOther?
    ensures Create(reg, parent, d) == Err(ValueError(BadDescriptor))
  {
  }

  // ------------------------------------------------------------ params

  /** A param key without its `$` marker. */
  function StrippedKey(key: string): (k: string)
    ensures IsMarked(key) ==> key == ['$'] + k
    ensures !IsMarked(key) ==> k == key
  {
    if IsMarked(key) then key[1..] else key
  }

  /** No two entries end up under the same param name (`$x` and `x` would). */
  predicate NoClash(kw: Dict<Value>) {
    forall i, j :: 0 <= i < j < |kw| ==> StrippedKey(kw[i].0) != StrippedKey(kw[j].0)
  }

  /** The param one kwargs entry stands for. */
  predicate ParamFor(reg: Registry, entry: (string, Value), p: (string, Param)) {
    && p.0 == StrippedKey(entry.0)
    && if IsMarked(entry.0) then p.1.Runnable? && Create(reg, None, entry.1) == Ok(p.1.node)
       else p.1 == Plain(entry.1)
  }

  lemma CreateParamsStep(reg: Registry, kw: Value, i: nat, acc: Dict<Param>)
    requires kw.VDict? && i < |kw.entries|
    ensures var (key, value) := kw.entries[i];
            var node := Create(reg, None, value);
            CreateParams(reg, kw, i, acc) ==
              if !IsMarked(key) then CreateParams(reg, kw, i + 1, Set(acc, key, Plain(value)))
              else if node.Err? then Err(node.error)
              else CreateParams(reg, kw, i + 1, Set(acc, key[1..], Runnable(node.value)))
  {
  }

  /** The param an entry stands for, when it builds. */
  function EntryParam(reg: Registry, entry: (string, Value)): (p: (string, Param))
    requires !(IsMarked(entry.0) && Create(reg, None, entry.1).Err?)
    ensures ParamFor(reg, entry, p)
  {
    if IsMarked(entry.0) then (StrippedKey(entry.0), Runnable(Create(reg, None, entry.1).value))
    else (entry.0, Plain(entry.1))
  }

  /** One step of `CreateParamsFrom`: the entry fails, or its param is
      appended (its name being new, by `NoClash`). */
  lemma CreateParamsNext(reg: Registry, kw: Value, i: nat, acc: Dict<Param>)
    requires kw.VDict? && NoClash(kw.entries)
    requires i < |kw.entries| && |acc| == i
    requires forall j :: 0 <= j < i ==> ParamFor(reg, kw.entries[j], acc[j])
    ensures IsMarked(kw.entries[i].0) && Create(reg, None, kw.entries[i].1).Err? ==> CreateParams(reg, kw, i, acc).Err?
    ensures !(IsMarked(kw.entries[i].0) && Create(reg, None, kw.entries[i].1).Err?) ==>
              CreateParams(reg, kw, i, acc) == CreateParams(reg, kw, i + 1, acc + [EntryParam(reg, kw.entries[i])])
  {
    var (k, value) := kw.entries[i];
    var key := StrippedKey(k);
    assert !HasKey(acc, key) by {
      forall j | 0 <= j < |acc| ensures acc[j].0 != key {
        assert ParamFor(reg, kw.entries[j], acc[j]);
      }
    }
    CreateParamsStep(reg, kw, i, acc);
  }

  /** The params built so far, with the next entry's appended, stand for
      the entries so far and that one. */
  lemma ParamsForAppend(reg: Registry, kw: Value, i: nat, acc: Dict<Param>)
    requires kw.VDict? && i < |kw.entries| && |acc| == i
    requires forall j :: 0 <= j < i ==> ParamFor(reg, kw.entries[j], acc[j])
    requires !(IsMarked(kw.entries[i].0) && Create(reg, None, kw.entries[i].1).Err?)
    ensures var acc' := acc + [EntryParam(reg, kw.entries[i])];
            forall j :: 0 <= j < i + 1 ==> ParamFor(reg, kw.entries[j], acc'[j])
  {
    var acc' := acc + [EntryParam(reg, kw.entries[i])];
    forall j | 0 <= j < i + 1 ensures ParamFor(reg, kw.entries[j], acc'[j]) {
      if j < i {
        assert acc'[j] == acc[j];
      }
    }
  }

  /** The params entries `i` onwards stand for, when they all build. */
  function EntryParams(reg: Registry, kw: Value, i: nat): (ps: Dict<Param>)
    requires kw.VDict? && i <= |kw.entries|
    requires forall j :: i <= j < |kw.entries| && IsMarked(kw.entries[j].0) ==> Create(reg, None, kw.entries[j].1).Ok?
    ensures |ps| == |kw.entries| - i
    ensures forall j :: 0 <= j < |ps| ==> ParamFor(reg, kw.entries[i + j], ps[j])
    decreases |kw.entries| - i
  {
    if i == |kw.entries| then []
    else [EntryParam(reg, kw.entries[i])] + EntryParams(reg, kw, i + 1)
  }

  /** From entry `i` on, whatever was built before, building the params
      fails when the marked value of entry `f` does not build. */
  lemma {:induction false} CreateParamsErrFrom(reg: Registry, kw: Value, i: nat, acc: Dict<Param>, f: nat)
    requires kw.VDict? && i <= f < |kw.entries|
    requires IsMarked(kw.entries[f].0) && Create(reg, None, kw.entries[f].1).Err?
    ensures CreateParams(reg, kw, i, acc).Err?
    decreases f - i
  {
    CreateParamsStep(reg, kw, i, acc);
    if i < f && !(IsMarked(kw.entries[i].0) && Create(reg, None, kw.entries[i].1).Err?) {
      var p := EntryParam(reg, kw.entries[i]);
      CreateParamsErrFrom(reg, kw, i + 1, Set(acc, p.0, p.1), f);
    }
  }

  /** From entry `i` on, whatever was built before, building the params
      succeeds when every marked value builds, and assigns the params the
      entries stand for into `acc`, in order, as `acc.update(...)` would. */
  lemma {:induction false} CreateParamsOkFrom(reg: Registry, kw: Value, i: nat, acc: Dict<Param>)
    requires kw.VDict? && i <= |kw.entries|
    requires forall j :: i <= j < |kw.entries| && IsMarked(kw.entries[j].0) ==> Create(reg, None, kw.entries[j].1).Ok?
    ensures CreateParams(reg, kw, i, acc) == Ok(Update(acc, EntryParams(reg, kw, i)))
    decreases |kw.entries| - i
  {
    if i < |kw.entries| {
      CreateParamsStep(reg, kw, i, acc);
      var p := EntryParam(reg, kw.entries[i]);
      var rest := EntryParams(reg, kw, i + 1);
      CreateParamsOkFrom(reg, kw, i + 1, Set(acc, p.0, p.1));
      assert EntryParams(reg, kw, i) == [p] + rest;
      assert ([p] + rest)[1..] == rest;
    }
  }

  /** From entry `i` on, when every marked value builds, building the params
      succeeds and appends one param per entry, in order, each the one its
      entry stands for. */
  lemma {:induction false} CreateParamsFrom(reg: Registry, kw: Value, i: nat, acc: Dict<Param>)
    requires kw.VDict? && NoClash(kw.entries)
    requires i <= |kw.entries| && |acc| == i
    requires forall j :: 0 <= j < i ==> ParamFor(reg, kw.entries[j], acc[j])
    requires forall j :: i <= j < |kw.entries| && IsMarked(kw.entries[j].0) ==> Create(reg, None, kw.entries[j].1).Ok?
    ensures CreateParams(reg, kw, i, acc).Ok?
    ensures var ps := CreateParams(reg, kw, i, acc).value;
            |ps| == |kw.entries| && forall j :: 0 <= j < |ps| ==> ParamFor(reg, kw.entries[j], ps[j])
    decreases |kw.entries| - i
  {
    if i == |kw.entries| {
      assert CreateParams(reg, kw, i, acc) == Ok(acc);
    } else {
      CreateParamsNext(reg, kw, i, acc);
      var acc' := acc + [EntryParam(reg, kw.entries[i])];
      ParamsForAppend(reg, kw, i, acc);
      CreateParamsFrom(reg, kw, i + 1, acc');
    }
  }

  /** `_create_params` fails exactly when a `$`-marked value does not
      build; otherwise it is `dict(...)` of the params the entries stand
      for, in order: a marked entry a Runnable holding the parentless node
      its value describes, under the key without `$`; any other a Plain
      holding the value. */
  lemma CreateParamsBuildsEachEntry(reg: Registry, kw: Dict<Value>)
    ensures CreateParams(reg, VDict(kw), 0, []).Ok? <==>
              forall j :: 0 <= j < |kw| && IsMarked(kw[j].0) ==> Create(reg, None, kw[j].1).Ok?
    ensures (forall j :: 0 <= j < |kw| && IsMarked(kw[j].0) ==> Create(reg, None, kw[j].1).Ok?) ==>
              CreateParams(reg, VDict(kw), 0, []) == Ok(FromItems(EntryParams(reg, VDict(kw), 0)))
  {
    if forall j :: 0 <= j < |kw| && IsMarked(kw[j].0) ==> Create(reg, None, kw[j].1).Ok? {
      CreateParamsOkFrom(reg, VDict(kw), 0, []);
    } else {
      var f :| 0 <= f < |kw| && IsMarked(kw[f].0) && Create(reg, None, kw[f].1).Err?;
      CreateParamsErrFrom(reg, VDict(kw), 0, [], f);
    }
  }

  /** When no two keys strip to the same name, the params are one per
      entry, position for position. */
  lemma CreateParamsOnePerEntry(reg: Registry, kw: Dict<Value>)
    requires NoClash(kw)
    ensures CreateParams(reg, VDict(kw), 0, []).Ok? ==>
              var ps := CreateParams(reg, VDict(kw), 0, []).value;
              |ps| == |kw| && forall j :: 0 <= j < |ps| ==> ParamFor(reg, kw[j], ps[j])
  {
    CreateParamsBuildsEachEntry(reg, kw);
    if CreateParams(reg, VDict(kw), 0, []).Ok? {
      CreateParamsFrom(reg, VDict(kw), 0, []);
    }
  }

  /** When `$x` and `x` are both given, the later entry's param replaces the
      earlier one, at the earlier one's position. */
  lemma MarkedAndPlainClash(reg: Registry, p: Process)
    ensures CreateParams(reg, VDict([("$x", VProc(p)), ("x", VInt(5))]), 0, []) == Ok([("x", Plain(VInt(5)))])
    ensures CreateParams(reg, VDict([("x", VInt(5)), ("$x", VProc(p))]), 0, []) == Ok([("x", Runnable(Node(p, None, [])))])
  {
    assert "$x"[1..] == "x";
    assert IsMarked("$x") && !IsMarked("x");
    var node := Node(p, None, []);
    assert Create(reg, None, VProc(p)) == Ok(node);
    var kw1 := VDict([("$x", VProc(p)), ("x", VInt(5))]);
    assert Set([], "x", Runnable(node)) == [("x", Runnable(node))];
    assert IndexOf([("x", Runnable(node))], "x") == Some(0);
    assert Set([("x", Runnable(node))], "x", Plain(VInt(5))) == [("x", Plain(VInt(5)))];
    assert CreateParams(reg, kw1, 0, []) == CreateParams(reg, kw1, 1, [("x", Runnable(node))]);
    assert CreateParams(reg, kw1, 1, [("x", Runnable(node))]) == CreateParams(reg, kw1, 2, [("x", Plain(VInt(5)))]);
    var kw2 := VDict([("x", VInt(5)), ("$x", VProc(p))]);
    assert Set([], "x", Plain(VInt(5))) == [("x", Plain(VInt(5)))];
    assert IndexOf([("x", Plain(VInt(5)))], "x") == Some(0);
    assert Set([("x", Plain(VInt(5)))], "x", Runnable(node)) == [("x", Runnable(node))];
    assert CreateParams(reg, kw2, 0, []) == CreateParams(reg, kw2, 1, [("x", Plain(VInt(5)))]);
    assert CreateParams(reg, kw2, 1, [("x", Plain(VInt(5)))]) == CreateParams(reg, kw2, 2, [("x", Runnable(node))]);
  }

  // ------------------------------------------------------------ mappings

  /** A mapping without `run` stands for the descriptor under `__process__`,
      or is refused if it has neither. */
  lemma MappingWithoutRun(reg: Registry, parent: Option<Node>, m: Dict<Value>)
    requires !HasKey(m, "run")
    ensures HasKey(m, "__process__") ==> Create(reg, parent, VDict(m)) == Create(reg, parent, Get(m, "__process__"))
    ensures !HasKey(m, "__process__") ==> Create(reg, parent, VDict(m)) == Err(ValueError(NoRunElement))
  {
  }

  /** A mapping with `run`: a `config` that is not a mapping is refused
      before the lookup, an unknown runner before the params are built, and a
      built node has the looked-up runner (with the config overrides), the
      parent and the params built from `params`, or none. */
  lemma MappingWithRun(reg: Registry, parent: Option<Node>, m: Dict<Value>)
    requires HasKey(m, "run")
    ensures HasKey(m, "config") && !Get(m, "config").VDict? ==> Create(reg, parent, VDict(m)) == Err(TypeError)
    ensures var config := GetOr(m, "config", VDict([]));
            var run := Get(m, "run");
            config.VDict? && !(run.VStr? && run.s in reg) ==> Create(reg, parent, VDict(m)) == Err(LookupError(run))
    ensures var config := GetOr(m, "config", VDict([]));
            (config.VDict? && GetRunner(reg, Get(m, "run"), config.entries).Ok? && HasKey(m, "params") && !Get(m, "params").VDict?)
            ==> Create(reg, parent, VDict(m)) == Err(TypeError)
    ensures Create(reg, parent, VDict(m)).Ok? ==>
              var n := Create(reg, parent, VDict(m)).value;
              var config := GetOr(m, "config", VDict([]));
              && n.parent == parent
              && config.VDict? && GetRunner(reg, Get(m, "run"), config.entries) == Ok(n.runner)
              && (!HasKey(m, "params") ==> n.params == [])
              && (HasKey(m, "params") ==> Get(m, "params").VDict? && CreateParams(reg, Get(m, "params"), 0, []) == Ok(n.params))
  {
    assert Create(reg, parent, VDict(m)) == CreateFromMapping(reg, parent, VDict(m));
    if Create(reg, parent, VDict(m)).Ok? && HasKey(m, "params") {
      AsArgsValidated(CreateParams(reg, Get(m, "params"), 0, []).value);
    }
  }

  /** Keys other than the four reserved ones play no part. */
  lemma MappingIgnoresOtherKeys(reg: Registry, parent: Option<Node>, m1: Dict<Value>, m2: Dict<Value>)
    requires forall k :: k in {"run", "config", "params", "__process__"} ==>
               HasKey(m1, k) == HasKey(m2, k) && (HasKey(m1, k) ==> Get(m1, k) == Get(m2, k))
    ensures Create(reg, parent, VDict(m1)) == Create(reg, parent, VDict(m2))
  {
    assert "run" in {"run", "config", "params", "__process__"};
    assert "config" in {"run", "config", "params", "__process__"};
    assert "params" in {"run", "config", "params", "__process__"};
    assert "__process__" in {"run", "config", "params", "__process__"};
    assert GetOr(m1, "config", VDict([])) == GetOr(m2, "config", VDict([]));
    assert Create(reg, parent, VDict(m1)) == CreateFromMapping(reg, parent, VDict(m1));
    assert Create(reg, parent, VDict(m2)) == CreateFromMapping(reg, parent, VDict(m2));
    if HasKey(m1, "run") {
      assert Get(m1, "run") == Get(m2, "run");
    } else if HasKey(m1, "__process__") {
      assert Get(m1, "__process__") == Get(m2, "__process__");
    }
  }

  // ------------------------------------------------------------ sequences

  /** Build `es` one after the other, each under the node built before it. */
  function ChainFold(reg: Registry, node: Node, es: seq<Value>): Result<Node>
    decreases |es|
  {
    if es == [] then Ok(node)
    else
      var next :- Create(reg, Some(node), es[0]);
      ChainFold(reg, next, es[1..])
  }

  /** The first of `es` under `parent`, the rest chained after it. */
  function Steps(reg: Registry, parent: Option<Node>, es: seq<Value>): Result<Node>
    requires es != []
  {
    var first :- Create(reg, parent, es[0]);
    ChainFold(reg, first, es[1..])
  }

  lemma {:induction false} ChainFromIsFold(reg: Registry, node: Node, d: Value, i: nat)
    requires IsPatternSequence(d) && i <= |d.elems|
    ensures ChainFrom(reg, node, d, i) == ChainFold(reg, node, d.elems[i..])
    decreases |d.elems| - i
  {
    if i < |d.elems| {
      assert d.elems[i..][0] == d.elems[i] && d.elems[i..][1..] == d.elems[i + 1..];
      match Create(reg, Some(node), d.elems[i])
      case Err(_) =>
      case Ok(next) => ChainFromIsFold(reg, next, d, i + 1);
    }
  }

  /** A sequence that is not a pair builds like `Steps`, as list or tuple;
      an empty one is refused. */
  lemma SequenceBuildsSteps(reg: Registry, parent: Option<Node>, es: seq<Value>)
    requires !IsPairWithParams(VList(es))
    ensures Create(reg, parent, VList(es)) == Create(reg, parent, VTuple(es))
    ensures es == [] ==> Create(reg, parent, VList(es)) == Err(ValueError(EmptySequence))
    ensures es != [] ==> Create(reg, parent, VList(es)) == Steps(reg, parent, es)
  {
    assert Create(reg, parent, VList(es)) == CreateSequence(reg, parent, VList(es));
    assert Create(reg, parent, VTuple(es)) == CreateSequence(reg, parent, VTuple(es));
    if es != [] {
      match Create(reg, parent, es[0])
      case Err(_) =>
      case Ok(first) =>
        ChainFromIsFold(reg, first, VList(es), 1);
        ChainFromIsFold(reg, first, VTuple(es), 1);
    }
  }

  /** Chaining `a + b` is chaining `a`, then `b` after its last node. */
  lemma {:induction false} ChainFoldAppend(reg: Registry, node: Node, a: seq<Value>, b: seq<Value>)
    ensures ChainFold(reg, node, a + b) ==
              if ChainFold(reg, node, a).Err? then ChainFold(reg, node, a)
              else ChainFold(reg, ChainFold(reg, node, a).value, b)
    decreases |a|
  {
    if a != [] {
      assert (a + b)[0] == a[0] && (a + b)[1..] == a[1..] + b;
      match Create(reg, Some(node), a[0])
      case Err(_) =>
      case Ok(next) => ChainFoldAppend(reg, next, a[1..], b);
    } else {
      assert a + b == b;
    }
  }

  lemma StepsAppend(reg: Registry, parent: Option<Node>, a: seq<Value>, b: seq<Value>)
    requires a != []
    ensures Steps(reg, parent, a + b) ==
              if Steps(reg, parent, a).Err? then Steps(reg, parent, a)
              else ChainFold(reg, Steps(reg, parent, a).value, b)
  {
    assert (a + b)[0] == a[0] && (a + b)[1..] == a[1..] + b;
    match Create(reg, parent, a[0])
    case Err(_) =>
    case Ok(first) => ChainFoldAppend(reg, first, a[1..], b);
  }

  /** A nested sequence inside a sequence builds its own sub-chain, whose
      last node is the parent of what follows: `xs + [ys] + zs` builds as
      `xs + ys + zs`, as long as none of the three lists is pair-shaped. */
  lemma NestedSequenceFlattens(reg: Registry, parent: Option<Node>, xs: seq<Value>, ys: seq<Value>, zs: seq<Value>)
    requires ys != [] && !IsPairWithParams(VList(ys))
    requires !IsPairWithParams(VList(xs + [VList(ys)] + zs)) && !IsPairWithParams(VList(xs + ys + zs))
    ensures Create(reg, parent, VList(xs + [VList(ys)] + zs)) == Create(reg, parent, VList(xs + ys + zs))
  {
    SequenceBuildsSteps(reg, parent, xs + [VList(ys)] + zs);
    SequenceBuildsSteps(reg, parent, xs + ys + zs);
    if xs == [] {
      assert xs + [VList(ys)] + zs == [VList(ys)] + zs;
      assert xs + ys + zs == ys + zs;
      SequenceBuildsSteps(reg, parent, ys);
      StepsAppend(reg, parent, ys, zs);
      assert ([VList(ys)] + zs)[0] == VList(ys) && ([VList(ys)] + zs)[1..] == zs;
    } else {
      assert xs + [VList(ys)] + zs == xs + ([VList(ys)] + zs);
      assert xs + ys + zs == xs + (ys + zs);
      StepsAppend(reg, parent, xs, [VList(ys)] + zs);
      StepsAppend(reg, parent, xs, ys + zs);
      if Steps(reg, parent, xs).Ok? {
        ChainNested(reg, Steps(reg, parent, xs).value, ys, zs);
      }
    }
  }

  /** After a node, a nested sequence chains like its elements in place. */
  lemma ChainNested(reg: Registry, m: Node, ys: seq<Value>, zs: seq<Value>)
    requires ys != [] && !IsPairWithParams(VList(ys))
    ensures ChainFold(reg, m, [VList(ys)] + zs) == ChainFold(reg, m, ys + zs)
  {
    SequenceBuildsSteps(reg, Some(m), ys);
    assert ([VList(ys)] + zs)[0] == VList(ys) && ([VList(ys)] + zs)[1..] == zs;
    assert Steps(reg, Some(m), ys) == ChainFold(reg, m, ys) by {
      assert ys == [ys[0]] + ys[1..];
    }
    ChainFoldAppend(reg, m, ys, zs);
  }

  /** `[[A, B], C]` builds the same chain as `[A, B, C]`: C under B under A. */
  lemma NestedExample(reg: Registry, a: Process, b: Process, c: Process)
    ensures Create(reg, None, VList([VList([VProc(a), VProc(b)]), VProc(c)])) ==
            Create(reg, None, VList([VProc(a), VProc(b), VProc(c)]))
    ensures Create(reg, None, VList([VProc(a), VProc(b), VProc(c)])) ==
            Ok(Node(c, Some(Node(b, Some(Node(a, None, [])), [])), []))
  {
    NestedSequenceFlattens(reg, None, [], [VProc(a), VProc(b)], [VProc(c)]);
    assert [] + [VList([VProc(a), VProc(b)])] + [VProc(c)] == [VList([VProc(a), VProc(b)]), VProc(c)];
    assert [] + [VProc(a), VProc(b)] + [VProc(c)] == [VProc(a), VProc(b), VProc(c)];
    SequenceBuildsSteps(reg, None, [VProc(a), VProc(b), VProc(c)]);
    var na := Node(a, None, []);
    var nb := Node(b, Some(na), []);
    var nc := Node(c, Some(nb), []);
    assert Create(reg, None, VProc(a)) == Ok(na);
    assert Create(reg, Some(na), VProc(b)) == Ok(nb);
    assert Create(reg, Some(nb), VProc(c)) == Ok(nc);
    assert [VProc(a), VProc(b), VProc(c)][1..] == [VProc(b), VProc(c)];
    assert [VProc(b), VProc(c)][1..] == [VProc(c)];
    assert ChainFold(reg, nc, []) == Ok(nc);
    assert ChainFold(reg, nb, [VProc(c)]) == Ok(nc);
    assert ChainFold(reg, na, [VProc(b), VProc(c)]) == Ok(nc);
  }

  /** Flattening is not an equivalence when it makes a pair: `[[A], M]`
      chains the mapping M after A, but `[A, M]` is A with M's entries as
      params. */
  lemma FlatteningCanMakeAPair(reg: Registry, a: Process, b: Process)
    ensures var m := VDict([("__process__", VProc(b))]);
            && Create(reg, None, VList([VList([VProc(a)]), m])) == Ok(Node(b, Some(Node(a, None, [])), []))
            && Create(reg, None, VList([VProc(a), m])) == Ok(Node(a, None, [("__process__", Plain(VProc(b)))]))
  {
    NestedThenMapping(reg, a, b);
    PairWithMapping(reg, a, b);
  }

  /** `[[A], M]`: M, holding only `__process__`, is chained after A. */
  lemma NestedThenMapping(reg: Registry, a: Process, b: Process)
    ensures Create(reg, None, VList([VList([VProc(a)]), VDict([("__process__", VProc(b))])])) == Ok(Node(b, Some(Node(a, None, [])), []))
  {
    var m := VDict([("__process__", VProc(b))]);
    var na := Node(a, None, []);
    var nb := Node(b, Some(na), []);
    assert !HasKey(m.entries, "run") && HasKey(m.entries, "__process__") && Get(m.entries, "__process__") == VProc(b);
    SequenceBuildsSteps(reg, None, [VList([VProc(a)]), m]);
    SequenceBuildsSteps(reg, None, [VProc(a)]);
    assert Create(reg, None, VProc(a)) == Ok(na);
    assert [VProc(a)][1..] == [];
    assert Create(reg, None, VList([VProc(a)])) == Ok(na);
    assert Create(reg, Some(na), m) == CreateFromMapping(reg, Some(na), m);
    assert CreateFromMapping(reg, Some(na), m) == Create(reg, Some(na), VProc(b));
    assert Create(reg, Some(na), VProc(b)) == Ok(nb);
    assert [VList([VProc(a)]), m][1..] == [m];
    assert ChainFold(reg, na, [m]) == Ok(nb);
  }

  /** `[A, M]`: a pair, M's entry becoming a Plain param of A. */
  lemma PairWithMapping(reg: Registry, a: Process, b: Process)
    ensures Create(reg, None, VList([VProc(a), VDict([("__process__", VProc(b))])])) == Ok(Node(a, None, [("__process__", Plain(VProc(b)))]))
  {
    CreatePair(reg, None, VProc(a), [("__process__", VProc(b))]);
    ProcessKeyParams(reg, b);
  }

  lemma ProcessKeyParams(reg: Registry, b: Process)
    ensures CreateParams(reg, VDict([("__process__", VProc(b))]), 0, []) == Ok([("__process__", Plain(VProc(b)))])
  {
    var m := VDict([("__process__", VProc(b))]);
    assert !IsMarked("__process__");
    var ps := [("__process__", Plain(VProc(b)))];
    assert Set([], "__process__", Plain(VProc(b))) == ps;
    assert CreateParams(reg, m, 0, []) == CreateParams(reg, m, 1, ps);
  }

  // ------------------------------------------------------------ running

  /** A single instance run with kwargs is one call of its `run` on exactly
      those kwargs. */
  lemma RunSingleProcess(reg: Registry, exec: Exec, history: seq<Call>, p: Process, kwargs: Dict<Value>)
    requires Distinct(kwargs)
    ensures Create(reg, None, VProc(p)) == Ok(Node(p, None, []))
    ensures var call := Call(p, None, kwargs);
            RunWorkflow(exec, history, Workflow(Node(p, None, [])), kwargs) == Outcome(exec(history, call), [call])
  {
    var n := Node(p, None, []);
    assert [] + kwargs == kwargs;
    UpdateDistinctAppends([], kwargs);
    assert ResolveFrom(exec, history, n, 0) == Outcome(Ok([]), []);
    assert history + [] == history;
    assert Run(exec, history, n, kwargs) == Step(exec, history, n, None, kwargs);
  }

  /** `run([A, B, C])` calls A with no source, then B on A's result, then C
      on B's result, and returns C's result: `C(B(A()))`. */
  lemma RunThreeStepPipeline(reg: Registry, exec: Exec, tc: MetaNode -> Value, a: Process, b: Process, c: Process)
    requires exec([], Call(a, None, [])).Ok?
    requires exec([Call(a, None, [])], Call(b, Some(exec([], Call(a, None, [])).value), [])).Ok?
    ensures var ca := Call(a, None, []);
            var cb := Call(b, Some(exec([], ca).value), []);
            var cc := Call(c, Some(exec([ca], cb).value), []);
            RunDescriptor(reg, exec, Native(VList([VProc(a), VProc(b), VProc(c)])), tc) ==
              Outcome(exec([ca, cb], cc), [ca, cb, cc])
  {
    NestedExample(reg, a, b, c);
    var na := Node(a, None, []);
    var nb := Node(b, Some(na), []);
    var nc := Node(c, Some(nb), []);
    var ca := Call(a, None, []);
    var cb := Call(b, Some(exec([], ca).value), []);
    var cc := Call(c, Some(exec([ca], cb).value), []);
    var none: Dict<Value> := [];
    assert Update(none, none) == none;
    assert ResolveFrom(exec, [], na, 0) == Outcome(Ok([]), []);
    assert ResolveFrom(exec, [ca], nb, 0) == Outcome(Ok([]), []);
    assert ResolveFrom(exec, [ca, cb], nc, 0) == Outcome(Ok([]), []);
    assert [] + [ca] == [ca] && [ca] + [] == [ca] && [ca, cb] + [] == [ca, cb];
    assert [] + [ca, cb] == [ca, cb] && [ca, cb] + [cc] == [ca, cb, cc] && [ca] + [cb] == [ca, cb];
    assert Run(exec, [], na, []) == Outcome(exec([], ca), [ca]);
    assert Step(exec, [ca], nb, Some(exec([], ca).value), []) == Outcome(exec([ca], cb), [cb]);
    assert Run(exec, [], nb, []) == Outcome(exec([ca], cb), [ca, cb]);
    assert Step(exec, [ca, cb], nc, Some(exec([ca], cb).value), []) == Outcome(exec([ca, cb], cc), [cc]);
    assert Run(exec, [], nc, []) == Outcome(exec([ca, cb], cc), [ca, cb, cc]);
  }
}

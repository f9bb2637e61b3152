/** Processes, parameter values and pipeline nodes, and how a chain of
    nodes runs (src/rdmlibpy/base.py). */
module Base {
  import opened Dicts
  import opened Values

  // ---------------------------------------------------------------- processes

  /** The registry key of a process: its name, a literal `@v`, its version. */
  function Fullname(p: Process): string {
    p.name + "@v" + p.version
  }

  /** The value an override gives a string field, or the current value. */
  function OverrideStr(config: Dict<Value>, field: string, current: string): (r: Result<string>)
    ensures r.Err? <==> HasKey(config, field) && !Get(config, field).VStr?
    ensures r.Ok? ==> r.value == (if HasKey(config, field) then Get(config, field).s else current)
  {
    if !HasKey(config, field) then Ok(current)
    else match Get(config, field)
      case VStr(s) => Ok(s)
      case _ => Err(ValidationError(field))
  }

  /** `updated(**config)`: a new instance of the same class whose declared
      fields take the values `config` names and keep their own otherwise;
      names that are not fields are dropped, as pydantic does by default. */
  function Updated(p: Process, config: Dict<Value>): (r: Result<Process>)
    ensures r.Err? <==>
              || (HasKey(config, "name") && !Get(config, "name").VStr?)
              || (HasKey(config, "version") && !Get(config, "version").VStr?)
    ensures r.Ok? ==> r.value.kind == p.kind && r.value.fields.Keys == p.fields.Keys
    ensures r.Ok? ==> forall f :: f in p.fields ==> r.value.fields[f] == GetOr(config, f, p.fields[f])
    ensures r.Ok? && !HasKey(config, "name") ==> r.value.name == p.name
    ensures r.Ok? && !HasKey(config, "version") ==> r.value.version == p.version
    ensures r.Ok? && HasKey(config, "name") ==> VStr(r.value.name) == Get(config, "name")
    ensures r.Ok? && HasKey(config, "version") ==> VStr(r.value.version) == Get(config, "version")
  {
    var name :- OverrideStr(config, "name", p.name);
    var version :- OverrideStr(config, "version", p.version);
    Ok(Process(p.kind, name, version, map f | f in p.fields :: GetOr(config, f, p.fields[f])))
  }

  // ------------------------------------------------------- params and nodes

  /** A bound parameter: a literal, or an independent pipeline run on demand. */
  datatype Param = Plain(value: Value) | Runnable(node: Node)

  /** A pipeline step: its runner, the node it follows, its bound parameters. */
  datatype Node = Node(runner: Process, parent: Option<Node>, params: Dict<Param>)

  /** What a caller may pass as a parameter when building a node. */
  datatype ParamArg = AsParam(param: Param) | AsValue(value: Value)

  function ToParam(a: ParamArg): (p: Param)
    ensures a.AsParam? ==> p == a.param
    ensures a.AsValue? ==> p == Plain(a.value)
  {
    match a
    case AsParam(p) => p
    case AsValue(v) => Plain(v)
  }

  /** The params mapping after node validation: same keys in the same order,
      values that are not params yet wrapped as Plain. */
  function ValidatedParams(params: Dict<ParamArg>): (r: Dict<Param>)
    ensures |r| == |params|
    ensures forall i :: 0 <= i < |params| ==> r[i] == (params[i].0, ToParam(params[i].1))
  {
    if params == [] then [] else [(params[0].0, ToParam(params[0].1))] + ValidatedParams(params[1..])
  }

  /** `validate_node_params`, the loop that fills `result`. */
  method ValidateNodeParams(params: Dict<ParamArg>) returns (result: Dict<Param>)
    requires Distinct(params)
    ensures result == ValidatedParams(params)
  {
    result := [];
    for i := 0 to |params|
      invariant result == ValidatedParams(params[..i])
    {
      var key := params[i].0;
      assert !HasKey(result, key) by {
        forall j | 0 <= j < |result| ensures result[j].0 != key {
          assert result[j].0 == params[j].0;
        }
      }
      result := Set(result, key, ToParam(params[i].1));
      assert params[..i + 1] == params[..i] + [params[i]];
      ValidatedParamsAppend(params[..i], params[i]);
    }
    assert params[..|params|] == params;
  }

  lemma ValidatedParamsAppend(ps: Dict<ParamArg>, e: (string, ParamArg))
    ensures ValidatedParams(ps + [e]) == ValidatedParams(ps) + [(e.0, ToParam(e.1))]
  {
  }

  /** `ProcessNode(runner=..., parent=..., params=...)` with the defaults
      `parent=None` and `params={}`. */
  function NewNode(runner: Process, parent: Option<Node> := None, params: Dict<ParamArg> := []): (n: Node)
    ensures n.runner == runner && n.parent == parent
    ensures |n.params| == |params|
    ensures forall i :: 0 <= i < |params| ==> n.params[i] == (params[i].0, ToParam(params[i].1))
  {
    Node(runner, parent, ValidatedParams(params))
  }

  // ---------------------------------------------------------------- running

  /** One invocation of a process's `run`: the positional source, if any,
      and the keyword arguments. */
  datatype Call = Call(runner: Process, source: Option<Value>, kwargs: Dict<Value>)

  /** The behaviour of the processes' own `run`, which the engine does not
      see: given every call made so far and the call now made, what it returns
      or raises. Depending on the history lets a process be stateful. */
  type Exec = (seq<Call>, Call) -> Result<Value>

  /** What an evaluation produced, and every process call it made, in order. */
  datatype Outcome<+T> = Outcome(result: Result<T>, calls: seq<Call>)

  /** `ProcessNode.run(**kwargs)`: a node with a parent runs the parent with
      the same kwargs, then itself with the parent's result as source and
      only its own params; a root runs with its params overlaid by the kwargs
      and no source. */
  function Run(exec: Exec, history: seq<Call>, n: Node, kwargs: Dict<Value>): Outcome<Value>
    decreases n, 1, 0
  {
    match n.parent
    case Some(p) =>
      var up := Run(exec, history, p, kwargs);
      if up.result.Err? then up
      else
        var s := Step(exec, history + up.calls, n, Some(up.result.value), []);
        Outcome(s.result, up.calls + s.calls)
    case None =>
      Step(exec, history, n, None, kwargs)
  }

  /** The node's own part of a run: resolve its params, overlay `overlay`,
      and call its runner with `source`. */
  function Step(exec: Exec, history: seq<Call>, n: Node, source: Option<Value>, overlay: Dict<Value>): (o: Outcome<Value>)
    decreases n, 0, |n.params| + 1
  {
    var ps := ResolveFrom(exec, history, n, 0);
    if ps.result.Err? then Outcome(Err(ps.result.error), ps.calls)
    else
      var call := Call(n.runner, source, Update(ps.result.value, overlay));
      Outcome(exec(history + ps.calls, call), ps.calls + [call])
  }

  /** The params from index `i` on, each resolved in turn. */
  function ResolveFrom(exec: Exec, history: seq<Call>, n: Node, i: nat): Outcome<Dict<Value>>
    decreases n, 0, |n.params| - i
  {
    if i >= |n.params| then Outcome(Ok([]), [])
    else
      var v := GetValue(exec, history, n.params[i].1);
      if v.result.Err? then Outcome(Err(v.result.error), v.calls)
      else
        var rest := ResolveFrom(exec, history + v.calls, n, i + 1);
        if rest.result.Err? then Outcome(Err(rest.result.error), v.calls + rest.calls)
        else Outcome(Ok([(n.params[i].0, v.result.value)] + rest.result.value), v.calls + rest.calls)
  }

  /** `get_value()`: a Plain param's value; a Runnable param's node run from
      scratch with no kwargs. */
  function GetValue(exec: Exec, history: seq<Call>, p: Param): Outcome<Value>
    decreases p, 0, 0
  {
    match p
    case Plain(v) => Outcome(Ok(v), [])
    case Runnable(m) => Run(exec, history, m, [])
  }

  /** `get_params()` */
  function GetParams(exec: Exec, history: seq<Call>, n: Node): Outcome<Dict<Value>> {
    ResolveFrom(exec, history, n, 0)
  }

  /** `get_param(key, default)`: with no default (None) a missing key raises. */
  function GetParam(exec: Exec, history: seq<Call>, n: Node, key: string, default: Value := VNone): (o: Outcome<Value>)
    ensures !HasKey(n.params, key) && default == VNone ==> o == Outcome(Err(KeyError), [])
    ensures !HasKey(n.params, key) && default != VNone ==> o == Outcome(Ok(default), [])
    ensures HasKey(n.params, key) ==> o == GetValue(exec, history, Get(n.params, key))
  {
    if default == VNone then
      if HasKey(n.params, key) then GetValue(exec, history, Get(n.params, key))
      else Outcome(Err(KeyError), [])
    else if HasKey(n.params, key) then GetValue(exec, history, Get(n.params, key))
    else Outcome(Ok(default), [])
  }
}

/** Properties of running a chain of nodes. */
module BaseProofs {
  import opened Dicts
  import opened Values
  import opened Base

  /** The nodes of the chain that ends at `n`, root first. */
  function ChainOf(n: Node): (c: seq<Node>)
    ensures |c| >= 1 && c[|c| - 1] == n && c[0].parent.None?
    ensures forall i :: 0 < i < |c| ==> c[i].parent == Some(c[i - 1])
    decreases n
  {
    match n.parent
    case None => [n]
    case Some(p) => ChainOf(p) + [n]
  }

  /** A reference semantics for a chain, front to back: the first node runs
      as a root with the caller's kwargs, every later node runs on its
      predecessor's result with only its own params. */
  function RunChain(exec: Exec, history: seq<Call>, chain: seq<Node>, kwargs: Dict<Value>): Outcome<Value>
    requires |chain| >= 1
  {
    Pipe(exec, history, chain[1..], Step(exec, history, chain[0], None, kwargs))
  }

  function Pipe(exec: Exec, history: seq<Call>, rest: seq<Node>, acc: Outcome<Value>): Outcome<Value>
    decreases |rest|
  {
    if rest == [] || acc.result.Err? then acc
    else
      var s := Step(exec, history + acc.calls, rest[0], Some(acc.result.value), []);
      Pipe(exec, history, rest[1..], Outcome(s.result, acc.calls + s.calls))
  }

  lemma {:induction false} PipeSnoc(exec: Exec, history: seq<Call>, xs: seq<Node>, y: Node, acc: Outcome<Value>)
    ensures Pipe(exec, history, xs + [y], acc) ==
      var a := Pipe(exec, history, xs, acc);
      if a.result.Err? then a
      else
        var s := Step(exec, history + a.calls, y, Some(a.result.value), []);
        Outcome(s.result, a.calls + s.calls)
    decreases |xs|
  {
    if xs == [] {
      assert xs + [y] == [y];
    } else if acc.result.Ok? {
      assert (xs + [y])[1..] == xs[1..] + [y];
      var s := Step(exec, history + acc.calls, xs[0], Some(acc.result.value), []);
      PipeSnoc(exec, history, xs[1..], y, Outcome(s.result, acc.calls + s.calls));
    }
  }

  /** Running any node of a chain is running the chain front to back from
      its root: the kwargs reach the root's invocation and no other, and
      each later step sees only its predecessor's result. */
  lemma {:induction false} RunIsChainRun(exec: Exec, history: seq<Call>, n: Node, kwargs: Dict<Value>)
    ensures Run(exec, history, n, kwargs) == RunChain(exec, history, ChainOf(n), kwargs)
    decreases n
  {
    match n.parent
    case None =>
    case Some(p) =>
      RunIsChainRun(exec, history, p, kwargs);
      var c := ChainOf(p);
      assert ChainOf(n) == c + [n];
      assert (c + [n])[0] == c[0];
      assert (c + [n])[1..] == c[1..] + [n];
      PipeSnoc(exec, history, c[1..], n, Step(exec, history, c[0], None, kwargs));
  }

  /** A root calls its runner without a source, on its resolved params
      overlaid by the kwargs (the kwargs win). */
  lemma RootInvocation(exec: Exec, history: seq<Call>, n: Node, kwargs: Dict<Value>)
    requires n.parent.None?
    requires GetParams(exec, history, n).result.Ok?
    ensures var ps := GetParams(exec, history, n);
            var call := Call(n.runner, None, Update(ps.result.value, kwargs));
            Run(exec, history, n, kwargs) == Outcome(exec(history + ps.calls, call), ps.calls + [call])
  {
  }

  /** A node with a parent runs the parent first with the same kwargs, then
      calls its runner with the parent's result as source and its own
      resolved params, never the kwargs. */
  lemma ChildInvocation(exec: Exec, history: seq<Call>, n: Node, kwargs: Dict<Value>)
    requires n.parent.Some?
    requires Run(exec, history, n.parent.value, kwargs).result.Ok?
    requires GetParams(exec, history + Run(exec, history, n.parent.value, kwargs).calls, n).result.Ok?
    ensures var up := Run(exec, history, n.parent.value, kwargs);
            var ps := GetParams(exec, history + up.calls, n);
            var call := Call(n.runner, Some(up.result.value), ps.result.value);
            Run(exec, history, n, kwargs) ==
              Outcome(exec(history + up.calls + ps.calls, call), up.calls + ps.calls + [call])
  {
    var up := Run(exec, history, n.parent.value, kwargs);
    var ps := GetParams(exec, history + up.calls, n);
    assert history + up.calls + ps.calls == (history + up.calls) + ps.calls;
    assert up.calls + ps.calls + [Call(n.runner, Some(up.result.value), ps.result.value)]
        == up.calls + (ps.calls + [Call(n.runner, Some(up.result.value), ps.result.value)]);
  }

  /** How many params of `n`, from index `i` on, are Runnable. */
  function RunnableCount(n: Node, i: nat): nat
    decreases |n.params| - i
  {
    if i >= |n.params| then 0
    else (if n.params[i].1.Runnable? then 1 else 0) + RunnableCount(n, i + 1)
  }

  /** A successful run calls every runner of its chain at least once, and
      the last call is the node's own runner. */
  lemma {:induction false} RunCallsEveryStep(exec: Exec, history: seq<Call>, n: Node, kwargs: Dict<Value>)
    requires Run(exec, history, n, kwargs).result.Ok?
    ensures var o := Run(exec, history, n, kwargs);
            |o.calls| >= |ChainOf(n)| && o.calls[|o.calls| - 1].runner == n.runner
    decreases n, 1
  {
    match n.parent
    case None =>
    case Some(p) =>
      RunCallsEveryStep(exec, history, p, kwargs);
  }

  /** Resolving params runs every Runnable param afresh: a successful
      resolution makes at least one call per Runnable param, whatever was
      run before. */
  lemma {:induction false} ResolveRunsEachRunnable(exec: Exec, history: seq<Call>, n: Node, i: nat)
    requires ResolveFrom(exec, history, n, i).result.Ok?
    ensures |ResolveFrom(exec, history, n, i).calls| >= RunnableCount(n, i)
    decreases |n.params| - i
  {
    if i < |n.params| {
      var v := GetValue(exec, history, n.params[i].1);
      if n.params[i].1.Runnable? {
        RunCallsEveryStep(exec, history, n.params[i].1.node, []);
      }
      ResolveRunsEachRunnable(exec, history + v.calls, n, i + 1);
    }
  }

  /** `get_params()` gives every key of the node, in order, and a Plain
      param's stored value unchanged. */
  lemma {:induction false} ResolvedParamsShape(exec: Exec, history: seq<Call>, n: Node, i: nat)
    requires i <= |n.params|
    requires ResolveFrom(exec, history, n, i).result.Ok?
    ensures var r := ResolveFrom(exec, history, n, i).result.value;
            && |r| == |n.params| - i
            && (forall j :: i <= j < |n.params| ==> r[j - i].0 == n.params[j].0)
            && (forall j :: i <= j < |n.params| && n.params[j].1.Plain? ==> r[j - i].1 == n.params[j].1.value)
    decreases |n.params| - i
  {
    if i < |n.params| {
      var v := GetValue(exec, history, n.params[i].1);
      ResolvedParamsShape(exec, history + v.calls, n, i + 1);
    }
  }

  /** Two Runnable params bound to the same pipeline run it twice, each time
      from scratch: the second run sees the first one's calls in its history. */
  lemma NoSharingBetweenRunnables(exec: Exec, history: seq<Call>, runner: Process, parent: Option<Node>, d: Node)
    requires Run(exec, history, d, []).result.Ok?
    ensures var n := Node(runner, parent, [("x", Runnable(d)), ("y", Runnable(d))]);
            var first := Run(exec, history, d, []);
            var second := Run(exec, history + first.calls, d, []);
            GetParams(exec, history, n).calls == first.calls + second.calls
  {
    var n := Node(runner, parent, [("x", Runnable(d)), ("y", Runnable(d))]);
    var first := Run(exec, history, d, []);
    var second := Run(exec, history + first.calls, d, []);
    assert GetValue(exec, history, n.params[0].1) == first;
    assert GetValue(exec, history + first.calls, n.params[1].1) == second;
    assert ResolveFrom(exec, history + first.calls + second.calls, n, 2) == Outcome(Ok([]), []);
    assert ResolveFrom(exec, history + first.calls, n, 1).calls == second.calls;
  }

  /** Updating with nothing gives back an equal process. */
  lemma UpdatedWithNothing(p: Process)
    ensures Updated(p, []) == Ok(p)
  {
    var q := Updated(p, []).value;
    assert q.fields == p.fields;
  }

  /** Two updates in a row are one update with the merged overrides (later
      ones win). */
  lemma {:induction false} UpdatedTwice(p: Process, a: Dict<Value>, b: Dict<Value>)
    requires Distinct(b)
    requires Updated(p, a).Ok?
    ensures Updated(Updated(p, a).value, b) == Updated(p, Update(a, b))
  {
    var q := Updated(p, a).value;
    var ab := Update(a, b);
    OverrideTwice(a, b, "name", p.name);
    OverrideTwice(a, b, "version", p.version);
    FieldsTwice(p.fields, a, b);
  }

  /** The declared fields overridden by `a`, then by `b`, as by the merged overrides. */
  lemma FieldsTwice(fields: map<string, Value>, a: Dict<Value>, b: Dict<Value>)
    requires Distinct(b)
    ensures var q := map f | f in fields :: GetOr(a, f, fields[f]);
            (map f | f in q :: GetOr(b, f, q[f])) == (map f | f in fields :: GetOr(Update(a, b), f, fields[f]))
  {
    var q := map f | f in fields :: GetOr(a, f, fields[f]);
    forall f | f in fields ensures GetOr(b, f, q[f]) == GetOr(Update(a, b), f, fields[f]) {
      GetOrTwice(a, b, f, fields[f]);
    }
  }

  /** A string field overridden by `a`, then by `b`, as by the merged overrides. */
  lemma OverrideTwice(a: Dict<Value>, b: Dict<Value>, field: string, current: string)
    requires Distinct(b) && OverrideStr(a, field, current).Ok?
    ensures OverrideStr(b, field, OverrideStr(a, field, current).value) == OverrideStr(Update(a, b), field, current)
  {
    UpdateHasKey(a, b, field);
  }

  /** A field looked up in `a`, then in `b`, as in the merged overrides. */
  lemma GetOrTwice(a: Dict<Value>, b: Dict<Value>, field: string, current: Value)
    requires Distinct(b)
    ensures GetOr(b, field, GetOr(a, field, current)) == GetOr(Update(a, b), field, current)
  {
    UpdateHasKey(a, b, field);
  }
}

/** The descriptor builder (src/rdmlibpy/workflow.py): a descriptor of plain
    nested data (instances, registry names, name-and-params pairs, mappings
    with the reserved keys `run`, `config`, `params` and `__process__`, and
    sequences of these) becomes a chain of process nodes. */
module Workflows {
  import opened Dicts
  import opened Values
  import opened Base
  import opened Registry
  import opened Metadata

  /** `Workflow(process)`: a handle on the last node of the chain. */
  datatype Workflow = Workflow(process: Node)

  /** What `Workflow.create` is given: native nested data, or a metadata node
      that is materialised with `Metadata.to_container` first. */
  datatype Descriptor = Native(value: Value) | MetadataDescriptor(node: MetaNode)

  /** The pair patterns `(process, dict)` and `(name, dict)`: a two-element
      list or tuple whose second element is a dict. */
  predicate IsPairWithParams(d: Value) {
    IsPatternSequence(d) && |d.elems| == 2 && (d.elems[0].VProc? || d.elems[0].VStr?) && d.elems[1].VDict?
  }

  /** Params that are already `ProcessParam`s, as the node validator sees them. */
  function AsArgs(ps: Dict<Param>): (r: Dict<ParamArg>)
    ensures |r| == |ps| && forall i :: 0 <= i < |ps| ==> r[i] == (ps[i].0, AsParam(ps[i].1))
  {
    seq(|ps|, i requires 0 <= i < |ps| => (ps[i].0, AsParam(ps[i].1)))
  }

  /** Whether a param key carries the `$` marker of a nested descriptor. */
  predicate IsMarked(key: string) {
    |key| > 0 && key[0] == '$'
  }

  /** `Workflow._create(parent, descriptor)`: the shapes are tried in the
      order of the `match`. */
  function Create(reg: Registry, parent: Option<Node>, d: Value): Result<Node>
    decreases d, 2
  {
    if d.VProc? then Ok(NewNode(d.proc, parent))
    else if d.VStr? then
      var p :- GetRunner(reg, d, []);
      Ok(NewNode(p, parent))
    else if IsPairWithParams(d) then
      var p :- if d.elems[0].VProc? then Ok(d.elems[0].proc) else GetRunner(reg, d.elems[0], []);
      var params :- CreateParams(reg, d.elems[1], 0, []);
      Ok(NewNode(p, parent, AsArgs(params)))
    else if d.VDict? then CreateFromMapping(reg, parent, d)
    else if IsPatternSequence(d) then CreateSequence(reg, parent, d)
    else Err(ValueError(BadDescriptor))
  }

  /** `Workflow._create_params(**kwargs)` from entry `i` on, `acc` holding the
      params built so far: a `$`-marked key's value is built into a parentless
      node under the key without its marker; any other value is kept as it is. */
  function CreateParams(reg: Registry, kwargs: Value, i: nat, acc: Dict<Param>): Result<Dict<Param>>
    requires kwargs.VDict?
    decreases kwargs, 1, |kwargs.entries| - i
  {
    if i >= |kwargs.entries| then Ok(acc)
    else
      var key := kwargs.entries[i].0;
      if IsMarked(key) then
        var node :- Create(reg, None, kwargs.entries[i].1);
        CreateParams(reg, kwargs, i + 1, Set(acc, key[1..], Runnable(node)))
      else CreateParams(reg, kwargs, i + 1, Set(acc, key, Plain(kwargs.entries[i].1)))
  }

  /** `Workflow._create_process_from_mapping(parent, process)` */
  function CreateFromMapping(reg: Registry, parent: Option<Node>, d: Value): Result<Node>
    requires d.VDict?
    decreases d, 1
  {
    var m := d.entries;
    if !HasKey(m, "run") then
      if HasKey(m, "__process__") then Create(reg, parent, Get(m, "__process__"))
      else Err(ValueError(NoRunElement))
    else
      var config := GetOr(m, "config", VDict([]));
      if !config.VDict? then Err(TypeError)
      else
        var runner :- GetRunner(reg, Get(m, "run"), config.entries);
        if !HasKey(m, "params") then Ok(NewNode(runner, parent))
        else if !Get(m, "params").VDict? then Err(TypeError)
        else
          var params :- CreateParams(reg, Get(m, "params"), 0, []);
          Ok(NewNode(runner, parent, AsArgs(params)))
  }

  /** `Workflow._create_sequence(parent, sequence)`: the first element under
      `parent`, each later one under the node built before it. */
  function CreateSequence(reg: Registry, parent: Option<Node>, d: Value): Result<Node>
    requires IsPatternSequence(d)
    decreases d, 1
  {
    if d.elems == [] then Err(ValueError(EmptySequence))
    else
      var first :- Create(reg, parent, d.elems[0]);
      ChainFrom(reg, first, d, 1)
  }

  /** The elements of `d` from index `i` on, each built under the previous node. */
  function ChainFrom(reg: Registry, node: Node, d: Value, i: nat): Result<Node>
    requires IsPatternSequence(d)
    decreases d, 0, |d.elems| - i
  {
    if i >= |d.elems| then Ok(node)
    else
      var next :- Create(reg, Some(node), d.elems[i]);
      ChainFrom(reg, next, d, i + 1)
  }

  /** The loop of `_create_params`: one dict assignment per entry. */
  method CreateParamsLoop(reg: Registry, kwargs: Value) returns (params: Result<Dict<Param>>)
    requires kwargs.VDict?
    ensures params == CreateParams(reg, kwargs, 0, [])
  {
    var acc: Dict<Param> := [];
    for i := 0 to |kwargs.entries|
      invariant CreateParams(reg, kwargs, 0, []) == CreateParams(reg, kwargs, i, acc)
    {
      var (key, value) := kwargs.entries[i];
      if IsMarked(key) {
        var node := Create(reg, None, value);
        if node.Err? {
          return Err(node.error);
        }
        acc := Set(acc, key[1..], Runnable(node.value));
      } else {
        acc := Set(acc, key, Plain(value));
      }
    }
    return Ok(acc);
  }

  /** The deque loop of `_create_sequence`. */
  method CreateSequenceLoop(reg: Registry, parent: Option<Node>, d: Value) returns (r: Result<Node>)
    requires IsPatternSequence(d)
    ensures r == CreateSequence(reg, parent, d)
  {
    if d.elems == [] {
      return Err(ValueError(EmptySequence));
    }
    var queue := d.elems;
    var first := Create(reg, parent, queue[0]);
    queue := queue[1..];
    if first.Err? {
      return first;
    }
    var process := first.value;
    ghost var done := 1;
    while queue != []
      invariant 0 < done <= |d.elems| && queue == d.elems[done..]
      invariant CreateSequence(reg, parent, d) == ChainFrom(reg, process, d, done)
      decreases |queue|
    {
      ChainFromStep(reg, process, d, done);
      var next := Create(reg, Some(process), queue[0]);
      queue := queue[1..];
      if next.Err? {
        return next;
      }
      process := next.value;
      done := done + 1;
    }
    return Ok(process);
  }

  lemma ChainFromStep(reg: Registry, node: Node, d: Value, i: nat)
    requires IsPatternSequence(d) && i < |d.elems|
    ensures var next := Create(reg, Some(node), d.elems[i]);
            ChainFrom(reg, node, d, i) == if next.Err? then Err(next.error) else ChainFrom(reg, next.value, d, i + 1)
  {
  }

  /** `Workflow.create(descriptor)`: built at no parent. */
  function CreateWorkflow(reg: Registry, desc: Descriptor, toContainer: MetaNode -> Value): (r: Result<Workflow>)
    ensures desc.Native? ==> r.Ok? == Create(reg, None, desc.value).Ok?
    ensures desc.Native? && r.Ok? ==> r.value.process == Create(reg, None, desc.value).value
    ensures desc.Native? && r.Err? ==> r.error == Create(reg, None, desc.value).error
    ensures desc.MetadataDescriptor? ==> r.Ok? == Create(reg, None, toContainer(desc.node)).Ok?
    ensures desc.MetadataDescriptor? && r.Ok? ==> r.value.process == Create(reg, None, toContainer(desc.node)).value
    ensures desc.MetadataDescriptor? && r.Err? ==> r.error == Create(reg, None, toContainer(desc.node)).error
  {
    var d := match desc
      case Native(v) => v
      case MetadataDescriptor(n) => toContainer(n);
    var node :- Create(reg, None, d);
    Ok(Workflow(node))
  }

  /** `Workflow.run(**kwargs)` */
  function RunWorkflow(exec: Exec, history: seq<Call>, w: Workflow, kwargs: Dict<Value>): Outcome<Value> {
    Run(exec, history, w.process, kwargs)
  }

  /** The module-level `run(workflow)`: build, then run with no kwargs; a
      descriptor that does not build runs nothing. */
  function RunDescriptor(reg: Registry, exec: Exec, desc: Descriptor, toContainer: MetaNode -> Value): (o: Outcome<Value>)
    ensures CreateWorkflow(reg, desc, toContainer).Err? ==>
              o == Outcome(Err(CreateWorkflow(reg, desc, toContainer).error), [])
    ensures CreateWorkflow(reg, desc, toContainer).Ok? ==>
              o == Run(exec, [], CreateWorkflow(reg, desc, toContainer).value.process, [])
  {
    match CreateWorkflow(reg, desc, toContainer)
    case Err(e) => Outcome(Err(e), [])
    case Ok(w) => RunWorkflow(exec, [], w, [])
  }
}

/** The processes the `common` module registers on import (src/rdmlibpy/common.py):
    `ScalarSource`, whose run is modelled, and `IncludeMetadataFile`, whose
    run reads a file and is left to the environment. */
module Common {
  import opened Dicts
  import opened Values
  import opened Base
  import opened Registry

  /** `ScalarSource()`: name `scalar.source`, version `1`, `value` None. */
  const ScalarSourceDefault := Process(ScalarSourceKind, "scalar.source", "1", map["value" := VNone])

  /** `IncludeMetadataFile()`: name `include.metadata.file`, version `1`. */
  const IncludeMetadataFileDefault := Process(IncludeMetadataFileKind, "include.metadata.file", "1", map[])

  /** The catalog `before` once the module is imported: both defaults
      registered under their full names, every other entry kept. */
  function RegisterCommon(before: Registry): (reg: Registry)
    ensures reg.Keys == before.Keys + {"scalar.source@v1", "include.metadata.file@v1"}
    ensures reg["scalar.source@v1"] == ScalarSourceDefault
    ensures reg["include.metadata.file@v1"] == IncludeMetadataFileDefault
    ensures forall k :: k in before && k != "scalar.source@v1" && k != "include.metadata.file@v1" ==> reg[k] == before[k]
  {
    assert Fullname(ScalarSourceDefault) == "scalar.source@v1";
    assert Fullname(IncludeMetadataFileDefault) == "include.metadata.file@v1";
    Register(Register(before, ScalarSourceDefault), IncludeMetadataFileDefault)
  }

  /** `ScalarSource.run(self, value=None)` for one call: the engine passes the
      upstream result positionally, or a root's params as keywords; any other
      keyword, or `value` given twice, is a TypeError. The argument wins when
      it is not None, the configured `value` field otherwise. */
  function ScalarRun(p: Process, c: Call): (r: Result<Value>)
    ensures c.source.None? && (forall i :: 0 <= i < |c.kwargs| ==> c.kwargs[i].0 == "value") ==>
              var arg := GetOr(c.kwargs, "value", VNone);
              r == Ok(if arg != VNone then arg else if "value" in p.fields then p.fields["value"] else VNone)
    ensures c.source.Some? && c.kwargs == [] ==>
              r == Ok(if c.source.value != VNone then c.source.value else if "value" in p.fields then p.fields["value"] else VNone)
    ensures r.Err? <==> (c.source.Some? && c.kwargs != []) || exists i :: 0 <= i < |c.kwargs| && c.kwargs[i].0 != "value"
  {
    var arg :-
      if c.source.Some? then
        if c.kwargs != [] then Err(TypeError) else Ok(c.source.value)
      else if exists i :: 0 <= i < |c.kwargs| && c.kwargs[i].0 != "value" then Err(TypeError)
      else Ok(GetOr(c.kwargs, "value", VNone));
    if arg != VNone then Ok(arg)
    else if "value" in p.fields then Ok(p.fields["value"])
    else Ok(VNone)
  }

  /** The behaviour of every process: ScalarSource's own run, and `env` for
      the rest. */
  function Behaviour(env: Exec): Exec {
    (history: seq<Call>, c: Call) =>
      if c.runner.kind == ScalarSourceKind then ScalarRun(c.runner, c) else env(history, c)
  }
}

/** ScalarSource inside the engine: the documented runs, and how an upstream
    result takes precedence over the configured value. */
module CommonProofs {
  import opened Dicts
  import opened Values
  import opened Base
  import opened Registry
  import opened Metadata
  import opened Workflows
  import opened WorkflowProofs
  import opened Common

  /** The registry key has a literal `v` before the version. */
  lemma ScalarSourceKey(before: Registry)
    ensures Fullname(ScalarSourceDefault) == "scalar.source@v1"
    ensures GetRunner(RegisterCommon(before), VStr("scalar.source@v1"), []) == Ok(ScalarSourceDefault)
    ensures "scalar.source@1" !in before ==>
              GetRunner(RegisterCommon(before), VStr("scalar.source@1"), []) == Err(LookupError(VStr("scalar.source@1")))
  {
    assert Fullname(ScalarSourceDefault) == "scalar.source@v1";
    assert "scalar.source@1" in before || "scalar.source@1" !in RegisterCommon(before);
  }

  /** Called directly: the argument if not None, else the configured value,
      else None. */
  lemma ScalarRunDirect(v: Value, configured: Value)
    ensures ScalarRun(ScalarSourceDefault, Call(ScalarSourceDefault, None, [("value", VInt(42))])) == Ok(VInt(42))
    ensures var p := Process(ScalarSourceKind, "scalar.source", "1", map["value" := configured]);
            ScalarRun(p, Call(p, None, [])) == Ok(configured)
    ensures ScalarRun(ScalarSourceDefault, Call(ScalarSourceDefault, None, [])) == Ok(VNone)
    ensures v != VNone ==> ScalarRun(ScalarSourceDefault, Call(ScalarSourceDefault, Some(v), [])) == Ok(v)
  {
    assert GetOr([("value", VInt(42))], "value", VNone) == VInt(42);
  }

  /** A ScalarSource node with a parent and no params returns the parent's
      result whenever that is not None: the configured value is then unused. */
  lemma ScalarSourcePassesUpstream(env: Exec, history: seq<Call>, n: Node, kwargs: Dict<Value>, v: Value)
    requires n.runner.kind == ScalarSourceKind && n.parent.Some? && n.params == []
    requires Run(Behaviour(env), history, n.parent.value, kwargs).result == Ok(v)
    ensures v != VNone ==> Run(Behaviour(env), history, n, kwargs).result == Ok(v)
    ensures v == VNone && "value" in n.runner.fields ==>
              Run(Behaviour(env), history, n, kwargs).result == Ok(n.runner.fields["value"])
  {
    var e := Behaviour(env);
    var up := Run(e, history, n.parent.value, kwargs);
    assert ResolveFrom(e, history + up.calls, n, 0) == Outcome(Ok([]), []);
    var none: Dict<Value> := [];
    assert Update(none, none) == none;
    var c := Call(n.runner, Some(v), []);
    assert e(history + up.calls, c) == ScalarRun(n.runner, c);
    assert Run(e, history, n, kwargs).result == e(history + up.calls, c);
  }

  /** The mapping `{"run": name, "params": {"value": v}}` builds a parentless
      node of the registered runner with the single Plain param `value`. */
  lemma BuildRunWithValue(reg: Registry, name: string, v: Value)
    requires name in reg
    ensures Create(reg, None, VDict([("run", VStr(name)), ("params", VDict([("value", v)]))])) ==
            Ok(Node(reg[name], None, [("value", Plain(v))]))
  {
    var kw := VDict([("value", v)]);
    var m := [("run", VStr(name)), ("params", kw)];
    assert IndexOf(m, "run") == Some(0) && IndexOf(m, "params") == Some(1);
    assert forall j :: 0 <= j < |m| ==> m[j].0 != "config";
    assert !HasKey(m, "config");
    var ps := [("value", Plain(v))];
    assert Set([], "value", Plain(v)) == ps;
    assert CreateParams(reg, kw, 0, []) == CreateParams(reg, kw, 1, ps);
    assert CreateParams(reg, kw, 1, ps) == Ok(ps);
    AsArgsValidated(ps);
    assert GetOr(m, "config", VDict([])) == VDict([]);
    assert GetRunner(reg, Get(m, "run"), []) == Ok(reg[name]);
    assert Get(m, "params") == kw;
    assert CreateFromMapping(reg, None, VDict(m)) == Ok(NewNode(reg[name], None, AsArgs(ps)));
    assert Create(reg, None, VDict(m)) == CreateFromMapping(reg, None, VDict(m));
  }

  /** A root ScalarSource node with the param `value` returns it, if not None. */
  lemma RunRootWithValue(env: Exec, p: Process, v: Value)
    requires p.kind == ScalarSourceKind && v != VNone
    ensures Run(Behaviour(env), [], Node(p, None, [("value", Plain(v))]), []).result == Ok(v)
  {
    var n := Node(p, None, [("value", Plain(v))]);
    var e := Behaviour(env);
    var h0: seq<Call> := [];
    assert h0 + h0 == h0;
    assert GetValue(e, h0, Plain(v)) == Outcome(Ok(v), h0);
    var r0: Dict<Value> := [];
    assert ResolveFrom(e, h0, n, 1) == Outcome(Ok(r0), h0);
    assert [("value", v)] + r0 == [("value", v)];
    assert ResolveFrom(e, h0, n, 0) == Outcome(Ok([("value", v)]), h0);
    var none: Dict<Value> := [];
    assert Update([("value", v)], none) == [("value", v)];
    var c := Call(p, None, [("value", v)]);
    assert GetOr(c.kwargs, "value", VNone) == v;
    assert forall i :: 0 <= i < |c.kwargs| ==> c.kwargs[i].0 == "value";
    assert e([], c) == ScalarRun(p, c);
  }

  /** `{"run": "scalar.source@v1", "params": {"value": 42}}` runs to 42 in
      any catalog the module has been imported into. */
  lemma ScalarDescriptorRuns(env: Exec, tc: MetaNode -> Value, before: Registry)
    ensures var d := VDict([("run", VStr("scalar.source@v1")), ("params", VDict([("value", VInt(42))]))]);
            RunDescriptor(RegisterCommon(before), Behaviour(env), Native(d), tc).result == Ok(VInt(42))
  {
    ScalarSourceKey(before);
    var reg := RegisterCommon(before);
    BuildRunWithValue(reg, "scalar.source@v1", VInt(42));
    RunRootWithValue(env, ScalarSourceDefault, VInt(42));
  }

  /** With the version written `@1` nothing is found and nothing runs,
      unless some other process was registered under that name. */
  lemma MisspelledVersionRunsNothing(env: Exec, tc: MetaNode -> Value, before: Registry)
    requires "scalar.source@1" !in before
    ensures var d := VDict([("run", VStr("scalar.source@1")), ("params", VDict([("value", VInt(42))]))]);
            RunDescriptor(RegisterCommon(before), Behaviour(env), Native(d), tc) == Outcome(Err(LookupError(VStr("scalar.source@1"))), [])
  {
    ScalarSourceKey(before);
    var reg := RegisterCommon(before);
    var m' := [("run", VStr("scalar.source@1")), ("params", VDict([("value", VInt(42))]))];
    assert IndexOf(m', "run") == Some(0) && !HasKey(m', "config");
    assert Create(reg, None, VDict(m')) == CreateFromMapping(reg, None, VDict(m'));
  }
}

/** The process catalog: `fullname` to the registered instance. The registry
    module itself is not part of this model; it is modelled on what its
    callers rely on. */
module Registry {
  import opened Dicts
  import opened Values
  import opened Base

  type Registry = map<string, Process>

  /** `register(process)`: a later registration under the same fullname
      replaces the earlier one. */
  function Register(reg: Registry, p: Process): (r: Registry)
    ensures r.Keys == reg.Keys + {Fullname(p)}
  {
    reg[Fullname(p) := p]
  }

  /** `get_runner(name, **config)`: the registered instance itself, or an
      updated copy of it when overrides are given. */
  function GetRunner(reg: Registry, name: Value, config: Dict<Value>): (r: Result<Process>)
    ensures !(name.VStr? && name.s in reg) ==> r == Err(LookupError(name))
    ensures name.VStr? && name.s in reg && config == [] ==> r == Ok(reg[name.s])
    ensures name.VStr? && name.s in reg && config != [] ==> r == Updated(reg[name.s], config)
  {
    if name.VStr? && name.s in reg then
      if config == [] then Ok(reg[name.s]) else Updated(reg[name.s], config)
    else Err(LookupError(name))
  }

  /** A registered process is found again under its fullname, whatever was
      registered before it, and nothing else moves. */
  lemma RegisterThenGet(reg: Registry, p: Process, other: string)
    ensures GetRunner(Register(reg, p), VStr(Fullname(p)), []) == Ok(p)
    ensures other != Fullname(p) ==>
              GetRunner(Register(reg, p), VStr(other), []) == GetRunner(reg, VStr(other), [])
  {
  }
}

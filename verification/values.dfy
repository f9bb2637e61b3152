/** The dynamic values the engine handles (descriptors, parameters, results,
    metadata containers), process instances, and the exceptions it raises. */
module Values {
  import opened Dicts

  /** What distinguishes one process class from another: its `run`. */
  datatype ProcessKind =
    | ScalarSourceKind
    | IncludeMetadataFileKind
    | ExternalKind(cls: string)   // any other class: loaders, transforms, caches, writers

  /** A process instance: a pydantic model with `name`, `version` and the
      other declared fields of its class. */
  datatype Process = Process(kind: ProcessKind, name: string, version: string, fields: map<string, Value>)

  /** A Python value as far as the engine can tell them apart. */
  datatype Value =
    | VNone
    | VBool(b: bool)
    | VInt(i: int)
    | VStr(s: string)
    | VBytes(bytes: seq<bv8>)
    | VList(elems: seq<Value>)
    | VTuple(elems: seq<Value>)
    | VDict(entries: Dict<Value>)
    | VProc(proc: Process)
    | VOther(tag: string)          // any other object (paths, floats, data frames, ...)

  /** Python's `==` on values: lists and tuples compare element by element,
      dicts as key-to-value mappings whatever their insertion order; other
      values compare as they are. */
  predicate PyEq(a: Value, b: Value)
    decreases a
  {
    match a
    case VList(xs) =>
      b.VList? && |xs| == |b.elems| && forall i :: 0 <= i < |xs| ==> PyEq(xs[i], b.elems[i])
    case VTuple(xs) =>
      b.VTuple? && |xs| == |b.elems| && forall i :: 0 <= i < |xs| ==> PyEq(xs[i], b.elems[i])
    case VDict(e) =>
      b.VDict? && (forall j :: 0 <= j < |b.entries| ==> HasKey(e, b.entries[j].0)) &&
      forall i :: 0 <= i < |e| ==> HasKey(b.entries, e[i].0) && PyEq(Get(e, e[i].0), Get(b.entries, e[i].0))
    case _ => a == b
  }

  /** `isinstance(v, collections.abc.Mapping)` */
  predicate IsMapping(v: Value) {
    v.VDict?
  }

  /** `isinstance(v, collections.abc.Sequence)`: strings and bytes included. */
  predicate IsSequence(v: Value) {
    v.VList? || v.VTuple? || v.VStr? || v.VBytes?
  }

  /** The sequence patterns of `match` (`[*xs]`, `(a, b)`) accept sequences
      other than str, bytes and bytearray. */
  predicate IsPatternSequence(v: Value) {
    v.VList? || v.VTuple?
  }

  function SeqLen(v: Value): nat
    requires IsSequence(v)
  {
    match v
    case VStr(s) => |s|
    case VBytes(b) => |b|
    case _ => |v.elems|
  }

  /** `v[i]` for `0 <= i < len(v)`: a character is a one-character string,
      a byte is an int. */
  function SeqAt(v: Value, i: nat): Value
    requires IsSequence(v) && i < SeqLen(v)
  {
    match v
    case VStr(s) => VStr([s[i]])
    case VBytes(b) => VInt(b[i] as int)
    case _ => v.elems[i]
  }

  datatype ValueErrorKind =
    | BadDescriptor        // no descriptor shape matches
    | EmptySequence        // a sequence descriptor without elements
    | NoRunElement         // a mapping descriptor without `run` and without `__process__`
    | NotAContainer        // neither a mapping nor a sequence given as metadata container
    | ByteOutOfRange       // `i in some_bytes` with `i` outside 0..255
    | KeyExists(key: string)      // rebuild: a leaf key is already present
    | NotADictionary(level: string) // rebuild: an intermediate level holds a non-dict

  datatype Error =
    | ValueError(kind: ValueErrorKind)
    | TypeError
    | KeyError
    | IndexError
    | AttributeError
    | NotImplementedError
    | RecursionError
    | LookupError(name: Value)       // no registry entry under that name
    | ValidationError(field: string) // pydantic refused an overridden field
    | ProcessError(reason: string)   // raised inside a process's own run

  datatype Result<+T> = Ok(value: T) | Err(error: Error) {
    predicate IsFailure() { Err? }
    function PropagateFailure<U>(): Result<U>
      requires Err?
    {
      Err(error)
    }
    function Extract(): T
      requires Ok?
    {
      value
    }
  }
}

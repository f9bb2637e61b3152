# rdmlibpy pipeline core, modelled in Dafny

rdmlibpy builds data-processing pipelines from plain nested data. This project models four parts of it:

- **The descriptor builder** (`Workflow.create`). It turns a descriptor into a chain of process nodes. A descriptor is one of:
  - a process instance;
  - a registry name;
  - a `(process-or-name, params)` pair;
  - a mapping with `run`/`config`/`params` or `__process__`;
  - a sequence of these, nested at will.
- **The executor** (`ProcessNode.run`). A node runs its parent first and hands the result on as `source`. Caller kwargs reach only the root's invocation. Params are resolved on every run:
  - a Plain param gives its stored value;
  - a Runnable param re-runs its own pipeline from scratch.
- **The inheritance-aware metadata lookup** (`MetadataNode`). A node wraps a dict or list and points at its parent. A key the node lacks is looked up on the nearest dict ancestor that holds it.
- **The dotted-key pair `flatten`/`rebuild`** (`metadata/flattery.py`).

It also models the `ScalarSource` process and what importing `common` adds to the registry.

## Files and their modules

- `dicts.dfy` (`Dicts`): Python dicts with string keys, as insertion-ordered association lists. Assigning to a present key keeps its position; a new key is appended. `dict(items)` keeps the first position and the last value of a repeated key.
- `values.dfy` (`Values`): the values a descriptor or a container is built from. Also the error kinds and a `Result` type that supports `:-`.
- `base.dfy` (`Base`, `BaseProofs`): processes, `updated`, `fullname`, params, nodes and running a chain.
- `registry.dfy` (`Registry`): the catalog, as a map from fullname to instance.
- `metadata.dfy` (`Metadata`, `MetadataProofs`): metadata nodes and lookup.
- `workflow.dfy` (`Workflows`) and `workflow_proofs.dfy` (`WorkflowProofs`): the builder, `Workflow.run` and `run`.
- `common.dfy` (`Common`, `CommonProofs`): `ScalarSource` and the registrations made on import.
- `flattery.dfy` (`Flattery`) and `flattery_proofs.dfy` (`FlatteryProofs`): `flatten`, `rebuild`, and the round trip between them.

## Modelling decisions

- **A process** is a value: its class (`ProcessKind`), `name`, `version` and a map of its other declared fields. What a process's `run` does is not visible to the engine, so it is a parameter `exec: (history, call) -> Result<Value>`. The history lists every call made before, which lets a process be stateful. A run returns its result together with the trace of every call it made, in order. That trace is how "the parent runs first", "kwargs reach only the root" and "Runnable params are re-run, not cached" are stated. `ScalarSource`'s own `run` is concrete (`Common.Behaviour`).
- **The registry** module is not part of this model. Its callers rely on two things, which is how it is modelled:
  - `register` stores an instance under its fullname;
  - `get_runner(name, **config)` returns the stored instance, or the instance's `updated(**config)` when overrides are given.

  A name that is not a registered string gives `LookupError`.
- **Mutation.** Nodes, params and metadata nodes never change after they are built, so they are datatypes. The loops in the source become methods proved equal to the functions that specify them:
  - `_create_params` and the deque loop of `_create_sequence`;
  - `validate_node_params`;
  - the walk of `_iter_inheritance_chain`;
  - the loop of `rebuild`.

  `_insert_key` changes the nested result dict in place. Here it is a function that returns the new dict.
- **Python's `==`** (`Values.PyEq`) decides membership in a list or tuple: lists and tuples compare element by element and never equal each other, and dicts compare as key-to-value mappings whatever their insertion order.
- **`flatten` and `str.find`.** `flatten` is a pair of recursive functions over the nested value. `str.find` is modelled exactly, including the empty separator, which occurs at position 0.

## Behaviours of the code worth knowing

- **`fullname`** is `name@v<version>` (`src/rdmlibpy/base.py:45`). `ScalarSource` is therefore registered as `scalar.source@v1`, and the descriptor `{"run": "scalar.source@1", ...}` does not find it (`CommonProofs.ScalarSourceKey`, `CommonProofs.MisspelledVersionRunsNothing`).
- **`ScalarSource` as a later step** returns its upstream result whenever that is not None. Its configured `value` is used only when the upstream result is None (`CommonProofs.ScalarSourcePassesUpstream`). A chain that ends in a ScalarSource configured with 100, run after a source of 1, returns 1.
- **Unknown names in `updated`'s overrides** are dropped silently, as pydantic does by default.
- **Nested and flat sequences** give the same chain only while flattening does not create a `(process-or-name, dict)` pair. `[[A], M]` chains the mapping M after A, but `[A, M]` is a single node A with M's entries as params (`WorkflowProofs.FlatteningCanMakeAPair`).
- **The round trip of `flatten` and `rebuild`** needs more than keys that do not contain the separator when the separator is longer than one character. With the separator `aa`, `{"x": {"ay": 1}}` and `{"xa": {"y": 1}}` both flatten to `{"xaaay": 1}`, which rebuilds to the first of them (`FlatteryProofs.OverlapFlattens`, `FlatteryProofs.OverlapRebuilds`). The round trip is proved under `Flattery.Clean`, which asks that:
  - every key at every level is non-empty;
  - in `key + sep` the first occurrence of `sep` is right after `key`. For a one-character separator this means the key does not contain it (`FlatteryProofs.SingleCharSplits`);
  - no sub-mapping is empty.
- **An empty separator** makes `rebuild` fail on every non-empty mapping (`FlatteryProofs.EmptySeparatorNeverRebuilds`). `_insert_key` never shortens its key, so it either:
  - meets a non-dict under `""` and raises `ValueError`; or
  - recurses until Python's recursion limit, modelled as `RecursionError`.

## Model

| member | source | states |
|---|---|---|
| Base.OverrideStr | src/rdmlibpy/base.py:13-16 | an override of a string field (`name`, `version`) must be a string, else validation fails; it replaces the current value, which stays when the field is not named |
| Base.Updated | src/rdmlibpy/base.py:13-16 | `updated(**config)` keeps the class and the set of declared fields; every field takes the value `config` names for it and keeps its own otherwise; `name`/`version` follow `config` when named; it fails exactly when `name` or `version` is given a non-string; the original is a value and is not changed |
| BaseProofs.UpdatedWithNothing | src/rdmlibpy/base.py:13-16 | updating with no overrides gives back an equal process |
| BaseProofs.UpdatedTwice | src/rdmlibpy/base.py:13-16 | two updates in a row equal one update with the merged overrides, the later ones winning |
| Base.ToParam | src/rdmlibpy/base.py:57-61 | a value that is already a param is kept; any other value becomes a Plain param holding it |
| Base.ValidatedParams | src/rdmlibpy/base.py:53-62 | node validation keeps every key, in order, and converts each value by ToParam |
| Base.ValidateNodeParams | src/rdmlibpy/base.py:55-62 | the loop that fills `result` returns exactly ValidatedParams of its input |
| Base.ValidatedParamsAppend | src/rdmlibpy/base.py:57-61 | validating one more entry appends its converted entry |
| Base.NewNode | src/rdmlibpy/base.py:48-62 | a node built with the defaults has parent None and no params; its runner and parent are the given ones and its params are the validated given ones |
| Base.GetParam | src/rdmlibpy/base.py:67-74 | with default None a missing key raises KeyError; with another default a missing key gives that default and makes no call; a present key gives the param's value |
| BaseProofs.ChainOf | src/rdmlibpy/base.py:28-30 | the nodes from the root to `n`: the first is parentless, the last is `n`, each is its successor's parent |
| BaseProofs.PipeSnoc | src/rdmlibpy/base.py:28-34 | piping through one more node runs that node on the previous result, after every earlier call |
| BaseProofs.RunIsChainRun | src/rdmlibpy/base.py:22-65 | running any node is running its chain front to back: the root with the caller's kwargs and no source, each later node on its predecessor's result with only its own params |
| BaseProofs.RootInvocation | src/rdmlibpy/base.py:35-38 | a root resolves its params, overlays the kwargs (the kwargs win), calls its runner with no source, and that call is its last |
| BaseProofs.ChildInvocation | src/rdmlibpy/base.py:28-34 | a node with a parent runs the parent with the same kwargs first, then resolves its own params, then calls its runner with the parent's result as source and only those params |
| BaseProofs.RunCallsEveryStep | src/rdmlibpy/base.py:28-38 | a successful run calls at least one runner per node of the chain, and its last call is the node's own runner |
| BaseProofs.ResolveRunsEachRunnable | src/rdmlibpy/base.py:76-100 | resolving params makes at least one call per Runnable param, whatever ran before: nothing is cached |
| BaseProofs.ResolvedParamsShape | src/rdmlibpy/base.py:76-93 | `get_params` gives every key of the node, in order, and a Plain param's stored value unchanged |
| BaseProofs.NoSharingBetweenRunnables | src/rdmlibpy/base.py:76-100 | two Runnable params bound to the same pipeline run it twice, the second time after the first run's calls |
| Registry.Register | src/rdmlibpy/common.py:38-39 | registering adds the instance's fullname to the catalog's keys and nothing else |
| Registry.GetRunner | src/rdmlibpy/workflow.py:105 | an unregistered or non-string name raises LookupError; a registered one gives the stored instance, or the stored instance's `updated(**config)` when overrides are given |
| Registry.RegisterThenGet | src/rdmlibpy/base.py:43-45 | a registered instance is found again under its fullname, and lookups of other names are unchanged |
| Common.RegisterCommon | src/rdmlibpy/common.py:11-39 | importing the module adds `scalar.source@v1` and `include.metadata.file@v1` to whatever the catalog held, each with its class's default instance, and keeps every other entry |
| Common.ScalarRun | src/rdmlibpy/common.py:16-20 | `ScalarSource.run`: the argument when it is not None, otherwise the configured `value`; the argument comes positionally from upstream or as the keyword `value`; any other keyword, or `value` given both ways, raises TypeError |
| CommonProofs.ScalarSourceKey | src/rdmlibpy/common.py:12-13 | the registry key is `scalar.source@v1`, found in any catalog the module was imported into; looking up `scalar.source@1` raises LookupError unless something else was registered under that name |
| CommonProofs.ScalarRunDirect | src/rdmlibpy/test_common.py:9-21 | `run(value=42)` is 42; `run()` is the configured value; with neither it is None |
| CommonProofs.ScalarSourcePassesUpstream | src/rdmlibpy/common.py:16-20 | a ScalarSource step without params returns its upstream result when that is not None, and its configured value when it is None |
| CommonProofs.BuildRunWithValue | src/rdmlibpy/workflow.py:86-113 | `{"run": name, "params": {"value": v}}` builds a parentless node of the registered runner with the single Plain param `value` |
| CommonProofs.RunRootWithValue | src/rdmlibpy/base.py:35-38 | a root ScalarSource node whose param `value` is not None returns it |
| CommonProofs.ScalarDescriptorRuns | src/rdmlibpy/workflow.py:21-22 | `run({"run": "scalar.source@v1", "params": {"value": 42}})` returns 42, whatever else the catalog holds |
| CommonProofs.MisspelledVersionRunsNothing | src/rdmlibpy/workflow.py:21-22 | with `@1` for `@v1`, and nothing registered under that name, the same descriptor raises LookupError and calls nothing |
| Workflows.AsArgs | src/rdmlibpy/workflow.py:49-53 | params that are already built are handed to the node as params, key for key |
| Workflows.CreateParamsLoop | src/rdmlibpy/workflow.py:72-83 | the loop that fills `params` returns what CreateParams specifies |
| Workflows.CreateSequenceLoop | src/rdmlibpy/workflow.py:115-128 | the deque loop returns what CreateSequence specifies |
| Workflows.ChainFromStep | src/rdmlibpy/workflow.py:126-127 | one step of the chain: the next element is built under the previous node, and a failure stops the chain |
| Workflows.CreateWorkflow | src/rdmlibpy/workflow.py:32-36 | `Workflow.create` builds at no parent: from the descriptor itself, or from the container a metadata node converts to; it fails exactly when that build fails, with the same error, and otherwise holds the node built |
| Workflows.RunDescriptor | src/rdmlibpy/workflow.py:21-30 | `run(d)` is `Workflow.create(d).run()` with no kwargs; a descriptor that does not build raises and calls nothing |
| WorkflowProofs.AsArgsValidated | src/rdmlibpy/base.py:57-61 | params that are already params pass node validation unchanged |
| WorkflowProofs.CreateInstanceOrName | src/rdmlibpy/workflow.py:43-47 | an instance builds a node of its own with the given parent and no params; a registered name builds the stored instance's node; an unregistered name raises LookupError |
| WorkflowProofs.CreatePair | src/rdmlibpy/workflow.py:48-60 | a two-element list or tuple of an instance or name and a dict is a single node, built the same either way: runner looked up first, then params built; it fails exactly when one of those fails |
| WorkflowProofs.CreateRejectsOtherShapes | src/rdmlibpy/workflow.py:65-70 | None, booleans, numbers, bytes and other objects raise ValueError |
| WorkflowProofs.StrippedKey | src/rdmlibpy/workflow.py:76-78 | a `$`-marked key loses exactly its first character; any other key is kept |
| WorkflowProofs.CreateParamsStep | src/rdmlibpy/workflow.py:75-82 | one entry: a marked key's value is built with no parent into a Runnable under the stripped key; any other value becomes a Plain under the same key |
| WorkflowProofs.EntryParams | src/rdmlibpy/workflow.py:75-82 | the params entries from `i` on stand for, one per entry, in order |
| WorkflowProofs.CreateParamsErrFrom | src/rdmlibpy/workflow.py:72-83 | from any entry on, whatever was built before, a marked value that does not build makes the whole build fail |
| WorkflowProofs.CreateParamsOkFrom | src/rdmlibpy/workflow.py:72-83 | from any entry on, whatever was built before, when every marked value builds the result is what was built updated with the entries' params, in order |
| WorkflowProofs.CreateParamsBuildsEachEntry | src/rdmlibpy/workflow.py:72-83 | `_create_params` fails exactly when a `$`-marked value does not build; otherwise it is `dict(...)` of the entries' params in order: a marked entry a Runnable holding the parentless node its value describes, under the key without `$`; any other a Plain holding the value |
| WorkflowProofs.CreateParamsNext | src/rdmlibpy/workflow.py:72-83 | when no two keys strip to the same name, one entry either fails to build or appends its param under a name not yet taken |
| WorkflowProofs.CreateParamsFrom | src/rdmlibpy/workflow.py:72-83 | when no two keys strip to the same name, from any entry on, when every marked value builds, the params are built entry by entry, in order, each the one its entry stands for |
| WorkflowProofs.CreateParamsOnePerEntry | src/rdmlibpy/workflow.py:72-83 | when no two keys strip to the same name, the built params are one per entry, position for position |
| WorkflowProofs.MarkedAndPlainClash | src/rdmlibpy/workflow.py:76-82 | when `$x` and `x` are both given, the later entry's param replaces the earlier one, at the earlier one's position |
| WorkflowProofs.MappingWithoutRun | src/rdmlibpy/workflow.py:96-102 | a mapping without `run` builds as its `__process__` entry with the same parent, or raises ValueError when that is missing too |
| WorkflowProofs.MappingWithRun | src/rdmlibpy/workflow.py:104-113 | with `run`: a non-mapping `config` raises TypeError; an unknown runner raises LookupError before params are built; non-mapping `params` raise TypeError; a built node has the given parent, the runner with the `config` overrides, and the params built from `params`, or none |
| WorkflowProofs.MappingIgnoresOtherKeys | src/rdmlibpy/workflow.py:89-113 | keys other than `run`, `config`, `params` and `__process__` play no part |
| WorkflowProofs.ChainFromIsFold | src/rdmlibpy/workflow.py:124-128 | the chain from any index on is the left fold "build under the previous node" over the remaining elements |
| WorkflowProofs.SequenceBuildsSteps | src/rdmlibpy/workflow.py:63-128 | a sequence that is not pair-shaped builds the same as list or tuple; an empty one raises ValueError; otherwise the first element goes under the incoming parent and each later one under the node before it |
| WorkflowProofs.ChainFoldAppend | src/rdmlibpy/workflow.py:124-128 | chaining `a + b` is chaining `a`, then `b` after its last node |
| WorkflowProofs.StepsAppend | src/rdmlibpy/workflow.py:124-128 | building `a + b` is building `a`, then chaining `b` after its last node |
| WorkflowProofs.NestedSequenceFlattens | src/rdmlibpy/workflow.py:63-128 | `xs + [ys] + zs` builds the same chain as `xs + ys + zs` when none of the lists is pair-shaped |
| WorkflowProofs.NestedExample | tests/test_workflow.py:187-231 | `[[A, B], C]` and `[A, B, C]` both build C under B under A |
| WorkflowProofs.FlatteningCanMakeAPair | src/rdmlibpy/workflow.py:48-64 | `[[A], M]` chains M's process after A, while `[A, M]` is the single node A with M's entry as a param |
| WorkflowProofs.RunSingleProcess | src/rdmlibpy/workflow.py:29-30 | `Workflow.run(**kw)` on a single instance is one call of its `run` with exactly those kwargs |
| WorkflowProofs.RunThreeStepPipeline | src/rdmlibpy/workflow.py:21-22 | `run([A, B, C])` calls A with no source, then B on A's result, then C on B's result, and returns C's result |
| Metadata.WrapContainer | src/rdmlibpy/metadata/metadata.py:43-52 | a mapping becomes a dict node and any other sequence a list node, with the given parent and container; anything else raises ValueError |
| Metadata.NewMetadata | src/rdmlibpy/metadata/metadata.py:185-190 | `Metadata(container)` is a parentless root over a mapping or sequence (strings and bytes included); anything else raises ValueError |
| Metadata.WrapChild | src/rdmlibpy/metadata/metadata.py:54-80 | a nested mapping becomes a dict child node and a list or tuple a list child node, with the current node as parent; strings, bytes and everything else are returned as they are |
| Metadata.PyIndex | src/rdmlibpy/metadata/metadata.py:86 | an int index is valid exactly in `-len .. len-1`; negatives count from the end |
| Metadata.Subscript | src/rdmlibpy/metadata/metadata.py:86-116 | `container[key]` on a mapping gives the key's value or raises KeyError; every failure is a KeyError, IndexError or TypeError |
| Metadata.TryGetItem | src/rdmlibpy/metadata/metadata.py:82-92 | a string key on a sequence and a key missing from a mapping are absent; a present key gives its value; the only error left is an out-of-range list index |
| Metadata.Hit | src/rdmlibpy/metadata/metadata.py:96-105 | what the walk accepts from a node: a value that is not None; a stored None counts as absent; errors pass through |
| Metadata.FirstInheritedItem | src/rdmlibpy/metadata/metadata.py:94-109 | the walk up the parent chain returns the first item the chain yields: the node's own, else the nearest dict ancestor's |
| Metadata.GetImpl | src/rdmlibpy/metadata/metadata.py:111-131 | with `inherit=False` it reads only the node's own container and wraps the result; with `merge=True` it raises NotImplementedError |
| Metadata.GetAttr | src/rdmlibpy/metadata/metadata.py:133-139 | `__name__` always raises AttributeError; every other name is an inherited lookup |
| Metadata.ContainerContains | src/rdmlibpy/metadata/metadata.py:150-151 | `in` on a mapping tests its keys, and on a list or tuple whether some element is `==` to the item |
| Metadata.Iterate | src/rdmlibpy/metadata/metadata.py:165-167 | iterating a list or tuple visits its elements in order |
| Metadata.ListItems | src/rdmlibpy/metadata/metadata.py:180-182 | `items()` pairs each position with its wrapped element, for every element |
| MetadataProofs.FoundOnAncestors | src/rdmlibpy/metadata/metadata.py:100-109 | a hit above a node comes from some ancestor, and every nearer one offers nothing |
| MetadataProofs.FoundFromCandidate | src/rdmlibpy/metadata/metadata.py:100-109 | conversely, the first ancestor that offers a value is the one the walk returns |
| MetadataProofs.AbsentOnAncestors | src/rdmlibpy/metadata/metadata.py:100-109 | the walk above a node finds nothing exactly when no dict ancestor offers the key |
| MetadataProofs.AbsentFromCandidates | src/rdmlibpy/metadata/metadata.py:100-109 | when no ancestor offers the key, the walk finds nothing |
| MetadataProofs.CandidateOfAbsent | src/rdmlibpy/metadata/metadata.py:100-109 | when the walk finds nothing, no ancestor offers the key |
| MetadataProofs.AncestorErrorsAreIndexErrors | src/rdmlibpy/metadata/metadata.py:82-109 | the only error the walk above a node can raise is IndexError |
| MetadataProofs.InheritedItemIsNearest | src/rdmlibpy/metadata/metadata.py:94-109 | an inherited lookup yields `v` exactly when some node of the chain offers `v` and every node below it offers nothing: the node itself first, then dict ancestors nearest first; list ancestors are skipped and a stored None counts as absent |
| MetadataProofs.MissingEverywhereRaises | src/rdmlibpy/metadata/metadata.py:117-145 | `node[key]` raises AttributeError exactly when no node of the chain offers the key |
| MetadataProofs.OwnValueShadows | src/rdmlibpy/metadata/metadata.py:96-131 | a value of the node's own shadows every ancestor, and it is returned wrapped |
| MetadataProofs.StoredNoneFallsThrough | src/rdmlibpy/metadata/metadata.py:96 | a stored None does not stop the walk: the ancestors are asked |
| MetadataProofs.ListAttributeComesFromAncestors | src/rdmlibpy/metadata/metadata.py:83-84 | attribute access on a list node always defers to its ancestors |
| MetadataProofs.ListItemsAgreeWithIndexing | src/rdmlibpy/metadata/metadata.py:144-182 | for an element that is not None, `items()` yields what indexing yields, at its positive and its negative index |
| MetadataProofs.IndexOutOfRangeRaises | src/rdmlibpy/metadata/metadata.py:86 | an index outside `-len .. len-1` raises IndexError, whatever the ancestors hold |
| MetadataProofs.PyEqReflexive | src/rdmlibpy/metadata/metadata.py:150-151 | every value is `==` to itself |
| MetadataProofs.ContainsOwnElement | src/rdmlibpy/metadata/metadata.py:150-151 | a list or tuple contains each of its elements |
| MetadataProofs.DictEqualityIgnoresOrder | src/rdmlibpy/metadata/metadata.py:150-151 | `{'a': 1, 'b': 2} == {'b': 2, 'a': 1}` |
| MetadataProofs.DictEqualityComparesValues | src/rdmlibpy/metadata/metadata.py:150-151 | `{'a': 1} != {'a': 2}` |
| MetadataProofs.ContainsComparesAsPython | src/rdmlibpy/metadata/metadata.py:150-151 | a list holding `{'a': 1, 'b': 2}` contains `{'b': 2, 'a': 1}` but not `{'a': 2}`, and `[[]]` does not contain `()` |
| MetadataProofs.AllContainedKeys | src/rdmlibpy/metadata/metadata.py:167 | every string key is tested against the mapping, and the result is their conjunction |
| MetadataProofs.DefinesOwnKeys | src/rdmlibpy/metadata/metadata.py:164-167 | `__defines__` is true exactly when every key is in the node's own mapping, never an ancestor's; a single string counts as a one-key list |
| MetadataProofs.NestedLookupExample | src/rdmlibpy/metadata/metadata.py:111-139 | a nested mapping reached by attribute access sees its parent's keys and keeps its own |
| MetadataProofs.NestedLookupMisses | src/rdmlibpy/metadata/metadata.py:111-139 | a key no level holds raises AttributeError; the non-inherited lookup does not look up; `__name__` raises |
| Flattery.Find | src/rdmlibpy/metadata/flattery.py:20 | `key.find(sep)`: the first position where `sep` occurs, or none when it does not occur |
| Flattery.FlattenItems | src/rdmlibpy/metadata/flattery.py:5-12 | the collected items never hold a mapping |
| Flattery.FlattenDict | src/rdmlibpy/metadata/flattery.py:5-13 | `_flatten_dict` returns a dict (no repeated key) without mapping values |
| Flattery.Rebuild | src/rdmlibpy/metadata/flattery.py:35-39 | the loop over the items returns what the fold of `_insert_key` specifies, and stops at the first error |
| Flattery.EmptySeparatorError | src/rdmlibpy/metadata/flattery.py:20-33 | with an empty separator the insertion ends in a ValueError for a non-dict level `""`, or in endless recursion |
| Flattery.Under | src/rdmlibpy/metadata/flattery.py:8 | every key gets the same prefix, and values and order are kept |
| FlatteryProofs.SplitsAtShape | src/rdmlibpy/metadata/flattery.py:20 | a non-empty key that splits off cleanly implies a non-empty separator that does not occur in the key |
| FlatteryProofs.FindAfterSplit | src/rdmlibpy/metadata/flattery.py:20-33 | for a cleanly split key `k`, `k + sep + r` splits at `k`: the level is `k` and the rest is `r` |
| FlatteryProofs.SingleCharSplits | src/rdmlibpy/metadata/flattery.py:20 | for a one-character separator, splitting off cleanly means not containing it |
| FlatteryProofs.UnderIndexOf | src/rdmlibpy/metadata/flattery.py:8 | prefixing keys keeps where each key is found |
| FlatteryProofs.UnderSet | src/rdmlibpy/metadata/flattery.py:8-13 | prefixing commutes with assigning a key |
| FlatteryProofs.UnderUpdate | src/rdmlibpy/metadata/flattery.py:13 | prefixing commutes with `update` |
| FlatteryProofs.UnderFromItems | src/rdmlibpy/metadata/flattery.py:13 | prefixing commutes with `dict(items)` |
| FlatteryProofs.UnderUnder | src/rdmlibpy/metadata/flattery.py:8 | two prefixes in a row are their concatenation |
| FlatteryProofs.UnderAppend | src/rdmlibpy/metadata/flattery.py:10-12 | prefixing distributes over concatenated items |
| FlatteryProofs.UnderDistinct | src/rdmlibpy/metadata/flattery.py:13 | prefixing keeps keys distinct |
| FlatteryProofs.NestedUnder | src/rdmlibpy/metadata/flattery.py:8-10 | one nested entry flattened below a parent key is its top-level flattening with the parent and the separator in front |
| FlatteryProofs.FlattenItemsUnder | src/rdmlibpy/metadata/flattery.py:5-12 | on a clean mapping, the items under a non-empty parent key are the top-level items with `parent + sep` in front |
| FlatteryProofs.FlattenDictUnder | src/rdmlibpy/metadata/flattery.py:5-13 | the same for `_flatten_dict` |
| FlatteryProofs.FlattenNonEmpty | src/rdmlibpy/metadata/flattery.py:9-12 | a clean non-empty mapping flattens to at least one item |
| FlatteryProofs.EntryItems | src/rdmlibpy/metadata/flattery.py:8-12 | the items one entry of a clean mapping contributes have distinct keys, and each has that entry's key as its first level |
| FlatteryProofs.FlattenItemsDistinct | src/rdmlibpy/metadata/flattery.py:5-12 | on a clean mapping the collected items have distinct keys, each starting at a key of the remaining entries |
| FlatteryProofs.FlattenIsItems | src/rdmlibpy/metadata/flattery.py:13 | on a clean mapping `dict(items)` changes nothing: the flattening is the item list itself |
| FlatteryProofs.RebuildFromAppend | src/rdmlibpy/metadata/flattery.py:36-37 | rebuilding `a + b` is rebuilding `a`, then inserting `b` into the result |
| FlatteryProofs.InsertUnder | src/rdmlibpy/metadata/flattery.py:26-33 | inserting `k + sep + r` inserts `r` into the dict under `k`, which is created when missing |
| FlatteryProofs.RebuildUnder | src/rdmlibpy/metadata/flattery.py:26-37 | inserting items that all start with `k + sep` rebuilds their rests into the dict under `k` |
| FlatteryProofs.EntryRebuilds | src/rdmlibpy/metadata/flattery.py:8-33 | the items of one clean entry rebuild to that entry appended to the result |
| FlatteryProofs.RoundTripFrom | src/rdmlibpy/metadata/flattery.py:4-39 | the items of a clean mapping from entry `i` on rebuild to exactly those entries, appended in order |
| FlatteryProofs.RoundTripValue | src/rdmlibpy/metadata/flattery.py:4-39 | a clean nested mapping rebuilds from its flattening |
| FlatteryProofs.RoundTrip | src/rdmlibpy/metadata/flattery.py:4-39 | `rebuild(flatten(m, sep), sep) == m` for every clean mapping `m` |
| FlatteryProofs.InsertKeyFinds | src/rdmlibpy/metadata/flattery.py:19-33 | after a successful insertion the dotted key reads back the inserted value |
| FlatteryProofs.InsertKeyStep | src/rdmlibpy/metadata/flattery.py:19-33 | a successful insertion of a leaf key assigned a key that was absent; of a nested key, it inserted the rest below a level that is a dict or missing |
| FlatteryProofs.LookupStep | src/rdmlibpy/metadata/flattery.py:20-28 | reading a dotted key: a leaf key reads its entry, a nested key reads its rest inside its level's dict |
| FlatteryProofs.LookupSetOther | src/rdmlibpy/metadata/flattery.py:25-33 | assigning one level leaves what keys with another first level read |
| FlatteryProofs.LookupSetBelow | src/rdmlibpy/metadata/flattery.py:32-33 | replacing a level's dict changes what keys below that level read to what the new dict gives |
| FlatteryProofs.LookupBelowLevel | src/rdmlibpy/metadata/flattery.py:28-33 | keys below a level read from the dict under that level |
| FlatteryProofs.SameLevelSameRest | src/rdmlibpy/metadata/flattery.py:20-28 | two keys with the same level and the same rest are equal |
| FlatteryProofs.OnlyAddsBelow | src/rdmlibpy/metadata/flattery.py:28-33 | a value found after inserting below a level was found before, or is the inserted one |
| FlatteryProofs.InsertKeyPreserves | src/rdmlibpy/metadata/flattery.py:19-33 | a successful insertion leaves every non-dict value that a key read before in place |
| FlatteryProofs.InsertKeyOnlyAdds | src/rdmlibpy/metadata/flattery.py:19-33 | after a successful insertion of a non-dict value, every non-dict value a key reads was read there before, unless the key is the inserted one |
| FlatteryProofs.RebuildFromPreserves | src/rdmlibpy/metadata/flattery.py:35-39 | a successful rebuild keeps every non-dict value read from the starting dict |
| FlatteryProofs.RebuildFromFinds | src/rdmlibpy/metadata/flattery.py:35-39 | after a successful rebuild every inserted non-dict item reads back at its dotted key |
| FlatteryProofs.RebuildFromOnly | src/rdmlibpy/metadata/flattery.py:35-39 | after a successful rebuild every value read was in the starting dict or in the items |
| FlatteryProofs.RebuiltPlacesEveryValue | src/rdmlibpy/metadata/flattery.py:18-39 | a successful `rebuild` places every non-dict value under the path its dotted key names |
| FlatteryProofs.RebuiltPlacesNothingElse | src/rdmlibpy/metadata/flattery.py:18-39 | a successful `rebuild` of non-dict values holds nothing else: every value it holds comes from an item |
| FlatteryProofs.ConflictingKeysFail | src/rdmlibpy/metadata/flattery.py:23-30 | items that make one key both a value and a level make `rebuild` raise |
| FlatteryProofs.FlattenedEntriesAreLeaves | src/rdmlibpy/metadata/flattery.py:4-15 | on a clean mapping, `(key, v)` is in the flattening exactly when `v` is not a mapping and lies at the path `key` names |
| FlatteryProofs.FlattenItemsSuffix | src/rdmlibpy/metadata/flattery.py:7 | the items from an entry on depend only on the entries from there on |
| FlatteryProofs.EmptySubmapSkipped | src/rdmlibpy/metadata/flattery.py:9-10 | an empty nested mapping contributes no items |
| FlatteryProofs.EmptySubmapVanishes | src/rdmlibpy/metadata/flattery.py:9-10 | `flatten` with an empty nested mapping removed gives the same result |
| FlatteryProofs.EmptySeparatorNeverRebuilds | src/rdmlibpy/metadata/flattery.py:20-33 | with an empty separator `rebuild` succeeds only on the empty mapping; on any other it recurses without end |
| FlatteryProofs.CleanCons | src/rdmlibpy/metadata/flattery.py:4-15 | a clean mapping with one more clean entry in front is clean |
| FlatteryProofs.LeafIsClean | src/rdmlibpy/metadata/flattery.py:4-15 | a single non-mapping entry with a clean key is clean |
| FlatteryProofs.InnerCIsClean | tests/metadata/test_flattery.py:8 | the innermost test mapping is clean for a one-character separator outside its keys |
| FlatteryProofs.InnerAIsClean | tests/metadata/test_flattery.py:8 | so is the middle one |
| FlatteryProofs.NestedIsClean | tests/metadata/test_flattery.py:8 | so is the whole test mapping |
| FlatteryProofs.FlattenInnerC | tests/metadata/test_flattery.py:8-12 | the innermost test mapping flattens under `c` to `c<sep>d`, `c<sep>e` |
| FlatteryProofs.FlattenInnerATop | tests/metadata/test_flattery.py:8-12 | the middle test mapping flattens to `b`, `c<sep>d`, `c<sep>e` |
| FlatteryProofs.FlattenInnerA | tests/metadata/test_flattery.py:8-12 | the middle test mapping flattens under `a` to the first three flat keys |
| FlatteryProofs.FlattenNested | tests/metadata/test_flattery.py:7-12 | for any one-character separator outside the test keys, the test mapping flattens to the flat form |
| FlatteryProofs.FlattenAndRebuildAny | tests/metadata/test_flattery.py:7-42 | for any one-character separator outside the test keys, the test mapping flattens to the flat form and the flat form rebuilds to it |
| FlatteryProofs.FlattenAndRebuildDotted | tests/metadata/test_flattery.py:7-42 | the test cases with `.`: the nested example flattens to its dotted form and rebuilds from it |
| FlatteryProofs.FlattenAndRebuildColon | tests/metadata/test_flattery.py:7-42 | the same with `:` |
| FlatteryProofs.FindIs | src/rdmlibpy/metadata/flattery.py:20 | `find` gives the first position where the separator occurs |
| FlatteryProofs.ExampleFinds | src/rdmlibpy/metadata/flattery.py:20 | where the example keys split |
| FlatteryProofs.CollisionExample | src/rdmlibpy/metadata/flattery.py:10-13 | `{"a": {"b": 1}, "a.b": 2}` flattens to `{"a.b": 2}`: a repeated key keeps its first position and its last value |
| FlatteryProofs.CollisionRebuilds | src/rdmlibpy/metadata/flattery.py:18-39 | `{"a.b": 2}` rebuilds to `{"a": {"b": 2}}` |
| FlatteryProofs.OverlapFlattens | src/rdmlibpy/metadata/flattery.py:8 | with separator `aa`, `{"xa": {"y": 1}}` and `{"x": {"ay": 1}}` both flatten to `{"xaaay": 1}` |
| FlatteryProofs.OverlapRebuilds | src/rdmlibpy/metadata/flattery.py:20-33 | `{"xaaay": 1}` rebuilds to `{"x": {"ay": 1}}`, and `xa` does not split off cleanly |
| FlatteryProofs.ConflictExamples | src/rdmlibpy/metadata/flattery.py:23-30 | `{"a": 1, "a.b": 2}` raises "must be a dictionary" for `a`; `{"a.b": 2, "a": 1}` raises "already exists" for `a` |
| Dicts.IndexOf | src/rdmlibpy/metadata/flattery.py:23 | the first position of a key, or none exactly when the key is absent |
| Dicts.Set | src/rdmlibpy/metadata/flattery.py:25 | `d[k] = v`: a present key keeps its position, a new key is appended, every other key keeps its value, and the keys stay distinct |
| Dicts.FromItems | src/rdmlibpy/metadata/flattery.py:13 | `dict(items)` has distinct keys |
| Dicts.UpdateDistinctAppends | src/rdmlibpy/base.py:37 | updating with distinct new keys appends them |
| Dicts.FromItemsOfDistinct | src/rdmlibpy/metadata/flattery.py:13 | `dict(items)` is the items themselves when no key repeats |
| Dicts.UpdateHasKey | src/rdmlibpy/base.py:37 | after `d.update(e)` a key is present iff it was in `d` or `e`, and holds `e`'s value when `e` has it |
| Dicts.SetTwice | src/rdmlibpy/metadata/flattery.py:13 | assigning a key twice keeps only the second value |
| Dicts.SetSame | src/rdmlibpy/metadata/flattery.py:25 | assigning a key its own value changes nothing |
| Dicts.SetEntryFrom | src/rdmlibpy/metadata/flattery.py:25 | every entry after an assignment was there before or is the new one |
| Dicts.UpdateEntryFrom | src/rdmlibpy/metadata/flattery.py:13 | every entry after `update` comes from one of the two dicts |
| Dicts.UpdateNeverShrinks | src/rdmlibpy/metadata/flattery.py:13 | `update` never removes a key, so the dict never gets shorter |

## Left out

- `IncludeMetadataFile.run` reads a YAML file through OmegaConf. It is file I/O: its behaviour is the environment's part of `exec`, and only its registration is modelled.
- `Metadata.to_container` is a parameter of `Workflows.CreateWorkflow`. `Metadata.create`, `load_yaml`, `to_yaml` and `__repr__` are OmegaConf I/O and are not modelled.
- The registry module is not part of this model. Its own error types are not invented: a failed lookup is a single `LookupError`.
- `updated` covers only the coercion-free part of pydantic validation: a non-string `name` or `version` is refused, and other fields take the given value as it is. Type coercion and the validation of other fields are not modelled.
- A metadata node is recognised as a descriptor only at the top level of `Workflow.create`. A metadata node nested inside a native descriptor, or given as a `$` param value, is not converted; a dict or list node there would be matched as a mapping or sequence by the source.
- `MetadataNode.__len__`, `__iter__` and `_get_child_node_impl` are not part of this model: they are not used by the lookup. Attribute names that Python resolves on the class before `__getattr__` (such as `container`) are not modelled.
- Keys are strings, plus ints for lists. Non-string dict keys, and Python's equality of `True` with `1`, are not modelled.
- Values.PyEq: process instances and other objects compare structurally; pydantic's own `__eq__` and user-defined `__eq__` methods are not modelled.
- Flattery.InsertKey: `_insert_key` updates the nested result dict in place. The model returns the new dict, so aliasing is not captured. A dict value taken from the input mapping is shared with the result in the source, and a later insertion below it changes the input too.
- Flattery.EmptySeparatorError: Python's recursion limit is not modelled; endless recursion is reported as `RecursionError`.
- Flattery.FlattenDict: only `VDict` counts as a mapping, so the OmegaConf mapping case of the test suite is covered only through conversion to plain data.
- Base.Run: a process's own `run` is a parameter, so nothing is proved about what a particular process computes, except `ScalarSource`.

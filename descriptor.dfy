/** Transform descriptors: an input path and the ordered operations to
    apply to it. Descriptors are values; every filter builds a new one. */
module Descriptor {

  /** A JSON-serialisable argument of an operation (floating-point
      numbers and arrays are not modelled). */
  datatype Arg =
    | Str(s: string)
    | Num(n: int)
    | Bool(b: bool)
    | Null
    | Obj(members: seq<Member>)

  datatype Member = Member(key: string, value: Arg)

  /** One recorded call of a transform method, e.g. `resize(200, 200)`. */
  datatype Operation = Operation(name: string, args: seq<Arg>)

  datatype Config = Config(inputPath: string, operations: seq<Operation>)

  /** What a template passes to a filter or to `getUrl`: a bare input path
      or a descriptor built by an earlier filter. */
  datatype Input = Path(path: string) | Descriptor(config: Config)

  /** The `sharp` filter: a descriptor with no operations yet. */
  function NewDescriptor(inputPath: string): (c: Config)
    ensures c.inputPath == inputPath && c.operations == []
  {
    Config(inputPath, [])
  }

  /** `ensureSharpConfig`: a bare path becomes a fresh descriptor, a
      descriptor is taken as it is. */
  function EnsureConfig(input: Input): (c: Config)
    ensures input.Path? ==> c.inputPath == input.path && c.operations == []
    ensures input.Descriptor? ==> c == input.config
  {
    match input
    case Path(p) => NewDescriptor(p)
    case Descriptor(c) => c
  }

  /** The filter registered for transform method `name`, applied to
      `input` with arguments `args`: the normalised input with one more
      operation at the end. */
  function AddOperation(input: Input, name: string, args: seq<Arg>): (c: Config)
    ensures c.inputPath == EnsureConfig(input).inputPath
    ensures |c.operations| == |EnsureConfig(input).operations| + 1
    ensures c.operations[..|c.operations| - 1] == EnsureConfig(input).operations
    ensures c.operations[|c.operations| - 1] == Operation(name, args)
  {
    var base := EnsureConfig(input);
    Config(base.inputPath, base.operations + [Operation(name, args)])
  }

  /** A template's filter chain `input | m1(a1) | m2(a2) | ...`. */
  function Chain(input: Input, steps: seq<Operation>): Config
    decreases |steps|
  {
    if steps == [] then EnsureConfig(input)
    else
      var last := steps[|steps| - 1];
      AddOperation(Descriptor(Chain(input, steps[..|steps| - 1])), last.name, last.args)
  }

  /** A filter chain records exactly the operations of the chain, in the
      order they were written, after those already in the input. */
  lemma {:induction false} ChainRecordsInOrder(input: Input, steps: seq<Operation>)
    ensures Chain(input, steps).inputPath == EnsureConfig(input).inputPath
    ensures Chain(input, steps).operations == EnsureConfig(input).operations + steps
  {
    if steps != [] {
      var prefix := steps[..|steps| - 1];
      ChainRecordsInOrder(input, prefix);
      assert prefix + [steps[|steps| - 1]] == steps;
    }
  }
}

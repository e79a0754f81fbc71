/**
 * The structural equality checker of the ORT-format round-trip test: two
 * inference sessions, one built from a model description and one reloaded
 * from its serialized form, are compared initializer by initializer, graph
 * input by graph input and node output by node output
 * (onnxruntime/test/framework/ort_model_only_test.cc).
 *
 * Every comparison returns an Outcome: Pass, or Fail with the first mismatch in
 * the order the test performs its checks.
 */
module OrtModelCompare {
  import opened Results
  import opened TensorShapes

  type Byte = b: int | 0 <= b < 256

  // ---------------------------------------------------------------------------
  // Type descriptors

  /** One dimension of a tensor shape. Its protobuf oneof holds a concrete
      value, a symbolic parameter, or nothing at all. */
  datatype Dim = DimValue(value: int) | DimParam(param: string) | DimUnset {
    predicate HasValue() { DimValue? }
    /** What the value accessor returns: 0 when no value is set. */
    function ValueOrDefault(): int { if DimValue? then value else 0 }
    predicate HasParam() { DimParam? }
    /** What the parameter accessor returns: "" when no parameter is set. */
    function ParamOrDefault(): string { if DimParam? then param else "" }
  }

  /** A type descriptor: a denotation string and exactly one of the variants
      of the protobuf oneof (or none of them, ValueUnset). A nested type or a
      shape that is absent is read through its accessor as the default
      instance, so it appears here as ValueUnset or as an empty shape. */
  datatype TypeDesc =
    | TensorType(denotation: string, elemType: int, shape: seq<Dim>)
    | SequenceType(denotation: string, elem: TypeDesc)
    | MapType(denotation: string, keyType: int, valueType: TypeDesc)
    | SparseTensorType(denotation: string, elemType: int, shape: seq<Dim>)
    | OpaqueType(denotation: string, domain: string, name: string)
    | ValueUnset(denotation: string)

  /** The variants the comparison accepts, at every level of nesting. */
  predicate Supported(t: TypeDesc) {
    match t
    case TensorType(_, _, _) => true
    case SequenceType(_, elem) => Supported(elem)
    case MapType(_, _, valueType) => Supported(valueType)
    case _ => false
  }

  // ---------------------------------------------------------------------------
  // Outcomes

  /** What a failed comparison reports; the In... cases locate a mismatch
      found inside a nested comparison. */
  datatype Mismatch =
    // type descriptors
    | DenotationMismatch
    | VariantMismatch
    | ElemTypeMismatch
    | RankMismatch
    | DimMismatch(dimIndex: nat)
    | KeyTypeMismatch
    | Unsupported
    | InSequenceElem(inner: Mismatch)
    | InMapValue(inner: Mismatch)
    // value infos
    | NameMismatch
    | DocStringMismatch
    | InType(inner: Mismatch)
    // tensors
    | ShapeMismatch
    | StringMismatch(elementIndex: nat)
    | RawDataMismatch
    // sessions
    | InitializerCountMismatch
    | InitializerMissing(initializer: string)
    | InInitializer(initializer: string, inner: Mismatch)
    | InputMissing(input: string)
    | InInput(input: string, inner: Mismatch)
    | NodeMissing(nodeIndex: nat)
    | OutputCountMismatch(nodeIndex: nat)
    | OutputNameMismatch(nodeIndex: nat, slot: nat)
    | InOutput(nodeIndex: nat, slot: nat, inner: Mismatch)
    | OutputUnexpectedlyPresent(nodeIndex: nat, slot: nat)

  datatype Outcome = Pass | Fail(mismatch: Mismatch)

  // ---------------------------------------------------------------------------
  // CompareTypeProtos

  /** The four per-dimension checks of the comparison. */
  predicate DimsAgree(l: Dim, r: Dim) {
    && l.HasValue() == r.HasValue()
    && l.ValueOrDefault() == r.ValueOrDefault()
    && l.HasParam() == r.HasParam()
    && l.ParamOrDefault() == r.ParamOrDefault()
  }

  /** The four checks distinguish every pair of different dimensions. */
  lemma DimsAgreeIsEquality(l: Dim, r: Dim)
    ensures DimsAgree(l, r) <==> l == r
  {
  }

  /** The scan over the dimensions of two shapes of equal rank, from index
      `from` on: the first index whose dimensions disagree, if any. */
  function FirstDimMismatch(l: seq<Dim>, r: seq<Dim>, from: nat): (res: Option<nat>)
    requires |l| == |r| && from <= |l|
    ensures res.Some? ==> from <= res.value < |l| && !DimsAgree(l[res.value], r[res.value])
    ensures forall k :: from <= k < (if res.Some? then res.value else |l|) ==> DimsAgree(l[k], r[k])
    decreases |l| - from
  {
    if from == |l| then None
    else if !DimsAgree(l[from], r[from]) then Some(from)
    else FirstDimMismatch(l, r, from + 1)
  }

  /** Two shapes whose dimensions agree pairwise are the same shape. */
  lemma AgreeingShapesAreEqual(l: seq<Dim>, r: seq<Dim>)
    requires |l| == |r|
    requires forall k :: 0 <= k < |l| ==> DimsAgree(l[k], r[k])
    ensures l == r
  {
    forall k | 0 <= k < |l| ensures l[k] == r[k] {
      DimsAgreeIsEquality(l[k], r[k]);
    }
  }

  /** The recursive comparison of two type descriptors. A pass means both
      sides are the same descriptor, built only from supported variants. */
  function CompareTypes(l: TypeDesc, r: TypeDesc): (res: Outcome)
    ensures res.Pass? ==> Supported(l) && l == r
  {
    if l.denotation != r.denotation then Fail(DenotationMismatch)
    else if l.TensorType? != r.TensorType? || l.SequenceType? != r.SequenceType?
         || l.MapType? != r.MapType? then Fail(VariantMismatch)
    else match l
      case TensorType(_, elemType, shape) =>
        if elemType != r.elemType then Fail(ElemTypeMismatch)
        else if |shape| != |r.shape| then Fail(RankMismatch)
        else (match FirstDimMismatch(shape, r.shape, 0)
              case Some(i) => Fail(DimMismatch(i))
              case None => AgreeingShapesAreEqual(shape, r.shape); Pass)
      case SequenceType(_, elem) =>
        (match CompareTypes(elem, r.elem)
         case Pass => Pass
         case Fail(m) => Fail(InSequenceElem(m)))
      case MapType(_, keyType, valueType) =>
        if keyType != r.keyType then Fail(KeyTypeMismatch)
        else (match CompareTypes(valueType, r.valueType)
              case Pass => Pass
              case Fail(m) => Fail(InMapValue(m)))
      case _ => Fail(Unsupported)
  }

  /** A supported descriptor compares equal to itself. */
  lemma {:induction false} CompareTypesComplete(t: TypeDesc)
    requires Supported(t)
    ensures CompareTypes(t, t) == Pass
  {
    match t
    case TensorType(_, _, _) =>
    case SequenceType(_, elem) =>
      CompareTypesComplete(elem);
    case MapType(_, _, valueType) =>
      CompareTypesComplete(valueType);
  }

  /** The comparison is equality restricted to supported descriptors: it
      fails whenever the denotations or the populated variants differ, it
      fails on a sparse-tensor, opaque or unset variant at any depth, even
      against an identical copy, and it is symmetric. */
  lemma CompareTypesIsEquality(l: TypeDesc, r: TypeDesc)
    ensures CompareTypes(l, r).Pass? <==> Supported(l) && l == r
    ensures CompareTypes(l, l).Pass? <==> Supported(l)
    ensures CompareTypes(l, r).Pass? <==> CompareTypes(r, l).Pass?
    ensures l.denotation != r.denotation ==> CompareTypes(l, r).Fail?
    ensures (l.TensorType? != r.TensorType? || l.SequenceType? != r.SequenceType?
             || l.MapType? != r.MapType?) ==> CompareTypes(l, r).Fail?
    ensures !(l.TensorType? || l.SequenceType? || l.MapType?) ==> CompareTypes(l, r).Fail?
  {
    if Supported(l) {
      CompareTypesComplete(l);
    }
  }

  /** Two tensor descriptors compare equal exactly when their element types,
      their ranks and every pair of dimensions (on has-value, value,
      has-param and param) agree. */
  lemma TensorTypesCompare(denotation: string, e1: int, s1: seq<Dim>, e2: int, s2: seq<Dim>)
    ensures CompareTypes(TensorType(denotation, e1, s1), TensorType(denotation, e2, s2)).Pass?
        <==> e1 == e2 && |s1| == |s2| && forall k :: 0 <= k < |s1| ==> DimsAgree(s1[k], s2[k])
  {
    CompareTypesIsEquality(TensorType(denotation, e1, s1), TensorType(denotation, e2, s2));
    if e1 == e2 && |s1| == |s2| && forall k :: 0 <= k < |s1| ==> DimsAgree(s1[k], s2[k]) {
      AgreeingShapesAreEqual(s1, s2);
    }
  }

  /** One level of nesting around a type: the element of a sequence or the
      value of a map. */
  datatype Layer = SequenceOf(seqDenotation: string) | MapOf(mapDenotation: string, mapKeyType: int)

  /** `t` placed inside `layers`, the outermost layer first. */
  function Plug(layers: seq<Layer>, t: TypeDesc): TypeDesc
    decreases |layers|
  {
    if |layers| == 0 then t
    else match layers[0]
      case SequenceOf(d) => SequenceType(d, Plug(layers[1..], t))
      case MapOf(d, k) => MapType(d, k, Plug(layers[1..], t))
  }

  /** A mismatch found at the bottom of `layers`, as the comparison reports it
      from the top. */
  function Locate(layers: seq<Layer>, m: Mismatch): Mismatch
    decreases |layers|
  {
    if |layers| == 0 then m
    else match layers[0]
      case SequenceOf(_) => InSequenceElem(Locate(layers[1..], m))
      case MapOf(_, _) => InMapValue(Locate(layers[1..], m))
  }

  /** The recursion follows any finite nesting of sequences and maps: two
      descriptors that differ only below `layers` compare exactly as their
      innermost parts do, and a mismatch there is reported with its path. */
  lemma {:induction false} NestedMismatchIsLocated(layers: seq<Layer>, a: TypeDesc, b: TypeDesc)
    ensures CompareTypes(Plug(layers, a), Plug(layers, b))
         == match CompareTypes(a, b)
            case Pass => Pass
            case Fail(m) => Fail(Locate(layers, m))
    decreases |layers|
  {
    if |layers| > 0 {
      NestedMismatchIsLocated(layers[1..], a, b);
    }
  }

  // ---------------------------------------------------------------------------
  // CompareValueInfos

  /** The name, doc string and type of a graph value. */
  datatype ValueInfo = ValueInfo(name: string, docString: string, typeDesc: TypeDesc)

  /** Name, then doc string, then type. */
  function CompareValueInfos(l: ValueInfo, r: ValueInfo): (res: Outcome)
    ensures res.Pass? ==> Supported(l.typeDesc) && l == r
  {
    if l.name != r.name then Fail(NameMismatch)
    else if l.docString != r.docString then Fail(DocStringMismatch)
    else match CompareTypes(l.typeDesc, r.typeDesc)
      case Pass => Pass
      case Fail(m) => Fail(InType(m))
  }

  /** Value infos compare equal exactly when name, doc string and type agree
      and the type is supported. */
  lemma ValueInfosMatchIsEquality(l: ValueInfo, r: ValueInfo)
    ensures CompareValueInfos(l, r).Pass? <==>
            l.name == r.name && l.docString == r.docString && CompareTypes(l.typeDesc, r.typeDesc).Pass?
    ensures CompareValueInfos(l, r).Pass? <==> Supported(l.typeDesc) && l == r
  {
    CompareTypesIsEquality(l.typeDesc, r.typeDesc);
  }

  // ---------------------------------------------------------------------------
  // CompareTensors

  /** The element-type code of strings in the ONNX TensorProto.DataType
      enumeration. */
  const StringElemType: int := 8

  /** Bytes per element of the fixed-size ONNX element types (0 for strings
      and unknown codes). */
  function ElemWidth(elemType: int): (r: nat)
    ensures r > 0 <==> 1 <= elemType <= 16 && elemType != StringElemType
    ensures r == 0 || r == 1 || r == 2 || r == 4 || r == 8 || r == 16
  {
    match elemType
    case 1 => 4   // FLOAT
    case 2 => 1   // UINT8
    case 3 => 1   // INT8
    case 4 => 2   // UINT16
    case 5 => 2   // INT16
    case 6 => 4   // INT32
    case 7 => 8   // INT64
    case 9 => 1   // BOOL
    case 10 => 2  // FLOAT16
    case 11 => 8  // DOUBLE
    case 12 => 4  // UINT32
    case 13 => 8  // UINT64
    case 14 => 8  // COMPLEX64
    case 15 => 16 // COMPLEX128
    case 16 => 2  // BFLOAT16
    case _ => 0
  }

  /** A tensor value: its shape, element type, and either its string
      elements or its raw bytes. */
  datatype Tensor = Tensor(dims: seq<nat>, elemType: int, strings: seq<string>, bytes: seq<Byte>)

  predicate IsStringTensor(t: Tensor) {
    t.elemType == StringElemType
  }

  /** The byte length of a fixed-size tensor's data: a whole number of
      elements, as many as the shape holds. */
  function SizeInBytes(t: Tensor): (r: nat)
    ensures ElemWidth(t.elemType) > 0 ==> r % ElemWidth(t.elemType) == 0 && r / ElemWidth(t.elemType) == Size(t.dims)
    ensures ElemWidth(t.elemType) == 0 ==> r == 0
  {
    var n, w := Size(t.dims), ElemWidth(t.elemType);
    if w > 0 then WholeElements(n, w); n * w else 0
  }

  /** n elements of w bytes each are n * w bytes, nothing left over. */
  lemma WholeElements(n: nat, w: nat)
    requires w > 0
    ensures (n * w) % w == 0 && (n * w) / w == n
  {
    var q, r := (n * w) / w, (n * w) % w;
    var k := n - q;
    assert k * w == r;
  }

  /** A string tensor holds one string per element; any other tensor holds
      element count times element width bytes. */
  predicate TensorValid(t: Tensor) {
    if IsStringTensor(t) then |t.strings| == Size(t.dims) && t.bytes == []
    else t.strings == [] && |t.bytes| == SizeInBytes(t)
  }

  /** Shape, then element type, then content: string tensors element by
      element, all others byte for byte over the size in bytes. The test
      passes exactly when the two tensor values are equal. */
  method CompareTensors(l: Tensor, r: Tensor) returns (res: Outcome)
    requires TensorValid(l) && TensorValid(r)
    ensures res.Pass? <==> l == r
    ensures res == Fail(ShapeMismatch) <==> l.dims != r.dims
    ensures res == Fail(ElemTypeMismatch) <==> l.dims == r.dims && l.elemType != r.elemType
    ensures res.Fail? ==> res.mismatch.ShapeMismatch? || res.mismatch.ElemTypeMismatch?
                          || res.mismatch.StringMismatch? || res.mismatch.RawDataMismatch?
    ensures res.Fail? && res.mismatch.StringMismatch? ==>
              IsStringTensor(l) && res.mismatch.elementIndex < |l.strings|
              && l.strings[res.mismatch.elementIndex] != r.strings[res.mismatch.elementIndex]
              && forall k :: 0 <= k < res.mismatch.elementIndex ==> l.strings[k] == r.strings[k]
    ensures res == Fail(RawDataMismatch) ==> !IsStringTensor(l) && l.bytes != r.bytes
  {
    if l.dims != r.dims {
      return Fail(ShapeMismatch);
    }
    if l.elemType != r.elemType {
      return Fail(ElemTypeMismatch);
    }
    if IsStringTensor(l) {
      var size := Size(l.dims);
      var i := 0;
      while i < size
        invariant 0 <= i <= size
        invariant forall k :: 0 <= k < i ==> l.strings[k] == r.strings[k]
      {
        if l.strings[i] != r.strings[i] {
          return Fail(StringMismatch(i));
        }
        i := i + 1;
      }
      assert l.strings == r.strings;
      return Pass;
    }
    var size := SizeInBytes(l);
    assert l.bytes[..size] == l.bytes && r.bytes[..size] == r.bytes;
    if l.bytes[..size] != r.bytes[..size] {
      return Fail(RawDataMismatch);
    }
    return Pass;
  }

  // ---------------------------------------------------------------------------
  // Graphs and session states

  /** A node argument: its value info and whether it exists (an optional
      output that was not produced does not). */
  datatype NodeArg = NodeArg(present: bool, info: ValueInfo)

  /** A node, with the node arguments of its outputs in order. */
  datatype Node = Node(outputs: seq<NodeArg>)

  /** A graph: the names of its inputs (initializers included), its node
      arguments by name, and its nodes by node index (None for an index whose
      node was removed). */
  datatype Graph = Graph(inputs: seq<string>, nodeArgs: map<string, NodeArg>, nodes: seq<Option<Node>>)

  /** What the checker reads from an initialized session: its graph and the
      initialized tensors of its session state, by name. */
  datatype Session = Session(graph: Graph, initializers: map<string, Tensor>)

  /** Every input of the graph resolves to a node argument of that graph. */
  predicate InputsResolvable(g: Graph) {
    forall k :: 0 <= k < |g.inputs| ==> g.inputs[k] in g.nodeArgs
  }

  predicate InitializersValid(m: map<string, Tensor>) {
    forall name :: name in m ==> TensorValid(m[name])
  }

  /** The initializer check read as a formula: equal sizes, and every name of
      the first map maps to an equal tensor in the second. */
  predicate InitializersMatch(i1: map<string, Tensor>, i2: map<string, Tensor>) {
    |i1| == |i2| && forall name :: name in i1 ==> name in i2 && i1[name] == i2[name]
  }

  /** Equal sizes plus inclusion make the key sets identical, so the
      initializer check is exactly map equality. */
  lemma InitializersMatchIsEquality(i1: map<string, Tensor>, i2: map<string, Tensor>)
    ensures InitializersMatch(i1, i2) ==> i1.Keys == i2.Keys
    ensures InitializersMatch(i1, i2) <==> i1 == i2
  {
    if InitializersMatch(i1, i2) {
      assert i1.Keys <= i2.Keys;
      assert i2.Keys == i1.Keys + (i2.Keys - i1.Keys);
      assert |i2.Keys - i1.Keys| == 0;
      assert i1.Keys == i2.Keys;
    }
  }

  /** The loop over the first session's initializers. */
  method CompareInitializers(i1: map<string, Tensor>, i2: map<string, Tensor>) returns (res: Outcome)
    requires InitializersValid(i1) && InitializersValid(i2)
    ensures res.Pass? <==> InitializersMatch(i1, i2)
    ensures res == Fail(InitializerCountMismatch) <==> |i1| != |i2|
    ensures res.Fail? ==> IsInitializerMismatch(res.mismatch)
    ensures res.Fail? && res.mismatch.InitializerMissing? ==>
              res.mismatch.initializer in i1 && res.mismatch.initializer !in i2
    ensures res.Fail? && res.mismatch.InInitializer? ==>
              var name := res.mismatch.initializer; name in i1 && name in i2 && i1[name] != i2[name]
  {
    if |i1| != |i2| {
      return Fail(InitializerCountMismatch);
    }
    var pending := i1.Keys;
    while pending != {}
      invariant pending <= i1.Keys
      invariant forall name :: name in i1 && name !in pending ==> name in i2 && i1[name] == i2[name]
      decreases pending
    {
      var name :| name in pending;
      if name !in i2 {
        return Fail(InitializerMissing(name));
      }
      var o := CompareTensors(i1[name], i2[name]);
      if o.Fail? {
        return Fail(InInitializer(name, o.mismatch));
      }
      pending := pending - {name};
    }
    return Pass;
  }

  predicate IsInitializerMismatch(m: Mismatch) {
    m.InitializerCountMismatch? || m.InitializerMissing? || m.InInitializer?
  }

  predicate IsInputMismatch(m: Mismatch) {
    m.InputMissing? || m.InInput?
  }

  /** The input named `name` of g1 exists in g2 with an equal value info. */
  predicate InputMatches(g1: Graph, g2: Graph, name: string)
    requires name in g1.nodeArgs
  {
    name in g2.nodeArgs && CompareValueInfos(g1.nodeArgs[name].info, g2.nodeArgs[name].info).Pass?
  }

  /** The input check read as a formula. */
  predicate InputsMatch(g1: Graph, g2: Graph)
    requires InputsResolvable(g1)
  {
    forall k :: 0 <= k < |g1.inputs| ==> InputMatches(g1, g2, g1.inputs[k])
  }

  /** The loop over the inputs of g1, initializers included, each looked up
      by name in both graphs. */
  method CompareInputs(g1: Graph, g2: Graph) returns (res: Outcome)
    requires InputsResolvable(g1)
    ensures res.Pass? <==> InputsMatch(g1, g2)
    ensures res.Fail? ==> IsInputMismatch(res.mismatch)
    ensures res.Fail? && res.mismatch.InputMissing? ==>
              res.mismatch.input in g1.inputs && res.mismatch.input !in g2.nodeArgs
  {
    for k := 0 to |g1.inputs|
      invariant forall k' :: 0 <= k' < k ==> InputMatches(g1, g2, g1.inputs[k'])
    {
      var name := g1.inputs[k];
      if name !in g2.nodeArgs {
        return Fail(InputMissing(name));
      }
      var o := CompareValueInfos(g1.nodeArgs[name].info, g2.nodeArgs[name].info);
      if o.Fail? {
        return Fail(InInput(name, o.mismatch));
      }
    }
    return Pass;
  }

  /** The check of one output slot: a present left output needs an equal name
      and an equal value info on the right; an absent one needs an absent
      right output. */
  predicate OutputMatches(l: NodeArg, r: NodeArg) {
    if l.present then l.info.name == r.info.name && CompareValueInfos(l.info, r.info).Pass?
    else !r.present
  }

  /** The node of g2 at `index`, if there is one. */
  function NodeAt(g: Graph, index: nat): Option<Node> {
    if index < |g.nodes| then g.nodes[index] else None
  }

  /** Node `n` of g1, at `index`, matches the node of g2 at the same index. */
  predicate NodeMatches(n: Node, g2: Graph, index: nat) {
    && NodeAt(g2, index).Some?
    && |n.outputs| == |NodeAt(g2, index).value.outputs|
    && forall j :: 0 <= j < |n.outputs| ==> OutputMatches(n.outputs[j], NodeAt(g2, index).value.outputs[j])
  }

  /** The node check read as a formula. */
  predicate NodesMatch(g1: Graph, g2: Graph) {
    forall i :: 0 <= i < |g1.nodes| && g1.nodes[i].Some? ==> NodeMatches(g1.nodes[i].value, g2, i)
  }

  predicate IsNodeMismatch(m: Mismatch) {
    m.NodeMissing? || m.OutputCountMismatch? || m.OutputNameMismatch? || m.InOutput?
    || m.OutputUnexpectedlyPresent?
  }

  /** The loop over the output slots of the nodes at `index`. */
  method CompareOutputs(index: nat, left: seq<NodeArg>, right: seq<NodeArg>) returns (res: Outcome)
    requires |left| == |right|
    ensures res.Pass? <==> forall j :: 0 <= j < |left| ==> OutputMatches(left[j], right[j])
    ensures res.Fail? ==> (res.mismatch.OutputNameMismatch? || res.mismatch.InOutput?
                           || res.mismatch.OutputUnexpectedlyPresent?) && res.mismatch.nodeIndex == index
    ensures res.Fail? && res.mismatch.OutputUnexpectedlyPresent? ==>
              var j := res.mismatch.slot; j < |left| && !left[j].present && right[j].present
  {
    for j := 0 to |left|
      invariant forall j' :: 0 <= j' < j ==> OutputMatches(left[j'], right[j'])
    {
      var l, r := left[j], right[j];
      if l.present {
        if l.info.name != r.info.name {
          return Fail(OutputNameMismatch(index, j));
        }
        var o := CompareValueInfos(l.info, r.info);
        if o.Fail? {
          return Fail(InOutput(index, j, o.mismatch));
        }
      } else if r.present {
        return Fail(OutputUnexpectedlyPresent(index, j));
      }
    }
    return Pass;
  }

  /** The loop over the nodes of g1, each looked up by its index in g2. */
  method CompareNodes(g1: Graph, g2: Graph) returns (res: Outcome)
    ensures res.Pass? <==> NodesMatch(g1, g2)
    ensures res.Fail? ==> IsNodeMismatch(res.mismatch)
    ensures res.Fail? && res.mismatch.NodeMissing? ==>
              var i := res.mismatch.nodeIndex; i < |g1.nodes| && g1.nodes[i].Some? && NodeAt(g2, i).None?
  {
    for i := 0 to |g1.nodes|
      invariant forall i' :: 0 <= i' < i && g1.nodes[i'].Some? ==> NodeMatches(g1.nodes[i'].value, g2, i')
    {
      if g1.nodes[i].Some? {
        var left := g1.nodes[i].value;
        var right := NodeAt(g2, i);
        if right.None? {
          return Fail(NodeMissing(i));
        }
        if |left.outputs| != |right.value.outputs| {
          return Fail(OutputCountMismatch(i));
        }
        var o := CompareOutputs(i, left.outputs, right.value.outputs);
        if o.Fail? {
          return o;
        }
      }
    }
    return Pass;
  }

  /** The whole check read as a formula. */
  predicate SessionsMatch(s1: Session, s2: Session)
    requires InputsResolvable(s1.graph)
  {
    && InitializersMatch(s1.initializers, s2.initializers)
    && InputsMatch(s1.graph, s2.graph)
    && NodesMatch(s1.graph, s2.graph)
  }

  /** CompareGraphAndSessionState: initializers, then graph inputs, then node
      outputs; the first failing stage stops the check. */
  method CompareGraphAndSessionState(s1: Session, s2: Session) returns (res: Outcome)
    requires InitializersValid(s1.initializers) && InitializersValid(s2.initializers)
    requires InputsResolvable(s1.graph)
    ensures res.Pass? <==> SessionsMatch(s1, s2)
    ensures !InitializersMatch(s1.initializers, s2.initializers) ==>
              res.Fail? && IsInitializerMismatch(res.mismatch)
    ensures InitializersMatch(s1.initializers, s2.initializers) && !InputsMatch(s1.graph, s2.graph) ==>
              res.Fail? && IsInputMismatch(res.mismatch)
    ensures InitializersMatch(s1.initializers, s2.initializers) && InputsMatch(s1.graph, s2.graph) ==>
              (res.Fail? ==> IsNodeMismatch(res.mismatch))
  {
    res := CompareInitializers(s1.initializers, s2.initializers);
    if res.Fail? {
      return;
    }
    res := CompareInputs(s1.graph, s2.graph);
    if res.Fail? {
      return;
    }
    res := CompareNodes(s1.graph, s2.graph);
  }

  // ---------------------------------------------------------------------------
  // What a passing check means

  /** Every input of g1 exists in g2 with the same value info, of a supported
      type. */
  predicate InputsIdentical(g1: Graph, g2: Graph)
    requires InputsResolvable(g1)
  {
    forall k :: 0 <= k < |g1.inputs| ==>
      var name := g1.inputs[k];
      name in g2.nodeArgs && Supported(g1.nodeArgs[name].info.typeDesc)
      && g2.nodeArgs[name].info == g1.nodeArgs[name].info
  }

  /** Output slot `r` carries what `l` carries: the same value info (of a
      supported type) if `l` is present, and is absent if `l` is absent.
      Nothing is said about whether `r` exists when `l` does. */
  predicate OutputIdentical(l: NodeArg, r: NodeArg) {
    (l.present ==> Supported(l.info.typeDesc) && r.info == l.info) && (!l.present ==> !r.present)
  }

  /** Every node of g1 has a node at its index in g2 with as many outputs,
      slot by slot identical. */
  predicate NodesIdentical(g1: Graph, g2: Graph) {
    forall i :: 0 <= i < |g1.nodes| && g1.nodes[i].Some? ==>
      var n := g1.nodes[i].value;
      && NodeAt(g2, i).Some?
      && |n.outputs| == |NodeAt(g2, i).value.outputs|
      && forall j :: 0 <= j < |n.outputs| ==> OutputIdentical(n.outputs[j], NodeAt(g2, i).value.outputs[j])
  }

  lemma OutputMatchesIsIdentity(l: NodeArg, r: NodeArg)
    ensures OutputMatches(l, r) <==> OutputIdentical(l, r)
  {
    ValueInfosMatchIsEquality(l.info, r.info);
  }

  /** A passing check means: the same initializers, the same input value
      infos, and node for node, a present left output has the same value
      info on the right and an absent left output has an absent right one. */
  lemma SessionsMatchMeaning(s1: Session, s2: Session)
    requires InputsResolvable(s1.graph)
    ensures SessionsMatch(s1, s2) <==>
            && s1.initializers == s2.initializers
            && InputsIdentical(s1.graph, s2.graph)
            && NodesIdentical(s1.graph, s2.graph)
  {
    InitializersMatchIsEquality(s1.initializers, s2.initializers);
    var g1, g2 := s1.graph, s2.graph;
    forall k | 0 <= k < |g1.inputs|
      ensures InputMatches(g1, g2, g1.inputs[k]) <==>
              (g1.inputs[k] in g2.nodeArgs && Supported(g1.nodeArgs[g1.inputs[k]].info.typeDesc)
               && g2.nodeArgs[g1.inputs[k]].info == g1.nodeArgs[g1.inputs[k]].info)
    {
      var name := g1.inputs[k];
      if name in g2.nodeArgs {
        ValueInfosMatchIsEquality(g1.nodeArgs[name].info, g2.nodeArgs[name].info);
      }
    }
    forall l: NodeArg, r: NodeArg ensures OutputMatches(l, r) <==> OutputIdentical(l, r) {
      OutputMatchesIsIdentity(l, r);
    }
  }

  /** In the engine a node argument exists exactly when its name is not
      empty: an optional output that is not produced is an argument with
      the empty name. */
  predicate ExistsIffNamed(a: NodeArg) {
    a.present <==> a.info.name != ""
  }

  /** Every node output of g ties existence to its name. */
  predicate OutputsWellNamed(g: Graph) {
    forall i, j :: 0 <= i < |g.nodes| && g.nodes[i].Some? && 0 <= j < |g.nodes[i].value.outputs| ==>
      ExistsIffNamed(g.nodes[i].value.outputs[j])
  }

  /** Output slots that exist on the same sides and, where they exist, carry
      the same value info of a supported type. */
  predicate OutputEquivalent(l: NodeArg, r: NodeArg) {
    l.present == r.present && (l.present ==> Supported(l.info.typeDesc) && r.info == l.info)
  }

  /** Every node of g1 has a node at its index in g2 with as many outputs,
      slot by slot equivalent. */
  predicate NodesEquivalent(g1: Graph, g2: Graph) {
    forall i :: 0 <= i < |g1.nodes| && g1.nodes[i].Some? ==>
      var n := g1.nodes[i].value;
      && NodeAt(g2, i).Some?
      && |n.outputs| == |NodeAt(g2, i).value.outputs|
      && forall j :: 0 <= j < |n.outputs| ==> OutputEquivalent(n.outputs[j], NodeAt(g2, i).value.outputs[j])
  }

  /** For one slot of well-named arguments, the slot check is equivalence:
      an equal name on the right is a non-empty name, so the right output
      exists. */
  lemma WellNamedOutputMatches(l: NodeArg, r: NodeArg)
    requires ExistsIffNamed(l) && ExistsIffNamed(r)
    ensures OutputMatches(l, r) <==> OutputEquivalent(l, r)
  {
    OutputMatchesIsIdentity(l, r);
  }

  /** When both graphs tie existence to names, a passing check means the
      same initializers, the same input value infos, and node for node the
      same absences and, for present outputs, the same value infos. */
  lemma WellNamedSessionsMatchMeaning(s1: Session, s2: Session)
    requires InputsResolvable(s1.graph)
    requires OutputsWellNamed(s1.graph) && OutputsWellNamed(s2.graph)
    ensures SessionsMatch(s1, s2) <==>
            && s1.initializers == s2.initializers
            && InputsIdentical(s1.graph, s2.graph)
            && NodesEquivalent(s1.graph, s2.graph)
  {
    SessionsMatchMeaning(s1, s2);
    var g1, g2 := s1.graph, s2.graph;
    forall i | 0 <= i < |g1.nodes| && g1.nodes[i].Some? && NodeAt(g2, i).Some?
      ensures forall j :: 0 <= j < |g1.nodes[i].value.outputs| && j < |NodeAt(g2, i).value.outputs| ==>
                (OutputMatches(g1.nodes[i].value.outputs[j], NodeAt(g2, i).value.outputs[j]) <==>
                 OutputEquivalent(g1.nodes[i].value.outputs[j], NodeAt(g2, i).value.outputs[j]))
    {
      assert g2.nodes[i] == NodeAt(g2, i);
      forall j | 0 <= j < |g1.nodes[i].value.outputs| && j < |NodeAt(g2, i).value.outputs| {
        WellNamedOutputMatches(g1.nodes[i].value.outputs[j], NodeAt(g2, i).value.outputs[j]);
      }
    }
  }

  /** The well-named reading needs both graphs well named: an absent right
      output with the left output's name passes the check. */
  lemma PresentOutputMayFaceAbsentOne()
    ensures OutputMatches(NodeArg(true, ValueInfo("y", "", TensorType("", 1, []))),
                          NodeArg(false, ValueInfo("y", "", TensorType("", 1, []))))
  {
  }

  /** Every type a self-comparison reads is supported. */
  predicate AllTypesSupported(g: Graph)
    requires InputsResolvable(g)
  {
    && (forall k :: 0 <= k < |g.inputs| ==> Supported(g.nodeArgs[g.inputs[k]].info.typeDesc))
    && (forall i, j ::
          (0 <= i < |g.nodes| && g.nodes[i].Some? && 0 <= j < |g.nodes[i].value.outputs|
           && g.nodes[i].value.outputs[j].present) ==> Supported(g.nodes[i].value.outputs[j].info.typeDesc))
  }

  /** Fail closed: a session compared with itself passes exactly when no
      input and no present node output has a sparse-tensor, opaque or unset
      type anywhere in its nesting. */
  lemma SelfComparisonFailsClosed(s: Session)
    requires InputsResolvable(s.graph)
    ensures SessionsMatch(s, s) <==> AllTypesSupported(s.graph)
  {
    SessionsMatchMeaning(s, s);
    var g := s.graph;
    if AllTypesSupported(g) {
      assert NodesIdentical(g, g) by {
        forall i | 0 <= i < |g.nodes| && g.nodes[i].Some?
          ensures forall j :: 0 <= j < |g.nodes[i].value.outputs| ==>
                    OutputIdentical(g.nodes[i].value.outputs[j], NodeAt(g, i).value.outputs[j])
        {
          assert NodeAt(g, i) == g.nodes[i];
        }
      }
    } else if !(forall k :: 0 <= k < |g.inputs| ==> Supported(g.nodeArgs[g.inputs[k]].info.typeDesc)) {
      assert !InputsIdentical(g, g);
    } else {
      var i, j :| 0 <= i < |g.nodes| && g.nodes[i].Some? && 0 <= j < |g.nodes[i].value.outputs|
          && g.nodes[i].value.outputs[j].present && !Supported(g.nodes[i].value.outputs[j].info.typeDesc);
      assert NodeAt(g, i) == g.nodes[i];
      assert !OutputIdentical(g.nodes[i].value.outputs[j], NodeAt(g, i).value.outputs[j]);
    }
  }

  function EmptySession(): Session {
    Session(Graph([], map[], []), map[])
  }

  function OneNodeSession(): Session {
    Session(Graph([], map[], [Some(Node([]))]), map[])
  }

  /** The check only looks from the first session into the second: a node
      that only the second session has goes unnoticed. */
  lemma ComparisonIsOneDirectional()
    ensures SessionsMatch(EmptySession(), OneNodeSession())
    ensures !SessionsMatch(OneNodeSession(), EmptySession())
  {
    var g := OneNodeSession().graph;
    assert g.nodes[0].Some? && NodeAt(EmptySession().graph, 0).None?;
  }
}

/** The CEL functions that build mutation requests, and program compilation (internal/cel/compiler.go). */
module Builders {
  import opened Prelude
  import opened Requests
  import opened Evaluator
  import opened Traversal
  import opened Decimal

  const PRIORITY_LABEL := "kueue.x-k8s.io/priority-class"
  const MAX_ANNOTATION_VALUE := 256 * 1024

  /** Kubernetes name rules, taken as given. */
  datatype Naming = Naming(qualifiedName: string -> bool, labelValue: string -> bool)

  /** One call of a mutation-building function, with arguments of the declared CEL types. */
  datatype Call =
    | AnnotationCall(key: string, text: string)
    | LabelCall(key: string, text: string)
    | ResourceCall(key: string, amount: int)
    | PriorityCall(text: string)
    | ManagedByCall(text: string)
    | MultiKueueCall
    | MultiKueueQueueCall(queue: string)

  function RequestMap(kind: MutationType, key: string, value: string): Native {
    NMap(map["type" := NString(TypeName(kind)), "key" := NString(key), "value" := NString(value)])
  }

  predicate ValidKey(nm: Naming, key: string) {
    key != "" && nm.qualifiedName(key)
  }

  predicate ValidAnnotationValue(value: string) {
    |value| <= MAX_ANNOTATION_VALUE
  }

  /** The map the function returns; None is a CEL error. */
  function Build(nm: Naming, c: Call): Option<Native> {
    match c
    case AnnotationCall(key, text) =>
      if ValidKey(nm, key) && ValidAnnotationValue(text) then Some(RequestMap(Annotation, key, text)) else None
    case LabelCall(key, text) =>
      if ValidKey(nm, key) && nm.labelValue(text) then Some(RequestMap(Label, key, text)) else None
    case ResourceCall(key, amount) =>
      if key == "" || amount < 0 then None
      else
        var text := Itoa(amount);
        if ValidKey(nm, key) && ValidAnnotationValue(text)
        then Some(RequestMap(Resource, REQUESTS_PREFIX + key, text)) else None
    case PriorityCall(text) => Some(RequestMap(Label, PRIORITY_LABEL, text))
    case ManagedByCall(text) => if text == "" then None else Some(RequestMap(ManagedBy, "managedBy", text))
    case MultiKueueCall => Some(RequestMap(MultiKueue, "managedBy", ""))
    case MultiKueueQueueCall(queue) =>
      if queue == "" || !nm.labelValue(queue) then None else Some(RequestMap(MultiKueue, "managedBy", queue))
  }

  /** The request a call stands for. */
  function Meaning(c: Call): MutationRequest {
    match c
    case AnnotationCall(key, text) => MutationRequest(Annotation, key, text)
    case LabelCall(key, text) => MutationRequest(Label, key, text)
    case ResourceCall(key, amount) => MutationRequest(Resource, REQUESTS_PREFIX + key, Itoa(amount))
    case PriorityCall(text) => MutationRequest(Label, PRIORITY_LABEL, text)
    case ManagedByCall(text) => MutationRequest(ManagedBy, "managedBy", text)
    case MultiKueueCall => MutationRequest(MultiKueue, "managedBy", "")
    case MultiKueueQueueCall(queue) => MutationRequest(MultiKueue, "managedBy", queue)
  }

  predicate EmptyText(c: Call) {
    (c.AnnotationCall? || c.LabelCall? || c.PriorityCall?) && c.text == ""
  }

  /**
    A value converts to a request exactly when it is a map that carries the request's three
    fields, whatever else it holds.
   */
  lemma ConvertSingleIff(v: Native, m: MutationRequest)
    ensures ConvertSingle(v) == Ok(m) <==>
            && v.NMap? && m.key != ""
            && "type" in v.fields && v.fields["type"] == NString(TypeName(m.kind))
            && "key" in v.fields && v.fields["key"] == NString(m.key)
            && "value" in v.fields && v.fields["value"] == NString(m.value)
  {
  }

  /** Every map a function builds converts back to its request, and validates unless its text is empty. */
  lemma BuildConvertRoundTrip(nm: Naming, c: Call)
    requires Build(nm, c).Some?
    ensures Convert(Build(nm, c).value) == Ok([Meaning(c)])
    ensures Valid(Meaning(c)) <==> !EmptyText(c)
  {
  }

  /** When each function refuses its arguments; priority and the plain multiKueue never do. */
  lemma BuildsIff(nm: Naming, c: Call)
    ensures Build(nm, c).Some? <==>
            match c
            case AnnotationCall(key, text) => key != "" && nm.qualifiedName(key) && |text| <= 262144
            case LabelCall(key, text) => key != "" && nm.qualifiedName(key) && nm.labelValue(text)
            case ResourceCall(key, amount) =>
              key != "" && nm.qualifiedName(key) && amount >= 0 && |Itoa(amount)| <= 262144
            case ManagedByCall(text) => text != ""
            case MultiKueueQueueCall(queue) => queue != "" && nm.labelValue(queue)
            case _ => true
  {
  }

  /** A resource call is refused exactly for a bad key or a negative amount; its size check never fires. */
  lemma ResourceBuildsIff(nm: Naming, key: string, amount: int)
    requires InInt64(amount)
    ensures Build(nm, ResourceCall(key, amount)).Some? <==> ValidKey(nm, key) && amount >= 0
  {
    if amount >= 0 {
      Int64Length(amount);
    }
  }

  // ------------------------------------------------------------- compilation

  datatype CompileError = NoExpressions | EmptyExpression | BadExpression

  /** The type checker and program constructor of cel-go; None is a rejected expression. */
  type Compiler = string -> Option<Program>

  function CompileOne(compile: Compiler): string -> Result<seq<Program>, CompileError> {
    (e: string) =>
      if e == "" then Err(EmptyExpression)
      else
        var p := compile(e);
        if p.None? then Err(BadExpression) else Ok([p.value])
  }

  /** `CompileCELPrograms`. */
  function CompileAll(compile: Compiler, es: seq<string>): Result<seq<Program>, CompileError> {
    if es == [] then Err(NoExpressions) else Traverse(CompileOne(compile), es)
  }

  method CompilePrograms(compile: Compiler, es: seq<string>) returns (r: Result<seq<Program>, CompileError>)
    ensures r == CompileAll(compile, es)
  {
    if es == [] {
      return Err(NoExpressions);
    }
    r := TraverseLoop(CompileOne(compile), es);
  }

  /** Compilation succeeds exactly on a non-empty list of accepted expressions, one program each in order. */
  lemma CompileAllIff(compile: Compiler, es: seq<string>)
    ensures CompileAll(compile, es).Ok? <==>
            es != [] && forall i :: 0 <= i < |es| ==> es[i] != "" && compile(es[i]).Some?
    ensures CompileAll(compile, es).Ok? ==>
              && |CompileAll(compile, es).value| == |es|
              && forall i :: 0 <= i < |es| ==> compile(es[i]) == Some(CompileAll(compile, es).value[i])
  {
    var f := CompileOne(compile);
    TraverseFailsIff(f, es);
    if CompileAll(compile, es).Ok? {
      TraverseOneEach(f, es);
      assert forall i :: 0 <= i < |es| ==> f(es[i]) == Ok([CompileAll(compile, es).value[i]]);
    }
  }
}

/** Evaluation of compiled CEL programs (internal/cel/evaluator.go). */
module Evaluator {
  import opened Prelude
  import opened Runs
  import opened Requests
  import opened Traversal

  /** Native Go values a CEL result can unwrap to. */
  datatype Native =
    | NString(s: string)
    | NInt(i: int)
    | NMap(fields: map<string, Native>)   // map[string]interface{}
    | NSlice(items: seq<Native>)          // []interface{}
    | NRefs(refs: seq<Ref>)               // []ref.Val
    | NOther

  /** A CEL value; `value` is what its `Value()` method returns. */
  datatype Ref = Ref(value: Native)

  /** A compiled program: any function of the snapshot; None is an evaluation error. */
  type Program = Run -> Option<Native>

  datatype ConvertError =
    | NotAMap
    | NotAMapOrList
    | MissingField(name: string)
    | FieldNotString(name: string)
    | UnknownType(name: string)
    | EmptyKey
    | ListItem(cause: ConvertError)

  datatype ApplyError = BadNewValue | BadExistingValue | NegativeExistingValue

  datatype Cause =
    | InvalidSpec
    | NotMarshallable
    | ProgramFailed
    | ConversionFailed(error: ConvertError)
    | InvalidMutation(index: nat)
    | ApplyFailed(failure: ApplyError)

  datatype MutateError = NilRun | ValidationError(cause: Cause) | EvaluationError(cause: Cause)

  /** Tekton and encoding/json code the mutator calls, on arbitrary terms. */
  datatype Tekton = Tekton(setDefaults: Run -> Run, validates: Run -> bool, marshals: Run -> bool)

  // -------------------------------------------------------------- conversion

  function StringField(fields: map<string, Native>, name: string): Result<string, ConvertError> {
    if name !in fields then Err(MissingField(name))
    else if !fields[name].NString? then Err(FieldNotString(name))
    else Ok(fields[name].s)
  }

  function TypeField(fields: map<string, Native>): Result<MutationType, ConvertError> {
    var name := StringField(fields, "type");
    if name.Err? then Err(name.error)
    else
      var t := ParseType(name.value);
      if t.None? then Err(UnknownType(name.value)) else Ok(t.value)
  }

  /** `convertSingleMutation`. */
  function ConvertSingle(v: Native): Result<MutationRequest, ConvertError> {
    if !v.NMap? then Err(NotAMap)
    else
      var kind := TypeField(v.fields);
      if kind.Err? then Err(kind.error)
      else
        var key := StringField(v.fields, "key");
        if key.Err? then Err(key.error)
        else if key.value == "" then Err(EmptyKey)
        else
          var value := StringField(v.fields, "value");
          if value.Err? then Err(value.error)
          else Ok(MutationRequest(kind.value, key.value, value.value))
  }

  function ConvertItem(v: Native): Result<seq<MutationRequest>, ConvertError> {
    var m := ConvertSingle(v);
    if m.Err? then Err(ListItem(m.error)) else Ok([m.value])
  }

  /** `convertListToMutations`. */
  function ConvertList(items: seq<Native>): Result<seq<MutationRequest>, ConvertError> {
    Traverse(ConvertItem, items)
  }

  function Unwrap(refs: seq<Ref>): (items: seq<Native>)
    ensures |items| == |refs| && forall i :: 0 <= i < |refs| ==> items[i] == refs[i].value
  {
    seq(|refs|, i requires 0 <= i < |refs| => refs[i].value)
  }

  /** `convertToMutationRequests`. */
  function Convert(v: Native): Result<seq<MutationRequest>, ConvertError> {
    match v
    case NSlice(items) => ConvertList(items)
    case NRefs(refs) => ConvertList(Unwrap(refs))
    case NMap(_) =>
      var m := ConvertSingle(v);
      if m.Err? then Err(m.error) else Ok([m.value])
    case _ => Err(NotAMapOrList)
  }

  method ConvertResult(v: Native) returns (r: Result<seq<MutationRequest>, ConvertError>)
    ensures r == Convert(v)
  {
    match v {
      case NSlice(items) => r := TraverseLoop(ConvertItem, items);
      case NRefs(refs) => r := TraverseLoop(ConvertItem, Unwrap(refs));
      case _ => r := Convert(v);
    }
  }

  // -------------------------------------------------------------- evaluation

  /** Index of the first request `Validate` rejects. */
  function FirstInvalid(ms: seq<MutationRequest>): (r: Option<nat>)
    ensures r.None? <==> forall i :: 0 <= i < |ms| ==> Valid(ms[i])
    ensures r.Some? ==> r.value < |ms| && !Valid(ms[r.value]) && forall i :: 0 <= i < r.value ==> Valid(ms[i])
  {
    if ms == [] then None
    else
      var n := |ms| - 1;
      var init := FirstInvalid(ms[..n]);
      if init.Some? then init else if Valid(ms[n]) then None else Some(n)
  }

  /** The validation loop of `Evaluate`. */
  method FindInvalid(ms: seq<MutationRequest>) returns (r: Option<nat>)
    ensures r == FirstInvalid(ms)
  {
    for i := 0 to |ms|
      invariant forall j :: 0 <= j < i ==> Valid(ms[j])
    {
      if !Valid(ms[i]) {
        return Some(i);
      }
    }
    return None;
  }

  /** `CompiledProgram.Evaluate`. */
  function Evaluate(tk: Tekton, p: Program, snapshot: Run): Result<seq<MutationRequest>, MutateError> {
    if !tk.marshals(snapshot) then Err(ValidationError(NotMarshallable))
    else
      var out := p(snapshot);
      if out.None? then Err(EvaluationError(ProgramFailed))
      else
        var ms := Convert(out.value);
        if ms.Err? then Err(EvaluationError(ConversionFailed(ms.error)))
        else
          var bad := FirstInvalid(ms.value);
          if bad.Some? then Err(EvaluationError(InvalidMutation(bad.value))) else Ok(ms.value)
  }

  /** Counters of internal/cel/metrics.go. */
  datatype Counters = Counters(evalOk: nat, evalFail: nat, mutOk: nat, mutFail: nat)

  function Add(a: Counters, b: Counters): Counters {
    Counters(a.evalOk + b.evalOk, a.evalFail + b.evalFail, a.mutOk + b.mutOk, a.mutFail + b.mutFail)
  }

  const ZERO := Counters(0, 0, 0, 0)

  /** What one evaluation records: a failure for every error except a marshalling one. */
  function EvaluateTick<T>(r: Result<T, MutateError>): Counters {
    if r.Err? && r.error.EvaluationError? then Counters(0, 1, 0, 0) else ZERO
  }

  class Metrics {
    var evalOk: nat
    var evalFail: nat
    var mutOk: nat
    var mutFail: nat

    function View(): Counters
      reads this
    {
      Counters(evalOk, evalFail, mutOk, mutFail)
    }

    constructor ()
      ensures View() == ZERO
    {
      evalOk, evalFail, mutOk, mutFail := 0, 0, 0, 0;
    }
  }

  method EvaluateProgram(tk: Tekton, p: Program, snapshot: PipelineRun, metrics: Metrics)
    returns (r: Result<seq<MutationRequest>, MutateError>)
    modifies metrics
    ensures r == Evaluate(tk, p, snapshot.View())
    ensures metrics.View() == Add(old(metrics.View()), EvaluateTick(r))
  {
    if !tk.marshals(snapshot.View()) {
      return Err(ValidationError(NotMarshallable));
    }
    var out := p(snapshot.View());
    if out.None? {
      metrics.evalFail := metrics.evalFail + 1;
      return Err(EvaluationError(ProgramFailed));
    }
    var ms := ConvertResult(out.value);
    if ms.Err? {
      metrics.evalFail := metrics.evalFail + 1;
      return Err(EvaluationError(ConversionFailed(ms.error)));
    }
    var bad := FindInvalid(ms.value);
    if bad.Some? {
      metrics.evalFail := metrics.evalFail + 1;
      return Err(EvaluationError(InvalidMutation(bad.value)));
    }
    return Ok(ms.value);
  }

  function EvaluateOn(tk: Tekton, snapshot: Run): Program -> Result<seq<MutationRequest>, MutateError> {
    (p: Program) => Evaluate(tk, p, snapshot)
  }

  /** Every program against the same snapshot; the first error wins. */
  function EvaluateAll(tk: Tekton, ps: seq<Program>, snapshot: Run): Result<seq<MutationRequest>, MutateError> {
    Traverse(EvaluateOn(tk, snapshot), ps)
  }

  /** The requests-to-be in a result: the items of either kind of list, or a single map. */
  function Items(v: Native): Option<seq<Native>> {
    match v
    case NSlice(items) => Some(items)
    case NRefs(refs) => Some(Unwrap(refs))
    case NMap(_) => Some([v])
    case _ => None
  }

  predicate Yields(p: Program, snapshot: Run, xs: seq<Native>) {
    var out := p(snapshot);
    out.Some? && Items(out.value) == Some(xs)
  }

  /** Lists of either kind and single maps convert item by item alike. */
  lemma ConvertByItems(v: Native, xs: seq<Native>)
    requires Items(v) == Some(xs)
    ensures Convert(v).Ok? == ConvertList(xs).Ok?
    ensures Convert(v).Ok? ==> Convert(v).value == ConvertList(xs).value
  {
    if v.NMap? {
      TraverseSingle(ConvertItem, v);
    }
  }

  /** The requests-to-be of a program; None when it fails or returns neither map nor list. */
  function Output(p: Program, snapshot: Run): Option<seq<Native>> {
    var out := p(snapshot);
    if out.None? then None else Items(out.value)
  }

  /** Requests, one per item and in the same order. */
  predicate Converts(xs: seq<Native>, ms: seq<MutationRequest>) {
    Pointwise(ConvertSingle, xs, ms)
  }

  /** An item that converts to a request with a value, except for multiKueue, and the fixed key for managedBy. */
  predicate Applicable(v: Native) {
    var m := ConvertSingle(v);
    && m.Ok?
    && (m.value.value != "" || m.value.kind == MultiKueue)
    && (m.value.kind == ManagedBy ==> m.value.key == "managedBy")
  }

  predicate EveryApplicable(xs: seq<Native>) {
    forall i :: 0 <= i < |xs| ==> Applicable(xs[i])
  }

  lemma ConvertedKey(v: Native)
    requires ConvertSingle(v).Ok?
    ensures ConvertSingle(v).value.key != ""
    ensures Applicable(v) <==> Valid(ConvertSingle(v).value)
  {
  }

  /** A list converts exactly when every item does, item by item. */
  lemma ConvertListPointwise(xs: seq<Native>)
    ensures ConvertList(xs).Ok? <==> forall i :: 0 <= i < |xs| ==> ConvertSingle(xs[i]).Ok?
    ensures ConvertList(xs).Ok? ==> Converts(xs, ConvertList(xs).value)
  {
    TraverseFailsIff(ConvertItem, xs);
    if ConvertList(xs).Ok? {
      TraverseOneEach(ConvertItem, xs);
      var ms := ConvertList(xs).value;
      forall i | 0 <= i < |xs| ensures ConvertSingle(xs[i]) == Ok(ms[i]) {
        assert ConvertItem(xs[i]) == Ok([ms[i]]);
        assert [ms[i]][0] == ms[i];
      }
    }
  }

  /**
    What evaluating a program means: it succeeds exactly when the snapshot marshals, the program
    yields items and all of them are applicable, and then returns their requests, one per item in order.
   */
  lemma EvaluateIff(tk: Tekton, p: Program, snapshot: Run)
    ensures var r, xs := Evaluate(tk, p, snapshot), Output(p, snapshot);
            && (r.Ok? <==>
                  tk.marshals(snapshot) && xs.Some? && EveryApplicable(xs.value))
            && (r.Ok? ==> Converts(xs.value, r.value))
  {
    var xs := Output(p, snapshot);
    if tk.marshals(snapshot) && xs.Some? {
      ConvertByItems(p(snapshot).value, xs.value);
      ConvertListPointwise(xs.value);
      AllApplicable(xs.value);
    }
  }

  lemma AllApplicable(xs: seq<Native>)
    requires ConvertList(xs).Ok? ==> Converts(xs, ConvertList(xs).value)
    requires ConvertList(xs).Ok? <==> forall i :: 0 <= i < |xs| ==> ConvertSingle(xs[i]).Ok?
    ensures EveryApplicable(xs) <==>
            ConvertList(xs).Ok? && FirstInvalid(ConvertList(xs).value).None?
  {
    forall i | 0 <= i < |xs| && ConvertSingle(xs[i]).Ok?
      ensures Applicable(xs[i]) <==> Valid(ConvertSingle(xs[i]).value)
    {
      ConvertedKey(xs[i]);
    }
    if ConvertList(xs).Ok? {
      var ms := ConvertList(xs).value;
      assert forall i :: 0 <= i < |xs| ==> ConvertSingle(xs[i]).value == ms[i];
    }
  }

  /** The items of all programs, in program order; None when one of them yields none. */
  function AllOutput(ps: seq<Program>, snapshot: Run): Option<seq<Native>> {
    if ps == [] then Some([])
    else
      var init, last := AllOutput(ps[..|ps| - 1], snapshot), Output(ps[|ps| - 1], snapshot);
      if init.None? || last.None? then None else Some(init.value + last.value)
  }

  /**
    What evaluating all programs means: the same, over the concatenated items of every one of them.
   */
  lemma {:induction false} EvaluateAllIff(tk: Tekton, ps: seq<Program>, snapshot: Run)
    ensures var r, xs := EvaluateAll(tk, ps, snapshot), AllOutput(ps, snapshot);
            && (ps != [] ==>
                  (r.Ok? <==>
                     tk.marshals(snapshot) && xs.Some? && EveryApplicable(xs.value)))
            && (r.Ok? ==> xs.Some? && Converts(xs.value, r.value))
  {
    if ps != [] {
      var n := |ps| - 1;
      var f := EvaluateOn(tk, snapshot);
      EvaluateAllIff(tk, ps[..n], snapshot);
      EvaluateIff(tk, ps[n], snapshot);
      TraverseStep(f, ps, n);
      assert ps[..n + 1] == ps;
      assert f(ps[n]) == Evaluate(tk, ps[n], snapshot);
      var a, b := AllOutput(ps[..n], snapshot), Output(ps[n], snapshot);
      if a.Some? && b.Some? {
        EveryConcat(a.value, b.value);
        if EvaluateAll(tk, ps, snapshot).Ok? {
          var ms, ns := EvaluateAll(tk, ps[..n], snapshot).value, Evaluate(tk, ps[n], snapshot).value;
          PointwiseConcat(ConvertSingle, a.value, ms, b.value, ns);
        }
      }
    }
  }

  lemma EveryConcat(a: seq<Native>, b: seq<Native>)
    ensures EveryApplicable(a + b) <==> EveryApplicable(a) && EveryApplicable(b)
  {
    var c := a + b;
    assert forall i :: 0 <= i < |a| ==> c[i] == a[i];
    assert forall i :: 0 <= i < |b| ==> c[|a| + i] == b[i];
  }

  /** Splitting a list expression in two, or merging two into one, at any place in the program list, changes nothing. */
  lemma Regrouping(tk: Tekton, pre: seq<Program>, post: seq<Program>, whole: Program, left: Program, right: Program,
                   snapshot: Run, xs: seq<Native>, ys: seq<Native>)
    requires Yields(whole, snapshot, xs + ys) && Yields(left, snapshot, xs) && Yields(right, snapshot, ys)
    ensures var one, two := EvaluateAll(tk, pre + [whole] + post, snapshot),
                            EvaluateAll(tk, pre + [left, right] + post, snapshot);
            && one.Ok? == two.Ok?
            && (one.Ok? ==> one.value == two.value)
  {
    var f := EvaluateOn(tk, snapshot);
    SplitEvaluate(tk, whole, left, right, snapshot, xs, ys);
    SplitTraverse(f, pre, post, whole, left, right);
  }

  lemma SplitTraverse<T, U, E>(f: T -> Result<seq<U>, E>, pre: seq<T>, post: seq<T>, whole: T, left: T, right: T)
    requires f(whole).Ok? <==> f(left).Ok? && f(right).Ok?
    requires f(whole).Ok? ==> f(whole).value == f(left).value + f(right).value
    ensures var one, two := Traverse(f, pre + [whole] + post), Traverse(f, pre + [left, right] + post);
            && one.Ok? == two.Ok?
            && (one.Ok? ==> one.value == two.value)
  {
    TraverseConcat(f, pre + [whole], post);
    TraverseConcat(f, pre, [whole]);
    TraverseConcat(f, pre + [left, right], post);
    TraverseConcat(f, pre, [left, right]);
    TraverseConcat(f, [left], [right]);
    TraverseSingle(f, whole);
    TraverseSingle(f, left);
    TraverseSingle(f, right);
    assert [left] + [right] == [left, right];
  }

  lemma SplitEvaluate(tk: Tekton, whole: Program, left: Program, right: Program, snapshot: Run,
                      xs: seq<Native>, ys: seq<Native>)
    requires Yields(whole, snapshot, xs + ys) && Yields(left, snapshot, xs) && Yields(right, snapshot, ys)
    ensures var w, l, r := Evaluate(tk, whole, snapshot), Evaluate(tk, left, snapshot), Evaluate(tk, right, snapshot);
            && (w.Ok? <==> l.Ok? && r.Ok?)
            && (w.Ok? ==> w.value == l.value + r.value)
  {
    TraverseConcat(ConvertItem, xs, ys);
    ConvertByItems(whole(snapshot).value, xs + ys);
    ConvertByItems(left(snapshot).value, xs);
    ConvertByItems(right(snapshot).value, ys);
    var a, b := ConvertList(xs), ConvertList(ys);
    if a.Ok? && b.Ok? {
      FirstInvalidConcat(a.value, b.value);
    }
  }

  lemma FirstInvalidConcat(a: seq<MutationRequest>, b: seq<MutationRequest>)
    ensures FirstInvalid(a + b).None? <==> FirstInvalid(a).None? && FirstInvalid(b).None?
  {
    var c := a + b;
    assert forall i :: 0 <= i < |a| ==> c[i] == a[i];
    assert forall i :: 0 <= i < |b| ==> c[|a| + i] == b[i];
  }
}

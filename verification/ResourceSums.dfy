/** The arithmetic of resource requests: exact sums, refusals and order independence. */
module ResourceSums {
  import opened Prelude
  import opened Runs
  import opened Requests
  import opened Evaluator
  import opened Decimal
  import opened Mutator
  import opened FoldTheory

  // ------------------------------------------------------- annotations as numbers

  /** What a resource annotation is worth: nothing, a 64-bit int, or no int at all. */
  datatype Cell = Absent | Int(n: int) | Garbage

  function CellOf(text: Option<string>): Cell {
    if text.None? then Absent
    else
      var n := Atoi(text.value);
      if n.Some? then Int(n.value) else Garbage
  }

  predicate IsPlain(m: MutationRequest, k: string) {
    m.kind == Annotation && m.key == k
  }

  predicate IsResource(m: MutationRequest, k: string) {
    m.kind == Resource && m.key == k
  }

  predicate NoPlain(ms: seq<MutationRequest>, k: string) {
    forall i :: 0 <= i < |ms| ==> !IsPlain(ms[i], k)
  }

  /** The numbers the resource requests for `k` carry, in order; None for a value that is no int. */
  function Amounts(ms: seq<MutationRequest>, k: string): (vs: seq<Option<int>>)
    ensures forall i :: 0 <= i < |vs| && vs[i].Some? ==> InInt64(vs[i].value)
  {
    if ms == [] then []
    else (if IsResource(ms[0], k) then [Atoi(ms[0].value)] else []) + Amounts(ms[1..], k)
  }

  function Sum(vs: seq<Option<int>>): int {
    if vs == [] then 0 else (if vs[0].Some? then vs[0].value else 0) + Sum(vs[1..])
  }

  /** The summing rule on numbers, wrap-around included. */
  function CellStep(c: Cell, v: Option<int>): Option<Cell> {
    if v.None? then None
    else match c
      case Absent => Some(Int(v.value))
      case Garbage => None
      case Int(n) => if n < 0 then None else Some(Int(Wrap64(n + v.value)))
  }

  function CellAfter(c: Cell, vs: seq<Option<int>>): Option<Cell>
    decreases vs
  {
    if vs == [] then Some(c)
    else
      var next := CellStep(c, vs[0]);
      if next.None? then None else CellAfter(next.value, vs[1..])
  }

  lemma StoredCell(n: int)
    requires InInt64(n)
    ensures CellOf(Some(Itoa(n))) == Int(n)
  {
    AtoiItoa(n);
  }

  lemma StepFromNothing(value: string)
    requires Atoi(value).Some?
    ensures AddResource(None, value) == Ok(Itoa(Atoi(value).value))
    ensures CellOf(Some(Itoa(Atoi(value).value))) == Int(Atoi(value).value)
  {
    StoredCell(Atoi(value).value);
  }

  lemma StepFromText(text: string, value: string, e: int, n: int)
    requires Atoi(text) == Some(e) && Atoi(value) == Some(n) && e >= 0
    ensures AddResource(Some(text), value) == Ok(Itoa(Wrap64(n + e)))
  {
  }

  lemma StepOnCells(base: Option<string>, value: string)
    ensures var r, c := AddResource(base, value), CellStep(CellOf(base), Atoi(value));
            if r.Err? then c.None?
            else c.Some? && c.value.Int? && CellOf(Some(r.value)) == c.value && r.value == Itoa(c.value.n)
  {
    if Atoi(value).Some? {
      if base.None? {
        StepFromNothing(value);
      } else if Atoi(base.value).Some? && Atoi(base.value).value >= 0 {
        var e, n := Atoi(base.value).value, Atoi(value).value;
        StepFromText(base.value, value, e, n);
        StoredCell(Wrap64(n + e));
      }
    }
  }

  lemma AnnotationStepOnCells(base: Option<string>, m: MutationRequest, k: string)
    requires IsResource(m, k)
    ensures var next := AnnotationStep(base, m, k);
            && (next.Ok? <==> CellStep(CellOf(base), Atoi(m.value)).Some?)
            && (next.Ok? ==> Some(CellOf(next.value)) == CellStep(CellOf(base), Atoi(m.value)))
            && (next.Ok? ==> CellOf(next.value).Int? && next.value == Some(Itoa(CellOf(next.value).n)))
  {
    StepOnCells(base, m.value);
  }

  /** The string computation is the number computation, printed. */
  lemma {:induction false} TextRefinesCells(base: Option<string>, ms: seq<MutationRequest>, k: string)
    requires NoPlain(ms, k)
    ensures var r, c := AnnotationAfter(base, ms, k), CellAfter(CellOf(base), Amounts(ms, k));
            && (r.Ok? <==> c.Some?)
            && (r.Ok? ==> CellOf(r.value) == c.value)
            && (r.Ok? && Amounts(ms, k) == [] ==> r.value == base)
            && (r.Ok? && Amounts(ms, k) != [] ==> c.value.Int? && r.value == Some(Itoa(c.value.n)))
    decreases ms
  {
    if ms != [] {
      assert NoPlain(ms[1..], k) && !IsPlain(ms[0], k);
      if IsResource(ms[0], k) {
        AnnotationStepOnCells(base, ms[0], k);
        assert Amounts(ms, k)[1..] == Amounts(ms[1..], k);
        var next := AnnotationStep(base, ms[0], k);
        if next.Ok? {
          TextRefinesCells(next.value, ms[1..], k);
        }
      } else {
        assert Amounts(ms, k) == Amounts(ms[1..], k);
        TextRefinesCells(base, ms[1..], k);
      }
    }
  }

  // ----------------------------------------------------------------- exactness

  function Worth(c: Cell): int {
    if c.Int? then c.n else 0
  }

  predicate Good(c: Cell) {
    c.Absent? || (c.Int? && 0 <= c.n < TWO_63)
  }

  predicate InRange(c: Cell) {
    c.Int? ==> InInt64(c.n)
  }

  predicate AllInt64(vs: seq<Option<int>>) {
    forall i :: 0 <= i < |vs| && vs[i].Some? ==> InInt64(vs[i].value)
  }

  /** A wrapped sum is negative, and a negative sum is refused by the next request or stays negative. */
  lemma {:induction false} CellSumIsExact(c: Cell, vs: seq<Option<int>>)
    requires vs != [] && InRange(c) && AllInt64(vs)
    requires CellAfter(c, vs).Some? && Worth(CellAfter(c, vs).value) >= 0
    ensures Good(c)
    ensures CellAfter(c, vs) == Some(Int(Worth(c) + Sum(vs)))
    ensures 0 <= Worth(c) + Sum(vs) < TWO_63
    decreases vs
  {
    var next := CellStep(c, vs[0]).value;
    if c.Int? {
      WrapIsExactOrNegative(c.n, vs[0].value);
    }
    if |vs| > 1 {
      CellSumIsExact(next, vs[1..]);
    } else {
      assert vs[1..] == [];
    }
  }

  /**
    Exact sums: when the requests for `k` are accepted and the annotation ends up non-negative,
    it is the mathematical sum of the base and of every request, whatever their values.
   */
  lemma SumIsExact(base: Option<string>, ms: seq<MutationRequest>, k: string)
    requires NoPlain(ms, k) && Amounts(ms, k) != []
    requires AnnotationAfter(base, ms, k).Ok? && Worth(CellOf(AnnotationAfter(base, ms, k).value)) >= 0
    ensures Good(CellOf(base))
    ensures var n := Worth(CellOf(base)) + Sum(Amounts(ms, k));
            0 <= n < TWO_63 && AnnotationAfter(base, ms, k) == Ok(Some(Itoa(n)))
  {
    TextRefinesCells(base, ms, k);
    CellInRange(base);
    CellSumIsExact(CellOf(base), Amounts(ms, k));
  }

  lemma CellInRange(base: Option<string>)
    ensures InRange(CellOf(base))
  {
  }

  // ----------------------------------------------------------------- acceptance

  /** Amounts as the `resource` function builds them. */
  predicate NonNegative(vs: seq<Option<int>>) {
    forall i :: 0 <= i < |vs| ==> vs[i].Some? && vs[i].value >= 0
  }

  lemma {:induction false} SumNonNegative(vs: seq<Option<int>>)
    requires NonNegative(vs)
    ensures Sum(vs) >= 0
  {
    if vs != [] {
      SumNonNegative(vs[1..]);
    }
  }

  lemma {:induction false} FittingSum(c: Cell, vs: seq<Option<int>>)
    requires vs != [] && Good(c) && NonNegative(vs) && Worth(c) + Sum(vs) < TWO_63
    ensures CellAfter(c, vs) == Some(Int(Worth(c) + Sum(vs)))
    decreases vs
  {
    SumNonNegative(vs[1..]);
    if |vs| > 1 {
      FittingSum(CellStep(c, vs[0]).value, vs[1..]);
    } else {
      assert vs[1..] == [];
    }
  }

  predicate AcceptedNonNegative(r: Result<Option<string>, ApplyError>) {
    r.Ok? && CellOf(r.value).Int? && CellOf(r.value).n >= 0
  }

  /** Built requests end in a non-negative annotation exactly when the base is good and the sum fits in 64 bits. */
  lemma AcceptedIff(base: Option<string>, ms: seq<MutationRequest>, k: string)
    requires NoPlain(ms, k) && Amounts(ms, k) != [] && NonNegative(Amounts(ms, k))
    ensures AcceptedNonNegative(AnnotationAfter(base, ms, k)) <==>
            Good(CellOf(base)) && Worth(CellOf(base)) + Sum(Amounts(ms, k)) < TWO_63
  {
    TextRefinesCells(base, ms, k);
    CellInRange(base);
    var c, vs := CellOf(base), Amounts(ms, k);
    if AcceptedNonNegative(AnnotationAfter(base, ms, k)) {
      CellSumIsExact(c, vs);
    }
    if Good(c) && Worth(c) + Sum(vs) < TWO_63 {
      FittingSum(c, vs);
      SumNonNegative(vs);
    }
  }

  /** The webhook itself lets an overflow through: two requests of 2^62 leave a negative annotation behind. */
  lemma OverflowReachesTheAnnotation(k: string)
    ensures var m := MutationRequest(Resource, k, Itoa(TWO_63 / 2));
            AnnotationAfter(None, [m, m], k) == Ok(Some(Itoa(-TWO_63)))
  {
    var half := TWO_63 / 2;
    var m := MutationRequest(Resource, k, Itoa(half));
    AtoiItoa(half);
    assert [m, m][1..] == [m] && [m][1..] == [];
    assert Amounts([m], k) == [Some(half)];
    assert Amounts([m, m], k) == [Some(half), Some(half)];
    OverflowOnCells(half);
    TextRefinesCells(None, [m, m], k);
  }

  lemma OverflowOnCells(half: int)
    requires half == TWO_63 / 2
    ensures CellAfter(Absent, [Some(half), Some(half)]) == Some(Int(-TWO_63))
  {
    assert [Some(half), Some(half)][1..] == [Some(half)] && [Some(half)][1..] == [];
    assert Wrap64(half + half) == -TWO_63;
    assert CellAfter(Int(half), [Some(half)]) == CellAfter(Int(-TWO_63), []);
  }

  /**
    Past 64 bits the order does matter: the same amounts are refused in one order and stored as a
    negative in another.
   */
  lemma OverflowIsOrderDependent(half: int)
    requires half == TWO_63 / 2
    ensures CellAfter(Absent, [Some(half), Some(half), Some(0)]) == None
    ensures CellAfter(Absent, [Some(half), Some(0), Some(half)]) == Some(Int(-TWO_63))
  {
    var h, z := Some(half), Some(0);
    assert [h, h, z][1..] == [h, z] && [h, z][1..] == [z] && [h, z, h][1..] == [z, h] && [z, h][1..] == [h];
    assert [h][1..] == [];
    assert Wrap64(half + half) == -TWO_63;
    assert CellAfter(Int(half), [h, z]) == CellAfter(Int(-TWO_63), [z]);
    assert CellAfter(Int(half), [z, h]) == CellAfter(Int(half), [h]);
    assert CellAfter(Int(half), [h]) == CellAfter(Int(-TWO_63), []);
  }

  // ----------------------------------------------------------------- plain writes

  /** How many requests there are up to and including the last plain write of `k`. */
  function PlainCut(ms: seq<MutationRequest>, k: string): (n: nat)
    ensures n <= |ms|
    ensures forall i :: n <= i < |ms| ==> !IsPlain(ms[i], k)
    ensures n > 0 ==> IsPlain(ms[n - 1], k)
  {
    if ms == [] then 0
    else if IsPlain(ms[|ms| - 1], k) then |ms|
    else PlainCut(ms[..|ms| - 1], k)
  }

  /** The text the later resource requests start from: the last plain write, else the user's own. */
  function StartText(user: Option<string>, ms: seq<MutationRequest>, k: string): Option<string> {
    var n := PlainCut(ms, k);
    if n == 0 then user else Some(ms[n - 1].value)
  }

  lemma {:induction false} AnnotationConcat(base: Option<string>, ms: seq<MutationRequest>,
                                            ns: seq<MutationRequest>, k: string)
    ensures var a := AnnotationAfter(base, ms, k);
            AnnotationAfter(base, ms + ns, k) == if a.Err? then a else AnnotationAfter(a.value, ns, k)
    decreases ms
  {
    if ms == [] {
      assert ms + ns == ns;
    } else {
      assert (ms + ns)[1..] == ms[1..] + ns;
      var next := AnnotationStep(base, ms[0], k);
      if next.Ok? {
        AnnotationConcat(next.value, ms[1..], ns, k);
      }
    }
  }

  lemma PlainWriteForgets(user: Option<string>, pre: seq<MutationRequest>, m: MutationRequest, k: string)
    requires IsPlain(m, k)
    ensures var a := AnnotationAfter(user, pre, k);
            AnnotationAfter(user, pre + [m], k) == if a.Err? then a else Ok(Some(m.value))
  {
    AnnotationConcat(user, pre, [m], k);
    assert [m][1..] == [];
  }

  /** Up to the last plain write of `k` the list leaves an error or the text it wrote. */
  lemma UpToPlainCut(base: Option<string>, ms: seq<MutationRequest>, k: string)
    ensures var head := AnnotationAfter(base, ms[..PlainCut(ms, k)], k);
            && (head.Ok? ==> head.value == StartText(base, ms, k))
            && AnnotationAfter(base, ms, k) ==
               if head.Err? then head else AnnotationAfter(StartText(base, ms, k), ms[PlainCut(ms, k)..], k)
  {
    var n := PlainCut(ms, k);
    assert ms == ms[..n] + ms[n..];
    AnnotationConcat(base, ms[..n], ms[n..], k);
    if n > 0 {
      assert ms[..n] == ms[..n - 1] + [ms[n - 1]];
      PlainWriteForgets(base, ms[..n - 1], ms[n - 1], k);
    }
  }

  /** When all requests are accepted, only those after the last plain write matter. */
  lemma AfterLastPlainWrite(user: Option<string>, ms: seq<MutationRequest>, k: string)
    requires AnnotationAfter(user, ms, k).Ok?
    ensures AnnotationAfter(user, ms, k) == AnnotationAfter(StartText(user, ms, k), ms[PlainCut(ms, k)..], k)
  {
    UpToPlainCut(user, ms, k);
  }

  // ----------------------------------------------------------------- permutations

  lemma {:induction false} SumConcat(vs: seq<Option<int>>, ws: seq<Option<int>>)
    ensures Sum(vs + ws) == Sum(vs) + Sum(ws)
  {
    if vs == [] {
      assert vs + ws == ws;
    } else {
      assert (vs + ws)[1..] == vs[1..] + ws;
      SumConcat(vs[1..], ws);
    }
  }

  lemma AroundOne<T>(left: seq<T>, x: T, right: seq<T>)
    ensures multiset(left + [x] + right) == multiset(left + right) + multiset{x}
  {
  }

  lemma Cancel<T>(a: multiset<T>, b: multiset<T>, x: T)
    requires a + multiset{x} == b + multiset{x}
    ensures a == b
  {
    assert a == (a + multiset{x}) - multiset{x};
  }

  /** The first element of a sequence, taken out of a permutation of it. */
  lemma TakeOut<T>(vs: seq<T>, ws: seq<T>) returns (j: nat)
    requires vs != [] && multiset(vs) == multiset(ws)
    ensures j < |ws| && ws[j] == vs[0]
    ensures multiset(vs[1..]) == multiset(ws[..j] + ws[j + 1..])
  {
    assert vs[0] in multiset(ws);
    j :| 0 <= j < |ws| && ws[j] == vs[0];
    assert vs == [] + [vs[0]] + vs[1..] && [] + vs[1..] == vs[1..];
    assert ws == ws[..j] + [ws[j]] + ws[j + 1..];
    AroundOne([], vs[0], vs[1..]);
    AroundOne(ws[..j], ws[j], ws[j + 1..]);
    Cancel(multiset(vs[1..]), multiset(ws[..j] + ws[j + 1..]), vs[0]);
  }

  lemma {:induction false} SumOfPermutation(vs: seq<Option<int>>, ws: seq<Option<int>>)
    requires multiset(vs) == multiset(ws)
    ensures Sum(vs) == Sum(ws)
    decreases |vs|
  {
    if vs == [] {
      assert |multiset(ws)| == 0;
    } else {
      var j := TakeOut(vs, ws);
      var left, right := ws[..j], ws[j + 1..];
      SumOfPermutation(vs[1..], left + right);
      SumConcat(left, right);
      SumConcat(left, [ws[j]] + right);
      assert ws == left + ([ws[j]] + right);
      assert ([ws[j]] + right)[1..] == right;
    }
  }

  /** Only built resource requests for `k`, on a base and a total that fit. */
  ghost predicate Summable(base: Option<string>, ms: seq<MutationRequest>, k: string) {
    && NoPlain(ms, k) && NonNegative(Amounts(ms, k))
    && Good(CellOf(base)) && Worth(CellOf(base)) + Sum(Amounts(ms, k)) < TWO_63
  }

  lemma SummablePermutation(base: Option<string>, ms: seq<MutationRequest>, ns: seq<MutationRequest>, k: string)
    requires Summable(base, ms, k) && NoPlain(ns, k)
    requires multiset(Amounts(ms, k)) == multiset(Amounts(ns, k))
    ensures AnnotationAfter(base, ms, k) == AnnotationAfter(base, ns, k)
  {
    var vs, ws := Amounts(ms, k), Amounts(ns, k);
    TextRefinesCells(base, ms, k);
    TextRefinesCells(base, ns, k);
    PermutedCells(CellOf(base), vs, ws);
  }

  lemma PermutedCells(c: Cell, vs: seq<Option<int>>, ws: seq<Option<int>>)
    requires Good(c) && NonNegative(vs) && Worth(c) + Sum(vs) < TWO_63
    requires multiset(vs) == multiset(ws)
    ensures CellAfter(c, vs) == CellAfter(c, ws) && CellAfter(c, vs).Some?
    ensures vs == [] <==> ws == []
  {
    SumOfPermutation(vs, ws);
    assert |vs| == |multiset(vs)| == |multiset(ws)| == |ws|;
    forall i | 0 <= i < |ws| ensures ws[i] in vs {
      assert ws[i] in multiset(ws);
    }
    if vs != [] {
      FittingSum(c, vs);
      FittingSum(c, ws);
    }
  }

  /** The same requests, or the same up to the last plain write and then a permutation of built requests that fits. */
  ghost predicate SameOrPermuted(base: Option<string>, p: seq<MutationRequest>, q: seq<MutationRequest>, k: string) {
    var m, n := PlainCut(p, k), PlainCut(q, k);
    || p == q
    || (&& p[..m] == q[..n]
        && Summable(StartText(base, p, k), p[m..], k)
        && multiset(Amounts(p[m..], k)) == multiset(Amounts(q[n..], k)))
  }

  lemma PermutedTail(base: Option<string>, p: seq<MutationRequest>, q: seq<MutationRequest>, k: string)
    requires SameOrPermuted(base, p, q, k)
    ensures AnnotationAfter(base, p, k) == AnnotationAfter(base, q, k)
  {
    if p != q {
      var m, n := PlainCut(p, k), PlainCut(q, k);
      assert m == |p[..m]| == |q[..n]| == n;
      if n > 0 {
        assert p[n - 1] == p[..n][n - 1] == q[..n][n - 1] == q[n - 1];
      }
      assert StartText(base, p, k) == StartText(base, q, k);
      UpToPlainCut(base, p, k);
      UpToPlainCut(base, q, k);
      SummablePermutation(StartText(base, p, k), p[m..], q[n..], k);
    }
  }

  /**
    Reordering: labels and managedBy see their requests in the same order, and each annotation
    either does too or sees, after its last plain write, a permutation of built resource requests
    whose sum with the start value fits in 64 bits.
   */
  lemma ResourceReordering(run: Run, ms: seq<MutationRequest>, ns: seq<MutationRequest>)
    requires forall t: Target :: !t.OnAnnotation? ==> Project(ms, t) == Project(ns, t)
    requires forall k :: SameOrPermuted(Get(run.annotations, k), Project(ms, OnAnnotation(k)),
                                        Project(ns, OnAnnotation(k)), k)
    ensures SameOutcome(Fold(run, ms), Fold(run, ns))
  {
    forall k
      ensures AnnotationAfter(Get(run.annotations, k), ms, k) == AnnotationAfter(Get(run.annotations, k), ns, k)
    {
      var base, p, q := Get(run.annotations, k), Project(ms, OnAnnotation(k)), Project(ns, OnAnnotation(k));
      ProjectedAnnotation(base, ms, k);
      ProjectedAnnotation(base, ns, k);
      PermutedTail(base, p, q, k);
    }
    SameProjectionSameWrite(ms, ns);
    FoldDetermined(run, ms, ns);
  }
}

/** From annotations to Kueue resource requests (internal/controller/pipelinerun_controller.go). */
module Quota {
  import opened Prelude
  import opened Runs
  import opened Requests
  import opened Decimal

  /** The synthetic resource that counts PipelineRuns. */
  const TOKEN := "tekton.dev/pipelineruns"

  datatype QuotaError = EmptyName | TokenOverride | BadQuantity | NegativeQuantity

  /** `resource.ParseQuantity`, taken as given. */
  type QuantityParser = string -> Option<real>

  /** The one thing assumed of it: decimal ints are read as themselves. */
  ghost predicate ReadsInts(parse: QuantityParser) {
    forall n: int :: InInt64(n) ==> parse(Itoa(n)) == Some(n as real)
  }

  datatype Entry = Entry(name: string, quantity: real)

  function CutPrefix(k: string): (t: Option<string>)
    ensures t.Some? <==> REQUESTS_PREFIX <= k
    ensures t.Some? ==> k == REQUESTS_PREFIX + t.value
  {
    if REQUESTS_PREFIX <= k then Some(k[|REQUESTS_PREFIX|..]) else None
  }

  /** `parseResourcesRequestsAnnotation`; Ok(None) is an annotation of another kind. */
  function ParseAnnotation(parse: QuantityParser, k: string, v: string): Result<Option<Entry>, QuotaError> {
    var t := CutPrefix(k);
    if t.None? then Ok(None)
    else if t.value == "" then Err(EmptyName)
    else if t.value == TOKEN then Err(TokenOverride)
    else
      var q := parse(v);
      if q.None? then Err(BadQuantity)
      else if q.value < 0.0 then Err(NegativeQuantity)
      else Ok(Some(Entry(t.value, q.value)))
  }

  predicate Accepts(parse: QuantityParser, annotations: map<string, string>) {
    forall k :: k in annotations ==> ParseAnnotation(parse, k, annotations[k]).Ok?
  }

  /**
    What the parser makes of one annotation: other keys are ignored, request keys need a name, not
    the token's, and a quantity.
   */
  lemma ParseAnnotationMeaning(parse: QuantityParser, k: string, v: string, t: string)
    ensures !(REQUESTS_PREFIX <= k) ==> ParseAnnotation(parse, k, v) == Ok(None)
    ensures k == REQUESTS_PREFIX + t ==>
              ParseAnnotation(parse, k, v) ==
              if t == "" then Err(EmptyName)
              else if t == "tekton.dev/pipelineruns" then Err(TokenOverride)
              else if parse(v).None? then Err(BadQuantity)
              else if parse(v).value < 0.0 then Err(NegativeQuantity)
              else Ok(Some(Entry(t, parse(v).value)))
  {
    assert (REQUESTS_PREFIX + t)[|REQUESTS_PREFIX|..] == t;
  }

  /**
    Annotations are accepted exactly when every request key names a resource other than the token
    and carries a non-negative quantity.
   */
  lemma AcceptsIff(parse: QuantityParser, annotations: map<string, string>)
    ensures Accepts(parse, annotations) <==>
            forall t :: REQUESTS_PREFIX + t in annotations ==>
              && t != "" && t != "tekton.dev/pipelineruns"
              && parse(annotations[REQUESTS_PREFIX + t]).Some?
              && parse(annotations[REQUESTS_PREFIX + t]).value >= 0.0
  {
    if Accepts(parse, annotations) {
      forall t | REQUESTS_PREFIX + t in annotations
        ensures t != "" && t != "tekton.dev/pipelineruns"
        ensures parse(annotations[REQUESTS_PREFIX + t]).Some? && parse(annotations[REQUESTS_PREFIX + t]).value >= 0.0
      {
        ParseAnnotationMeaning(parse, REQUESTS_PREFIX + t, annotations[REQUESTS_PREFIX + t], t);
      }
    } else {
      var k :| k in annotations && ParseAnnotation(parse, k, annotations[k]).Err?;
      var t := CutPrefix(k);
      ParseAnnotationMeaning(parse, k, annotations[k], if t.Some? then t.value else "");
      assert t.Some? && REQUESTS_PREFIX + t.value in annotations;
    }
  }

  /** The request list, read off the annotations without any iteration order; no annotation claims the token. */
  ghost predicate IsRequestList(parse: QuantityParser, annotations: map<string, string>, m: map<string, real>) {
    && TOKEN in m && m[TOKEN] == 1.0
    && (forall t :: t != TOKEN ==> (t in m <==> REQUESTS_PREFIX + t in annotations))
    && (forall t :: t != TOKEN && t in m ==> parse(annotations[REQUESTS_PREFIX + t]) == Some(m[t]) && m[t] >= 0.0)
    && "" !in m
    && REQUESTS_PREFIX + TOKEN !in annotations
  }

  /** There is only one such list. */
  lemma RequestListUnique(parse: QuantityParser, annotations: map<string, string>,
                          m: map<string, real>, n: map<string, real>)
    requires IsRequestList(parse, annotations, m) && IsRequestList(parse, annotations, n)
    ensures m == n
  {
  }

  function Annotations(run: Run): map<string, string> {
    if run.annotations.None? then map[] else run.annotations.value
  }

  /** What the loop has collected from the keys it has visited. */
  ghost predicate Collected(parse: QuantityParser, annotations: map<string, string>,
                            todo: set<string>, m: map<string, real>)
  {
    && TOKEN in m && m[TOKEN] == 1.0
    && (forall t :: t != TOKEN ==> (t in m <==> REQUESTS_PREFIX + t in annotations && REQUESTS_PREFIX + t !in todo))
    && (forall t :: t != TOKEN && t in m ==> parse(annotations[REQUESTS_PREFIX + t]) == Some(m[t]) && m[t] >= 0.0)
    && "" !in m
  }

  lemma CollectOne(parse: QuantityParser, annotations: map<string, string>,
                   todo: set<string>, m: map<string, real>, k: string)
    requires k in todo && todo <= annotations.Keys
    requires Collected(parse, annotations, todo, m)
    requires ParseAnnotation(parse, k, annotations[k]).Ok?
    ensures var e := ParseAnnotation(parse, k, annotations[k]).value;
            Collected(parse, annotations, todo - {k}, if e.Some? then m[e.value.name := e.value.quantity] else m)
  {
  }

  /**
    `resourcesRequests`: Go ranges over the annotation map in any order, and so does this loop.
    It fails exactly when some annotation is bad, and otherwise returns the one request list.
   */
  method ResourcesRequests(parse: QuantityParser, run: PipelineRun) returns (r: Result<map<string, real>, QuotaError>)
    ensures r.Ok? <==> Accepts(parse, Annotations(run.View()))
    ensures r.Ok? ==> IsRequestList(parse, Annotations(run.View()), r.value)
    ensures r.Err? ==>
              var annotations := Annotations(run.View());
              exists k :: k in annotations && ParseAnnotation(parse, k, annotations[k]) == Err(r.error)
  {
    var requests := map[TOKEN := 1.0];
    var annotations := Annotations(run.View());
    var todo := annotations.Keys;
    assert TOKEN != "";
    while todo != {}
      invariant todo <= annotations.Keys
      invariant forall k :: k in annotations && k !in todo ==> ParseAnnotation(parse, k, annotations[k]).Ok?
      invariant Collected(parse, annotations, todo, requests)
      decreases todo
    {
      var k :| k in todo;
      var e := ParseAnnotation(parse, k, annotations[k]);
      if e.Err? {
        return Err(e.error);
      }
      CollectOne(parse, annotations, todo, requests, k);
      if e.value.Some? {
        requests := requests[e.value.value.name := e.value.value.quantity];
      }
      todo := todo - {k};
    }
    var claim := REQUESTS_PREFIX + TOKEN;
    assert claim[|REQUESTS_PREFIX|..] == TOKEN;
    assert claim in annotations ==> ParseAnnotation(parse, claim, annotations[claim]).Err?;
    return Ok(requests);
  }

  /** A decimal int in a request annotation is accepted exactly when non-negative, and then requested as it is. */
  lemma IntAnnotation(parse: QuantityParser, name: string, n: int)
    requires ReadsInts(parse) && InInt64(n) && name != "" && name != TOKEN
    ensures ParseAnnotation(parse, REQUESTS_PREFIX + name, Itoa(n)) ==
            if n < 0 then Err(NegativeQuantity) else Ok(Some(Entry(name, n as real)))
  {
    assert (REQUESTS_PREFIX + name)[|REQUESTS_PREFIX|..] == name;
    assert parse(Itoa(n)) == Some(n as real);
  }
}

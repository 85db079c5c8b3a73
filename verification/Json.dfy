/**
  JSON values, JSON Pointers (sections 3 and 4 of RFC 6901) and the add, remove
  and replace operations (sections 4.1 to 4.3 of RFC 6902).
 */
module Json {
  import opened Prelude
  import Decimal

  datatype Value =
    | Null
    | Bool(b: bool)
    | Num(n: real)
    | Str(s: string)
    | Arr(items: seq<Value>)
    | Obj(fields: map<string, Value>)

  // ---------------------------------------------------------------- pointers

  /** Section 3: `~` is written `~0` and `/` is written `~1`. */
  function Escape(token: string): string {
    if token == [] then []
    else (if token[0] == '~' then "~0" else if token[0] == '/' then "~1" else [token[0]]) + Escape(token[1..])
  }

  /** Section 4: a `~` must be followed by `0` or `1`. */
  function Unescape(raw: string): Option<string> {
    if raw == [] then Some([])
    else if raw[0] == '~' then
      if |raw| < 2 || raw[1] !in {'0', '1'} then None
      else
        var tail := Unescape(raw[2..]);
        if tail.None? then None else Some([if raw[1] == '0' then '~' else '/'] + tail.value)
    else
      var tail := Unescape(raw[1..]);
      if tail.None? then None else Some([raw[0]] + tail.value)
  }

  function Render(tokens: seq<string>): string {
    if tokens == [] then [] else "/" + Escape(tokens[0]) + Render(tokens[1..])
  }

  /** Position of the first `/` at or after `i`, or the end. */
  function TokenEnd(s: string, i: nat): (e: nat)
    requires i <= |s|
    ensures i <= e <= |s|
    ensures e < |s| ==> s[e] == '/'
    ensures forall j :: i <= j < e ==> s[j] != '/'
    decreases |s| - i
  {
    if i == |s| || s[i] == '/' then i else TokenEnd(s, i + 1)
  }

  /** Reads a pointer: empty, or `/`-prefixed escaped tokens. */
  function Parse(path: string): Option<seq<string>>
    decreases |path|
  {
    if path == [] then Some([])
    else if path[0] != '/' then None
    else
      var e := TokenEnd(path, 1);
      var token := Unescape(path[1..e]);
      var tail := Parse(path[e..]);
      if token.None? || tail.None? then None else Some([token.value] + tail.value)
  }

  lemma {:induction false} EscapeHasNoSlash(token: string)
    ensures '/' !in Escape(token)
  {
    if token != [] {
      EscapeHasNoSlash(token[1..]);
    }
  }

  lemma {:induction false} UnescapeEscape(token: string)
    ensures Unescape(Escape(token)) == Some(token)
  {
    if token != [] {
      UnescapeEscape(token[1..]);
      var raw := Escape(token);
      assert token == [token[0]] + token[1..];
      if token[0] == '~' || token[0] == '/' {
        assert raw[2..] == Escape(token[1..]);
      } else {
        assert raw[1..] == Escape(token[1..]);
      }
    }
  }

  /** Escaping works character by character: `~` becomes `~0`, `/` becomes `~1`, all else stays. */
  lemma {:induction false} EscapeByCharacter(a: string, b: string)
    ensures Escape(a + b) == Escape(a) + Escape(b)
    ensures |a| == 1 ==> Escape(a) == if a == "~" then "~0" else if a == "/" then "~1" else a
  {
    if a == [] {
      assert a + b == b;
    } else {
      assert (a + b)[1..] == a[1..] + b;
      EscapeByCharacter(a[1..], b);
      if |a| == 1 {
        assert a[1..] == [] && a == [a[0]];
      }
    }
  }

  lemma TokenEndAt(s: string, i: nat, e: nat)
    requires i <= e <= |s|
    requires forall j :: i <= j < e ==> s[j] != '/'
    requires e == |s| || s[e] == '/'
    ensures TokenEnd(s, i) == e
  {
  }

  /** Rendering then parsing a token path gives the path back. */
  lemma {:induction false} ParseRender(tokens: seq<string>)
    ensures Parse(Render(tokens)) == Some(tokens)
  {
    if tokens != [] {
      var raw, tail := Escape(tokens[0]), Render(tokens[1..]);
      var path := Render(tokens);
      assert path == "/" + raw + tail;
      ParseRender(tokens[1..]);
      EscapeHasNoSlash(tokens[0]);
      UnescapeEscape(tokens[0]);
      var e := 1 + |raw|;
      assert path[1..e] == raw && path[e..] == tail;
      forall j | 1 <= j < e ensures path[j] != '/' {
        assert path[j] == raw[j - 1];
      }
      TokenEndAt(path, 1, e);
      assert tokens == [tokens[0]] + tokens[1..];
    }
  }

  lemma {:induction false} EscapeUnescape(raw: string)
    requires '/' !in raw && Unescape(raw).Some?
    ensures Escape(Unescape(raw).value) == raw
  {
    if raw != [] {
      var skip := if raw[0] == '~' then 2 else 1;
      var tail := raw[skip..];
      EscapeUnescape(tail);
      var token := Unescape(raw).value;
      assert token[1..] == Unescape(tail).value;
      assert raw == raw[..skip] + tail;
      assert raw[0] != '/';
    }
  }

  /** Every pointer that parses is the rendering of its tokens, so pointers and token paths correspond one to one. */
  lemma {:induction false} RenderParse(path: string)
    requires Parse(path).Some?
    ensures Render(Parse(path).value) == path
    decreases |path|
  {
    if path != [] {
      var raw, tail := FirstToken(path);
      RenderParse(tail);
      EscapeUnescape(raw);
      RenderCons(Unescape(raw).value, Parse(tail).value);
    }
  }

  /** A non-empty pointer split at its first token. */
  lemma FirstToken(path: string) returns (raw: string, tail: string)
    requires path != [] && Parse(path).Some?
    ensures path == "/" + raw + tail && '/' !in raw
    ensures Unescape(raw).Some? && Parse(tail).Some?
    ensures Parse(path).value == [Unescape(raw).value] + Parse(tail).value
  {
    var e := TokenEnd(path, 1);
    raw, tail := path[1..e], path[e..];
  }

  lemma RenderCons(token: string, tokens: seq<string>)
    ensures Render([token] + tokens) == "/" + Escape(token) + Render(tokens)
  {
  }

  // ----------------------------------------------------------------- lookups

  /** Section 4: an array index is `0` or digits without a leading zero. */
  function ArrayIndex(token: string): (r: Option<nat>)
    ensures r.Some? ==> token == Decimal.Digits(r.value)
    ensures forall n: nat :: token == Decimal.Digits(n) ==> r == Some(n)
  {
    assert forall n: nat :: token == Decimal.Digits(n) ==> Decimal.DigitsValue(token) == n by {
      forall n: nat | token == Decimal.Digits(n) ensures Decimal.DigitsValue(token) == n {
        Decimal.DigitsRoundTrip(n);
      }
    }
    if token != [] && Decimal.AllDigits(token) && Decimal.Digits(Decimal.DigitsValue(token)) == token
    then Some(Decimal.DigitsValue(token))
    else None
  }

  function Child(doc: Value, token: string): Option<Value> {
    match doc
    case Obj(fields) => if token in fields then Some(fields[token]) else None
    case Arr(items) =>
      var i := ArrayIndex(token);
      if i.Some? && i.value < |items| then Some(items[i.value]) else None
    case _ => None
  }

  function Lookup(doc: Value, path: seq<string>): Option<Value>
    decreases path
  {
    if path == [] then Some(doc)
    else
      var child := Child(doc, path[0]);
      if child.None? then None else Lookup(child.value, path[1..])
  }

  // ----------------------------------------------------------------- patches

  datatype Op = Add | Remove | Replace

  datatype Patch = Patch(op: Op, path: string, value: Value)

  function InsertAt(items: seq<Value>, i: nat, v: Value): (r: seq<Value>)
    requires i <= |items|
    ensures |r| == |items| + 1 && r[i] == v
    ensures forall j :: 0 <= j < |items| ==> r[if j < i then j else j + 1] == items[j]
  {
    items[..i] + [v] + items[i..]
  }

  function RemoveAt(items: seq<Value>, i: nat): (r: seq<Value>)
    requires i < |items|
    ensures |r| == |items| - 1
    ensures forall j :: 0 <= j < |items| && j != i ==> r[if j < i then j else j - 1] == items[j]
  {
    items[..i] + items[i + 1..]
  }

  /** The operation on the member `token` of the container `doc`. */
  function EditMember(doc: Value, op: Op, token: string, v: Value): Option<Value> {
    match doc
    case Obj(fields) =>
      (match op
       case Add => Some(Obj(fields[token := v]))
       case Replace => if token in fields then Some(Obj(fields[token := v])) else None
       case Remove => if token in fields then Some(Obj(fields - {token})) else None)
    case Arr(items) =>
      var i := if op.Add? && token == "-" then Some(|items|) else ArrayIndex(token);
      if i.None? then None
      else (match op
            case Add => if i.value <= |items| then Some(Arr(InsertAt(items, i.value, v))) else None
            case Replace => if i.value < |items| then Some(Arr(items[i.value := v])) else None
            case Remove => if i.value < |items| then Some(Arr(RemoveAt(items, i.value))) else None)
    case _ => None
  }

  /** `doc` with the existing member `token` replaced by `v`. */
  function SetMember(doc: Value, token: string, v: Value): Value
    requires Child(doc, token).Some?
  {
    match doc
    case Obj(fields) => Obj(fields[token := v])
    case Arr(items) => Arr(items[ArrayIndex(token).value := v])
  }

  /** One operation; None when the target location does not exist. The root itself cannot be removed. */
  function ApplyAt(doc: Value, op: Op, path: seq<string>, v: Value): Option<Value>
    decreases path
  {
    if path == [] then
      if op.Remove? then None else Some(v)
    else if |path| == 1 then EditMember(doc, op, path[0], v)
    else
      var child := Child(doc, path[0]);
      if child.None? then None
      else
        var edited := ApplyAt(child.value, op, path[1..], v);
        if edited.None? then None else Some(SetMember(doc, path[0], edited.value))
  }

  function ApplyPatch(doc: Value, p: Patch): Option<Value> {
    var path := Parse(p.path);
    if path.None? then None else ApplyAt(doc, p.op, path.value, p.value)
  }

  /** Operations in order; the whole list fails when one of them does. */
  function ApplyAll(doc: Value, ps: seq<Patch>): Option<Value>
    decreases ps
  {
    if ps == [] then Some(doc)
    else
      var next := ApplyPatch(doc, ps[0]);
      if next.None? then None else ApplyAll(next.value, ps[1..])
  }
}

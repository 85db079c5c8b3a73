/** The patch filter around the admission handler (internal/webhook/v1/pipelinerun_webhook.go). */
module PatchFilter {
  import opened Prelude
  import opened Json

  const ALLOWED_PREFIXES := ["/metadata/labels", "/metadata/annotations", "/spec/status", "/spec/managedBy"]

  predicate Allowed(path: string) {
    exists i :: 0 <= i < |ALLOWED_PREFIXES| && ALLOWED_PREFIXES[i] <= path
  }

  /** `isPatchAllowed`. */
  method IsPatchAllowed(path: string) returns (ok: bool)
    ensures ok == Allowed(path)
  {
    for i := 0 to |ALLOWED_PREFIXES|
      invariant forall j :: 0 <= j < i ==> !(ALLOWED_PREFIXES[j] <= path)
    {
      if ALLOWED_PREFIXES[i] <= path {
        return true;
      }
    }
    return false;
  }

  function Filter(ps: seq<Patch>): seq<Patch> {
    if ps == [] then []
    else (if Allowed(ps[0].path) then [ps[0]] else []) + Filter(ps[1..])
  }

  lemma {:induction false} FilterSnoc(ps: seq<Patch>, p: Patch)
    ensures Filter(ps + [p]) == Filter(ps) + if Allowed(p.path) then [p] else []
  {
    if ps == [] {
      assert ps + [p] == [p] && [p][1..] == [];
    } else {
      assert (ps + [p])[1..] == ps[1..] + [p];
      FilterSnoc(ps[1..], p);
    }
  }

  lemma FilterNext(ps: seq<Patch>, i: nat)
    requires i < |ps|
    ensures Filter(ps[..i + 1]) == if Allowed(ps[i].path) then Filter(ps[..i]) + [ps[i]] else Filter(ps[..i])
  {
    assert ps[..i + 1] == ps[..i] + [ps[i]];
    FilterSnoc(ps[..i], ps[i]);
  }

  /** The read/write loop: allowed patches move down over the array they are read from. */
  method Compact(a: array<Patch>, count: nat) returns (n: nat)
    requires count <= a.Length
    modifies a
    ensures n <= count && a[..n] == Filter(old(a[..count]))
  {
    ghost var was := a[..count];
    n := 0;
    for i := 0 to count
      invariant n <= i
      invariant a[..n] == Filter(was[..i])
      invariant forall j :: i <= j < count ==> a[j] == was[j]
    {
      var p := a[i];
      FilterNext(was, i);
      var ok := IsPatchAllowed(p.path);
      if ok {
        a[n] := p;
        n := n + 1;
        assert a[..n] == a[..n - 1] + [p];
      }
    }
    assert was[..count] == was;
  }

  /** An admission response: `patches[..count]` is the slice. */
  class Response {
    var patches: array<Patch>
    var count: nat
    var patchType: Option<string>
    var patchBytes: Option<string>

    ghost predicate Valid()
      reads this
    {
      count <= patches.Length
    }

    function Patches(): seq<Patch>
      requires Valid()
      reads this, patches
    {
      patches[..count]
    }

    constructor (ps: array<Patch>, kind: Option<string>, bytes: Option<string>)
      ensures Valid() && patches == ps && Patches() == ps[..] && patchType == kind && patchBytes == bytes
    {
      patches, count, patchType, patchBytes := ps, ps.Length, kind, bytes;
    }

    /** `Handle` after the inner handler has answered: compacts the list in place. */
    method DropUnintended()
      requires Valid()
      modifies this, patches
      ensures Valid() && patches == old(patches)
      ensures Patches() == Filter(old(Patches()))
      ensures old(Patches()) != [] && Patches() == [] ==> patchType == None && patchBytes == None
      ensures old(Patches()) == [] || Patches() != [] ==> patchType == old(patchType) && patchBytes == old(patchBytes)
    {
      if count == 0 {
        return;
      }
      var n := Compact(patches, count);
      count := n;
      if n == 0 {
        patchType := None;
        patchBytes := None;
      }
    }
  }

  // ---------------------------------------------------- prefixes and token paths

  /** Second-level members an allowed prefix can reach. */
  predicate AllowedMember(top: string, member: string) {
    || (top == "metadata" && ("labels" <= member || "annotations" <= member))
    || (top == "spec" && ("status" <= member || "managedBy" <= member))
  }

  predicate AllowedTokens(path: seq<string>) {
    |path| >= 2 && AllowedMember(path[0], path[1])
  }

  /** The only disallowed locations that contain allowed ones. */
  predicate Encloses(path: seq<string>) {
    path == [] || path == ["metadata"] || path == ["spec"]
  }

  predicate PlainText(s: string) {
    forall i :: 0 <= i < |s| ==> s[i] != '~' && s[i] != '/'
  }

  lemma {:induction false} EscapePrefix(w: string, token: string)
    requires PlainText(w)
    ensures w <= Escape(token) <==> w <= token
  {
    if w != [] && token != [] {
      var raw := Escape(token);
      EscapePrefix(w[1..], token[1..]);
      if token[0] != '~' && token[0] != '/' {
        assert raw[0] == token[0] && raw[1..] == Escape(token[1..]);
        assert w <= raw <==> w[0] == raw[0] && w[1..] <= raw[1..];
        assert w <= token <==> w[0] == token[0] && w[1..] <= token[1..];
      } else {
        assert raw[0] == '~';
        assert w[0] != '~' && w[0] != token[0];
      }
    }
  }

  /** `w` leads a `/`-separated text exactly when it leads its first piece. */
  lemma PrefixOfPiece(w: string, piece: string, rest: string)
    requires PlainText(w)
    requires rest == [] || rest[0] == '/'
    ensures w <= piece + rest <==> w <= piece
  {
    if rest != [] {
      assert (piece + rest)[|piece|] == '/';
    }
  }

  lemma RenderStarts(tokens: seq<string>)
    ensures tokens == [] ==> Render(tokens) == []
    ensures tokens != [] ==> Render(tokens) != [] && Render(tokens)[0] == '/'
  {
  }

  lemma SplitPrefix(a: string, b: string, raw: string, tail: string)
    requires PlainText(a) && '/' !in raw
    ensures "/" + a + "/" + b <= "/" + raw + "/" + tail <==> a == raw && b <= tail
  {
    var l, r := "/" + a + "/" + b, "/" + raw + "/" + tail;
    if l <= r {
      assert l[1 + |a|] == '/' && r[1 + |raw|] == '/';
      assert |a| == |raw|;
      assert forall i :: 0 <= i < |a| ==> a[i] == l[1 + i] == r[1 + i] == raw[i];
      assert forall i :: 0 <= i < |b| ==> b[i] == l[2 + |a| + i] == r[2 + |raw| + i] == tail[i];
    }
  }

  lemma ShortPointer(a: string, b: string, raw: string)
    requires '/' !in raw
    ensures !("/" + a + "/" + b <= "/" + raw)
  {
    var l, r := "/" + a + "/" + b, "/" + raw;
    assert l[1 + |a|] == '/';
    assert forall i :: 0 <= i < |raw| ==> r[1 + i] == raw[i];
  }

  /** `/a/b` leads a rendered pointer exactly when its first token is `a` and its second starts with `b`. */
  lemma PrefixOnTokens(a: string, b: string, tokens: seq<string>)
    requires PlainText(a) && PlainText(b)
    ensures "/" + a + "/" + b <= Render(tokens) <==> |tokens| >= 2 && tokens[0] == a && b <= tokens[1]
  {
    if |tokens| >= 2 {
      var first, second, tail := Escape(tokens[0]), Escape(tokens[1]), Render(tokens[2..]);
      RenderStarts(tokens[2..]);
      EscapeHasNoSlash(tokens[0]);
      RenderTwo(tokens);
      SplitPrefix(a, b, first, second + tail);
      EscapeIs(a, tokens[0]);
      PrefixOfPiece(b, second, tail);
      EscapePrefix(b, tokens[1]);
    } else if |tokens| == 1 {
      EscapeHasNoSlash(tokens[0]);
      assert Render(tokens) == "/" + Escape(tokens[0]);
      ShortPointer(a, b, Escape(tokens[0]));
    }
  }

  lemma RenderTwo(tokens: seq<string>)
    requires |tokens| >= 2
    ensures Render(tokens) == "/" + Escape(tokens[0]) + "/" + (Escape(tokens[1]) + Render(tokens[2..]))
  {
  }

  lemma {:induction false} EscapeIs(w: string, token: string)
    requires PlainText(w)
    ensures w == Escape(token) <==> w == token
  {
    if w != [] && token != [] {
      EscapeIs(w[1..], token[1..]);
      var raw := Escape(token);
      if token[0] != '~' && token[0] != '/' {
        assert raw == [token[0]] + Escape(token[1..]);
        assert w == [w[0]] + w[1..] && token == [token[0]] + token[1..];
      } else {
        assert raw[0] == '~';
      }
    }
  }

  lemma PrefixTexts()
    ensures ALLOWED_PREFIXES[0] == "/" + "metadata" + "/" + "labels"
    ensures ALLOWED_PREFIXES[1] == "/" + "metadata" + "/" + "annotations"
    ensures ALLOWED_PREFIXES[2] == "/" + "spec" + "/" + "status"
    ensures ALLOWED_PREFIXES[3] == "/" + "spec" + "/" + "managedBy"
    ensures PlainText("metadata") && PlainText("spec")
    ensures PlainText("labels") && PlainText("annotations") && PlainText("status") && PlainText("managedBy")
  {
  }

  /** The string-prefix test, read on tokens: exactly members whose name starts with an allowed one. */
  lemma AllowedOnTokens(tokens: seq<string>)
    ensures Allowed(Render(tokens)) <==> AllowedTokens(tokens)
  {
    PrefixTexts();
    PrefixOnTokens("metadata", "labels", tokens);
    PrefixOnTokens("metadata", "annotations", tokens);
    PrefixOnTokens("spec", "status", tokens);
    PrefixOnTokens("spec", "managedBy", tokens);
    assert Allowed(Render(tokens)) <==>
      || ALLOWED_PREFIXES[0] <= Render(tokens) || ALLOWED_PREFIXES[1] <= Render(tokens)
      || ALLOWED_PREFIXES[2] <= Render(tokens) || ALLOWED_PREFIXES[3] <= Render(tokens);
  }

  lemma AllowedOnPointer(path: string)
    requires Parse(path).Some?
    ensures Allowed(path) <==> AllowedTokens(Parse(path).value)
  {
    RenderParse(path);
    AllowedOnTokens(Parse(path).value);
  }
}

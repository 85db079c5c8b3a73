/** Mutation requests (internal/cel/types.go). */
module Requests {
  import opened Prelude

  /** Annotations under this prefix are quota requests. */
  const REQUESTS_PREFIX := "kueue.konflux-ci.dev/requests-"

  datatype MutationType = Annotation | Label | Resource | ManagedBy | MultiKueue

  function TypeName(t: MutationType): string {
    match t
    case Annotation => "annotation"
    case Label => "label"
    case Resource => "resource"
    case ManagedBy => "managedBy"
    case MultiKueue => "multiKueue"
  }

  /** `IsValid` and the conversion of a type string in one: None is an invalid type. */
  function ParseType(s: string): (t: Option<MutationType>)
    ensures t.Some? ==> TypeName(t.value) == s
  {
    if s == "annotation" then Some(Annotation)
    else if s == "label" then Some(Label)
    else if s == "resource" then Some(Resource)
    else if s == "managedBy" then Some(ManagedBy)
    else if s == "multiKueue" then Some(MultiKueue)
    else None
  }

  /** The five type names, and nothing else, are valid types. */
  lemma FiveTypes(s: string)
    ensures ParseType(s).Some? <==> s in {"annotation", "label", "resource", "managedBy", "multiKueue"}
    ensures ParseType("annotation") == Some(Annotation) && ParseType("label") == Some(Label)
    ensures ParseType("resource") == Some(Resource)
    ensures ParseType("managedBy") == Some(ManagedBy) && ParseType("multiKueue") == Some(MultiKueue)
  {
  }

  datatype MutationRequest = MutationRequest(kind: MutationType, key: string, value: string)

  /** `Validate`. */
  predicate Valid(m: MutationRequest) {
    && m.key != ""
    && (m.value == "" ==> m.kind == MultiKueue)
    && (m.kind == ManagedBy ==> m.key == "managedBy")
  }
}

/**
  The PipelineRun as admission sees it: the four fields the webhook writes,
  and everything else as JSON it never touches.
 */
module Runs {
  import opened Prelude
  import opened Json

  const MULTI_KUEUE := "kueue.x-k8s.io/multikueue"
  const QUEUE_LABEL := "kueue.x-k8s.io/queue-name"
  const PENDING := "PipelineRunPending"
  const RUNNING := ""
  const STOPPED := "StoppedRunFinally"

  /** Other fields of the object, of `metadata` and of `spec`. */
  datatype Rest = Rest(top: map<string, Value>, meta: map<string, Value>, spec: map<string, Value>)

  datatype Run = Run(
    labels: StringMap,
    annotations: StringMap,
    managedBy: Option<string>,
    status: string,
    rest: Rest)

  /** The mutable object; `View` is its value. */
  class PipelineRun {
    var labels: StringMap
    var annotations: StringMap
    var managedBy: Option<string>
    var status: string
    var rest: Rest

    function View(): Run
      reads this
    {
      Run(labels, annotations, managedBy, status, rest)
    }

    constructor (v: Run)
      ensures View() == v
    {
      labels, annotations, managedBy, status, rest := v.labels, v.annotations, v.managedBy, v.status, v.rest;
    }

    method Assign(v: Run)
      modifies this
      ensures View() == v
    {
      labels, annotations, managedBy, status, rest := v.labels, v.annotations, v.managedBy, v.status, v.rest;
    }

    method DeepCopy() returns (c: PipelineRun)
      ensures fresh(c) && c.View() == View()
    {
      c := new PipelineRun(View());
    }
  }
}

/** The operator's judgement of an Astarte cluster's health. */
module Health {
  import opened Specs

  datatype ClusterHealth = Unknown | Green | Yellow | Red

  /** What the operator can see of a Deployment; unset replicas count as zero. */
  datatype Status = Status(readyReplicas: int, replicas: Option<int>)

  /** The answers of the API server; `None` stands for an answer that could not be had. */
  datatype View = View(deployments: Option<seq<Status>>, verneMQReady: Option<int>, cfsslReady: Option<int>)

  predicate NotReady(status: Status) {
    status.readyReplicas == 0 && status.replicas.GetOr(0) > 0
  }

  function CountNotReady(deployments: seq<Status>): nat {
    if deployments == [] then 0
    else CountNotReady(deployments[..|deployments| - 1]) + if NotReady(deployments[|deployments| - 1]) then 1 else 0
  }

  /** The number of problems: unready Deployments, and VerneMQ and CFSSL if they should run. */
  function Problems(view: View, spec: AstarteSpec): nat {
    (match view.deployments case Some(list) => CountNotReady(list) case None => 5) +
    (if spec.deployVerneMQ.GetOr(true) && view.verneMQReady.GetOr(0) == 0 then 1 else 0) +
    (if spec.deployCFSSL.GetOr(true) && view.cfsslReady.GetOr(0) == 0 then 1 else 0)
  }

  function HealthOf(view: View, spec: AstarteSpec): ClusterHealth {
    match Problems(view, spec)
    case 0 => Green
    case 1 => Yellow
    case _ => Red
  }

  method ComputeClusterHealth(view: View, spec: AstarteSpec) returns (health: ClusterHealth)
    ensures health == HealthOf(view, spec)
  {
    var nonReadyDeployments := 0;
    if view.deployments.Some? {
      var list := view.deployments.value;
      for i := 0 to |list|
        invariant nonReadyDeployments == CountNotReady(list[..i])
      {
        assert list[..i + 1][..i] == list[..i];
        if list[i].readyReplicas == 0 && list[i].replicas.GetOr(0) > 0 {
          nonReadyDeployments := nonReadyDeployments + 1;
        }
      }
      assert list[..|list|] == list;
    } else {
      nonReadyDeployments := 5;
    }
    if spec.deployVerneMQ.GetOr(true) {
      if view.verneMQReady.Some? {
        if view.verneMQReady.value == 0 {
          nonReadyDeployments := nonReadyDeployments + 1;
        }
      } else {
        nonReadyDeployments := nonReadyDeployments + 1;
      }
    }
    if spec.deployCFSSL.GetOr(true) && (view.cfsslReady.None? || view.cfsslReady.value == 0) {
      nonReadyDeployments := nonReadyDeployments + 1;
    }
    health := if nonReadyDeployments == 0 then Green else if nonReadyDeployments == 1 then Yellow else Red;
  }

  /** The list could be had and everything meant to run has a ready replica. */
  ghost predicate EverythingReady(view: View, spec: AstarteSpec) {
    && view.deployments.Some?
    && (forall status <- view.deployments.value :: status.readyReplicas == 0 ==> status.replicas.GetOr(0) <= 0)
    && (spec.deployVerneMQ.GetOr(true) ==> view.verneMQReady.Some? && view.verneMQReady.value != 0)
    && (spec.deployCFSSL.GetOr(true) ==> view.cfsslReady.Some? && view.cfsslReady.value != 0)
  }

  /** Green means just that. */
  lemma {:induction false} GreenExactlyWhen(view: View, spec: AstarteSpec)
    ensures HealthOf(view, spec) == Green <==>
            && view.deployments.Some?
            && (forall status <- view.deployments.value :: status.readyReplicas == 0 ==> status.replicas.GetOr(0) <= 0)
            && (spec.deployVerneMQ.GetOr(true) ==> view.verneMQReady.Some? && view.verneMQReady.value != 0)
            && (spec.deployCFSSL.GetOr(true) ==> view.cfsslReady.Some? && view.cfsslReady.value != 0)
    ensures HealthOf(view, spec) == Green <==> EverythingReady(view, spec)
  {
    if view.deployments.Some? {
      NoneNotReady(view.deployments.value);
    }
  }

  /** Exactly one Deployment that should have a ready replica has none. */
  ghost predicate OneNotReady(deployments: seq<Status>) {
    exists i :: OnlyAt(deployments, i)
  }

  ghost predicate OnlyAt(deployments: seq<Status>, i: int) {
    0 <= i < |deployments| && forall j :: 0 <= j < |deployments| ==> (NotReady(deployments[j]) <==> j == i)
  }

  ghost predicate VerneMQMissing(view: View, spec: AstarteSpec) {
    spec.deployVerneMQ.GetOr(true) && (view.verneMQReady.None? || view.verneMQReady.value == 0)
  }

  ghost predicate CFSSLMissing(view: View, spec: AstarteSpec) {
    spec.deployCFSSL.GetOr(true) && (view.cfsslReady.None? || view.cfsslReady.value == 0)
  }

  /** Yellow means that the list could be had and exactly one thing is not ready; everything else is red. */
  lemma YellowExactlyWhen(view: View, spec: AstarteSpec)
    ensures HealthOf(view, spec) == Yellow <==>
            && view.deployments.Some?
            && var none := forall status <- view.deployments.value :: !NotReady(status);
               || (OneNotReady(view.deployments.value) && !VerneMQMissing(view, spec) && !CFSSLMissing(view, spec))
               || (none && VerneMQMissing(view, spec) && !CFSSLMissing(view, spec))
               || (none && !VerneMQMissing(view, spec) && CFSSLMissing(view, spec))
    ensures HealthOf(view, spec) != Unknown
  {
    if view.deployments.Some? {
      NoneNotReady(view.deployments.value);
      OneOfThem(view.deployments.value);
    }
  }

  lemma OneOfThem(deployments: seq<Status>)
    ensures CountNotReady(deployments) == 1 <==> OneNotReady(deployments)
  {
    hide OnlyAt, CountNotReady;
    if CountNotReady(deployments) == 1 {
      var i := TheOne(deployments);
    }
    if i :| OnlyAt(deployments, i) {
      OneIsCounted(deployments, i);
    }
  }

  lemma {:induction false} TheOne(deployments: seq<Status>) returns (i: int)
    requires CountNotReady(deployments) == 1
    ensures OnlyAt(deployments, i)
  {
    var last := |deployments| - 1;
    var init := deployments[..last];
    if NotReady(deployments[last]) {
      NoneNotReady(init);
      assert forall j :: 0 <= j < last ==> init[j] in init && init[j] == deployments[j];
      i := last;
    } else {
      i := TheOne(init);
      assert forall j :: 0 <= j < last ==> init[j] == deployments[j];
    }
  }

  lemma {:induction false} OneIsCounted(deployments: seq<Status>, i: int)
    requires OnlyAt(deployments, i)
    ensures CountNotReady(deployments) == 1
  {
    var last := |deployments| - 1;
    var init := deployments[..last];
    assert forall j :: 0 <= j < last ==> init[j] == deployments[j];
    if i == last {
      NoneNotReady(init);
    } else {
      OneIsCounted(init, i);
    }
  }

  lemma {:induction false} NoneNotReady(deployments: seq<Status>)
    ensures CountNotReady(deployments) == 0 <==> forall status <- deployments :: !NotReady(status)
  {
    if deployments != [] {
      NoneNotReady(deployments[..|deployments| - 1]);
      assert deployments == deployments[..|deployments| - 1] + [deployments[|deployments| - 1]];
    }
  }
}

/**
 * Instance selection of pkg/speedrun/cloud/instance.go.  The instances of
 * the project are filtered by a target expression evaluated once per
 * instance; an evaluation that fails or does not yield a boolean skips the
 * instance, and only those evaluating to true are kept, in order.  The
 * expression language itself is abstract: compiling it is an input error,
 * and running it is a function from an instance to its evaluation.
 */
module Instances {
  import opened Wrappers

  /** An Instance: its addresses, name and labels. */
  datatype Instance = Instance(publicAddress: string, privateAddress: string, name: string, labels: map<string, string>)

  /** What running the compiled target on one instance gives. */
  datatype Evaluation = RunError(msg: string) | Bool(b: bool) | NonBool

  const NoInstancesFound: string := "no instances found"

  /** GetAddress: the private address when asked for, otherwise the public one. */
  function GetAddress(i: Instance, private: bool): (r: string)
    ensures private ==> r == i.privateAddress
    ensures !private ==> r == i.publicAddress
  {
    if private then i.privateAddress else i.publicAddress
  }

  predicate Selected(run: Instance -> Evaluation, i: Instance)
  {
    run(i) == Bool(true)
  }

  /** The instances kept by the loop of filter, in their original order. */
  function FilterSpec(instances: seq<Instance>, run: Instance -> Evaluation): seq<Instance>
  {
    if |instances| == 0 then []
    else
      var n := |instances| - 1;
      var kept := FilterSpec(instances[..n], run);
      if Selected(run, instances[n]) then kept + [instances[n]] else kept
  }

  /** `sub` is `s` with some elements dropped and the rest in order. */
  predicate IsSubsequence<T(==)>(sub: seq<T>, s: seq<T>)
    decreases |s|
  {
    |sub| == 0
    || (|s| > 0
        && ((sub[|sub| - 1] == s[|s| - 1] && IsSubsequence(sub[..|sub| - 1], s[..|s| - 1]))
            || IsSubsequence(sub, s[..|s| - 1])))
  }

  /** filter: a compile error ends it; otherwise every instance is evaluated in turn. */
  method Filter(instances: seq<Instance>, compileErr: Option<string>, run: Instance -> Evaluation)
    returns (r: Result<seq<Instance>>)
    ensures compileErr.Some? ==> r == Err(compileErr.value)
    ensures compileErr.None? ==> r == Ok(FilterSpec(instances, run))
  {
    if compileErr.Some? {
      return Err(compileErr.value);
    }
    var subset: seq<Instance> := [];
    for i := 0 to |instances|
      invariant subset == FilterSpec(instances[..i], run)
    {
      assert instances[..i + 1][..i] == instances[..i];
      var output := run(instances[i]);
      if output.RunError? {
        continue;
      }
      if !output.Bool? {
        continue;
      }
      if output.b {
        subset := subset + [instances[i]];
      }
    }
    assert instances[..|instances|] == instances;
    return Ok(subset);
  }

  /**
   * GetInstances: the client, the listing and the filter may each fail; an
   * empty selection is an error of its own.
   */
  method GetInstances(clientErr: Option<string>, listErr: Option<string>, listed: seq<Instance>,
                      compileErr: Option<string>, run: Instance -> Evaluation)
    returns (r: Result<seq<Instance>>)
    ensures clientErr.Some? ==> r == Err(clientErr.value)
    ensures clientErr.None? && listErr.Some? ==> r == Err(listErr.value)
    ensures clientErr.None? && listErr.None? && compileErr.Some? ==> r == Err(compileErr.value)
    ensures clientErr.None? && listErr.None? && compileErr.None? ==>
      if |FilterSpec(listed, run)| == 0 then r == Err(NoInstancesFound) else r == Ok(FilterSpec(listed, run))
  {
    if clientErr.Some? {
      return Err(clientErr.value);
    }
    if listErr.Some? {
      return Err(listErr.value);
    }
    var subset := Filter(listed, compileErr, run);
    if subset.Err? {
      return subset;
    }
    if |subset.value| == 0 {
      return Err(NoInstancesFound);
    }
    return subset;
  }

  /** An instance is kept exactly when it is listed and its evaluation is true. */
  lemma {:induction false} FilterSelects(instances: seq<Instance>, run: Instance -> Evaluation)
    ensures forall x :: x in FilterSpec(instances, run) <==> x in instances && Selected(run, x)
  {
    if |instances| > 0 {
      var n := |instances| - 1;
      FilterSelects(instances[..n], run);
      assert instances == instances[..n] + [instances[n]];
    }
  }

  /** The kept instances keep their listed order. */
  lemma {:induction false} FilterIsSubsequence(instances: seq<Instance>, run: Instance -> Evaluation)
    ensures IsSubsequence(FilterSpec(instances, run), instances)
  {
    if |instances| > 0 {
      var n := |instances| - 1;
      var kept := FilterSpec(instances[..n], run);
      FilterIsSubsequence(instances[..n], run);
      if Selected(run, instances[n]) {
        var r := kept + [instances[n]];
        assert r[..|r| - 1] == kept;
      }
    }
  }

  /** Instances whose evaluation fails or is not a boolean never change the selection. */
  lemma SkippedInstance(instances: seq<Instance>, i: Instance, run: Instance -> Evaluation)
    requires run(i).RunError? || run(i).NonBool? || run(i) == Bool(false)
    ensures FilterSpec(instances + [i], run) == FilterSpec(instances, run)
  {
    assert (instances + [i])[..|instances|] == instances;
  }
}

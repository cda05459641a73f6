/**
 * The vssh-based runs (ssh.go and roll.go; helpers/ssh.go reuses the same
 * pieces).  The instances are keyed by their first NAT address with ":22"
 * appended, one client is added per address, and each response of the run
 * is filed under the instance name its id maps to: an error under errors,
 * exit status 0 under successes, anything else under failures.
 *
 * The order of responses on the channel is an input; the order in which the
 * clients are added is left open.
 */
module Vssh {
  import opened Wrappers
  import opened Output
  import opened Tally

  /** A compute.Instance: its name and the NAT IP of its first access config. */
  datatype ComputeInstance = ComputeInstance(name: string, natIP: string)

  /** One response of the run: the client id (its address), its error, exit status and standard output. */
  datatype Response = Response(id: string, err: Option<string>, exitStatus: int, output: string)

  function AddressOf(i: ComputeInstance): (a: string)
    ensures |a| == |i.natIP| + 3 && a[..|i.natIP|] == i.natIP && a[|i.natIP|..] == ":22"
  {
    i.natIP + ":22"
  }

  /** instanceDict: address to name, a later instance overwriting an earlier one at the same address. */
  function AddressMap(instances: seq<ComputeInstance>): map<string, string>
  {
    if |instances| == 0 then map[]
    else
      var n := |instances| - 1;
      AddressMap(instances[..n])[AddressOf(instances[n]) := instances[n].name]
  }

  method BuildInstanceDict(instances: seq<ComputeInstance>) returns (dict: map<string, string>)
    ensures dict == AddressMap(instances)
  {
    dict := map[];
    for i := 0 to |instances|
      invariant dict == AddressMap(instances[..i])
    {
      assert instances[..i + 1][..i] == instances[..i];
      dict := dict[AddressOf(instances[i]) := instances[i].name];
    }
    assert instances[..|instances|] == instances;
  }

  /**
   * The addresses are exactly those of the instances, and each maps to the
   * name of the last instance with that address.
   */
  lemma {:induction false} AddressMapLastWins(instances: seq<ComputeInstance>)
    ensures forall a :: a in AddressMap(instances) <==> exists i :: 0 <= i < |instances| && AddressOf(instances[i]) == a
    ensures forall i :: 0 <= i < |instances| && (forall j :: i < j < |instances| ==> AddressOf(instances[j]) != AddressOf(instances[i])) ==>
      AddressMap(instances)[AddressOf(instances[i])] == instances[i].name
  {
    AddressMapKeys(instances);
    forall i | 0 <= i < |instances| && (forall j :: i < j < |instances| ==> AddressOf(instances[j]) != AddressOf(instances[i]))
      ensures AddressMap(instances)[AddressOf(instances[i])] == instances[i].name
    {
      AddressMapLatest(instances, i);
    }
  }

  /** An instance whose address no later instance shares is the one the map keeps for that address. */
  lemma {:induction false} AddressMapLatest(instances: seq<ComputeInstance>, i: nat)
    requires i < |instances|
    requires forall j :: i < j < |instances| ==> AddressOf(instances[j]) != AddressOf(instances[i])
    ensures AddressOf(instances[i]) in AddressMap(instances)
    ensures AddressMap(instances)[AddressOf(instances[i])] == instances[i].name
    decreases |instances|
  {
    var n := |instances| - 1;
    var prefix := instances[..n];
    assert AddressMap(instances) == AddressMap(prefix)[AddressOf(instances[n]) := instances[n].name];
    if i < n {
      assert prefix[i] == instances[i];
      forall j | i < j < n ensures AddressOf(prefix[j]) != AddressOf(prefix[i]) {
        assert prefix[j] == instances[j];
      }
      AddressMapLatest(prefix, i);
    }
  }

  /** The addresses in the map are exactly those of the instances. */
  lemma {:induction false} AddressMapKeys(instances: seq<ComputeInstance>)
    ensures forall a :: a in AddressMap(instances) <==> exists i :: 0 <= i < |instances| && AddressOf(instances[i]) == a
  {
    if |instances| > 0 {
      var n := |instances| - 1;
      var prefix := instances[..n];
      AddressMapKeys(prefix);
      assert AddressMap(instances) == AddressMap(prefix)[AddressOf(instances[n]) := instances[n].name];
      forall a | a in AddressMap(instances) ensures exists i :: 0 <= i < |instances| && AddressOf(instances[i]) == a {
        if a != AddressOf(instances[n]) {
          assert a in AddressMap(prefix);
          var i :| 0 <= i < n && AddressOf(prefix[i]) == a;
          assert AddressOf(instances[i]) == a;
        }
      }
      forall a | exists i :: 0 <= i < |instances| && AddressOf(instances[i]) == a ensures a in AddressMap(instances) {
        var i :| 0 <= i < |instances| && AddressOf(instances[i]) == a;
        if i < n {
          assert AddressOf(prefix[i]) == a;
        }
      }
    }
  }

  /** Two instances at one address collapse into one entry: the later name. */
  lemma SameAddressCollapses(instances: seq<ComputeInstance>, first: ComputeInstance, second: ComputeInstance)
    requires AddressOf(first) == AddressOf(second)
    ensures AddressMap(instances + [first, second]) == AddressMap(instances)[AddressOf(second) := second.name]
  {
    var s := instances + [first, second];
    assert s[..|s| - 1] == instances + [first];
    assert (instances + [first])[..|instances|] == instances;
  }

  /**
   * The AddClient loop over the addresses: the first failure met is
   * returned; `failing` holds the error AddClient gives for an address.
   */
  method AddClients(dict: map<string, string>, failing: map<string, string>) returns (err: Option<string>)
    ensures err.None? <==> (forall a :: a in dict ==> a !in failing)
    ensures err.Some? ==> exists a :: a in dict && a in failing && failing[a] == err.value
  {
    var remaining := dict.Keys;
    while remaining != {}
      invariant remaining <= dict.Keys
      invariant forall a :: a in dict && a !in remaining ==> a !in failing
      decreases remaining
    {
      var a :| a in remaining;
      if a in failing {
        return Some(failing[a]);
      }
      remaining := remaining - {a};
    }
    return None;
  }

  /** The instance name a response belongs to; an unknown id gives the map's zero value "". */
  function HostOf(dict: map<string, string>, id: string): string
  {
    if id in dict then dict[id] else ""
  }

  /** The output as stored: indented by formatOutput, or raw. */
  function Stored(output: string, format: bool): string
  {
    if format then FormatSpec(output) else output
  }

  function OutcomeOf(resp: Response, format: bool): Outcome
  {
    if resp.err.Some? then Errored(resp.err.value)
    else if resp.exitStatus == 0 then Succeeded(Stored(resp.output, format))
    else Failed(Stored(resp.output, format))
  }

  /** Every response filed in order. */
  function Collected(t: Tally, dict: map<string, string>, responses: seq<Response>, format: bool): Tally
  {
    if |responses| == 0 then t
    else
      var n := |responses| - 1;
      var resp := responses[n];
      Record(Collected(t, dict, responses[..n], format), HostOf(dict, resp.id), OutcomeOf(resp, format))
  }

  /** The loop over the response channel. */
  method Collect(t: Tally, dict: map<string, string>, responses: seq<Response>, format: bool) returns (r: Tally)
    ensures r == Collected(t, dict, responses, format)
  {
    r := t;
    for i := 0 to |responses|
      invariant r == Collected(t, dict, responses[..i], format)
    {
      assert responses[..i + 1][..i] == responses[..i];
      var resp := responses[i];
      var host := if resp.id in dict then dict[resp.id] else "";
      if resp.err.Some? {
        r := r.(errors := r.errors[host := resp.err.value]);
      } else {
        var output := resp.output;
        if format {
          output := FormatOutput(resp.output);
        }
        if resp.exitStatus == 0 {
          r := r.(successes := r.successes[host := output]);
        } else {
          r := r.(failures := r.failures[host := output]);
        }
      }
    }
    assert responses[..|responses|] == responses;
  }

  /**
   * Filing one response of a host not filed before: the host lands in errors
   * iff the response has an error, in successes iff it has none and exit
   * status 0, in failures otherwise; other hosts are untouched.
   */
  lemma FileResponse(t: Tally, dict: map<string, string>, resp: Response, format: bool)
    requires var h := HostOf(dict, resp.id); h !in t.errors && h !in t.failures && h !in t.successes
    ensures var h := HostOf(dict, resp.id);
      var r := Record(t, h, OutcomeOf(resp, format));
      (h in r.errors <==> resp.err.Some?)
      && (h in r.successes <==> resp.err.None? && resp.exitStatus == 0)
      && (h in r.failures <==> resp.err.None? && resp.exitStatus != 0)
      && (resp.err.Some? ==> r.errors[h] == resp.err.value)
      && (h in r.successes ==> r.successes[h] == Stored(resp.output, format))
      && (h in r.failures ==> r.failures[h] == Stored(resp.output, format))
      && (forall x :: x != h ==>
            (x in r.errors <==> x in t.errors) && (x in r.failures <==> x in t.failures)
            && (x in r.successes <==> x in t.successes))
  {
  }

  /** ssh.go's result of a run. */
  class Run {
    var res: Tally

    constructor NewRun()
      ensures res == Empty
    {
      res := Empty;
    }

    /** PrintResult: successes only when `failures` is false. */
    method PrintResult(failures: bool) returns (out: seq<ReportLine>)
      ensures IsReport(out, res, !failures)
    {
      out := PrintReport(res, !failures);
    }
  }

  /**
   * Execute of ssh.go: the user lookup, then the clients, then the run.  A
   * failure returns the fresh run with no outcomes.  `userErr` is the error
   * of looking up the current user, `failing` the AddClient errors by address.
   */
  method Execute(instances: seq<ComputeInstance>, userErr: Option<string>, failing: map<string, string>,
                 responses: seq<Response>)
    returns (run: Run, err: Option<string>)
    ensures fresh(run)
    ensures userErr.Some? ==> err == userErr && run.res == Empty
    ensures userErr.None? ==>
      var dict := AddressMap(instances);
      (err.Some? <==> exists a :: a in dict && a in failing)
      && (err.Some? ==> run.res == Empty && exists a :: a in dict && a in failing && failing[a] == err.value)
      && (err.None? ==> run.res == Collected(Empty, dict, responses, true))
  {
    run := new Run.NewRun();
    if userErr.Some? {
      return run, userErr;
    }
    var dict := BuildInstanceDict(instances);
    err := AddClients(dict, failing);
    if err.Some? {
      return run, err;
    }
    run.res := Collect(run.res, dict, responses, true);
  }

  /** roll.go's roll: the three maps and the command. */
  class Roll {
    var errors: map<string, string>
    var failures: map<string, string>
    var successes: map<string, string>
    var command: string

    function Outcomes(): Tally
      reads this
    {
      Tally(errors, failures, successes)
    }

    constructor (command: string)
      ensures Outcomes() == Empty && this.command == command
    {
      errors := map[];
      failures := map[];
      successes := map[];
      this.command := command;
    }

    /** execute: as Execute of ssh.go, filing into this roll's maps. */
    method Execute(instances: seq<ComputeInstance>, userErr: Option<string>, failing: map<string, string>,
                   responses: seq<Response>)
      returns (err: Option<string>)
      modifies this
      ensures command == old(command)
      ensures userErr.Some? ==> err == userErr && unchanged(this)
      ensures userErr.None? ==>
        var dict := AddressMap(instances);
        (err.Some? <==> exists a :: a in dict && a in failing)
        && (err.Some? ==> unchanged(this) && exists a :: a in dict && a in failing && failing[a] == err.value)
        && (err.None? ==> Outcomes() == Collected(old(Outcomes()), dict, responses, true))
    {
      if userErr.Some? {
        return userErr;
      }
      var dict := BuildInstanceDict(instances);
      err := AddClients(dict, failing);
      if err.Some? {
        return err;
      }
      var r := Collect(Outcomes(), dict, responses, true);
      errors, failures, successes := r.errors, r.failures, r.successes;
    }

    /** printResult: successes only when `failures` is false. */
    method PrintResult(failures: bool) returns (out: seq<ReportLine>)
      ensures IsReport(out, Outcomes(), !failures)
    {
      out := PrintReport(Outcomes(), !failures);
    }
  }
}

/**
 * The run of helpers/ssh.go: the same vssh pipeline as ssh.go with the
 * output stored raw, a PrintResult whose flag has the opposite sense (the
 * successes are printed when it is true), and a three-colour status.
 */
module Helpers {
  import opened Wrappers
  import opened Tally
  import opened Vssh

  datatype Color = Green | Yellow | Red

  /** Status: red with any error, else yellow with any failure, else green. */
  function Status(t: Tally): (c: Color)
    ensures c == Red <==> |t.errors| > 0
    ensures c == Yellow <==> |t.errors| == 0 && |t.failures| > 0
    ensures c == Green <==> |t.errors| == 0 && |t.failures| == 0
  {
    if |t.errors| > 0 then Red
    else if |t.failures| > 0 then Yellow
    else Green
  }

  class Run {
    var res: Tally

    constructor NewRun()
      ensures res == Empty
    {
      res := Empty;
    }

    /** PrintResult: successes only when `failures` is true, then failures, errors and the counts. */
    method PrintResult(failures: bool) returns (out: seq<ReportLine>)
      ensures IsReport(out, res, failures)
    {
      out := PrintReport(res, failures);
    }

    function RunStatus(): (c: Color)
      reads this
      ensures c == Status(res)
      ensures c == Green ==> |res.errors| == 0 && |res.failures| == 0
    {
      Status(res)
    }
  }

  /** Execute of helpers/ssh.go: as in ssh.go, with raw output. */
  method Execute(instances: seq<ComputeInstance>, userErr: Option<string>, failing: map<string, string>,
                 responses: seq<Response>)
    returns (run: Run, err: Option<string>)
    ensures fresh(run)
    ensures userErr.Some? ==> err == userErr && run.res == Empty
    ensures userErr.None? ==>
      var dict := AddressMap(instances);
      (err.Some? <==> exists a :: a in dict && a in failing)
      && (err.Some? ==> run.res == Empty && exists a :: a in dict && a in failing && failing[a] == err.value)
      && (err.None? ==> run.res == Collected(Empty, dict, responses, false))
  {
    run := new Run.NewRun();
    if userErr.Some? {
      return run, userErr;
    }
    var dict := BuildInstanceDict(instances);
    err := AddClients(dict, failing);
    if err.Some? {
      return run, err;
    }
    run.res := Collect(run.res, dict, responses, false);
  }

  /** Filing an error makes the status red, whatever was filed before. */
  lemma ErrorMakesRed(t: Tally, host: string, message: string)
    ensures Status(Record(t, host, Errored(message))) == Red
  {
    assert host in Record(t, host, Errored(message)).errors;
  }

  /** Filed outcomes are never removed: a host filed under errors stays there. */
  lemma {:induction false} CollectedKeepsErrors(t: Tally, dict: map<string, string>, responses: seq<Response>, format: bool)
    ensures t.errors.Keys <= Collected(t, dict, responses, format).errors.Keys
    ensures t.failures.Keys <= Collected(t, dict, responses, format).failures.Keys
  {
    if |responses| > 0 {
      CollectedKeepsErrors(t, dict, responses[..|responses| - 1], format);
    }
  }

  /**
   * A run starting from empty maps is green exactly when every response
   * came back without an error and with exit status 0.
   */
  lemma {:induction false} GreenIffAllSucceeded(dict: map<string, string>, responses: seq<Response>, format: bool)
    ensures Status(Collected(Empty, dict, responses, format)) == Green
        <==> forall i :: 0 <= i < |responses| ==> responses[i].err.None? && responses[i].exitStatus == 0
  {
    if |responses| > 0 {
      var n := |responses| - 1;
      var prefix := responses[..n];
      var last := responses[n];
      GreenIffAllSucceeded(dict, prefix, format);
      var p := Collected(Empty, dict, prefix, format);
      var r := Collected(Empty, dict, responses, format);
      var h := HostOf(dict, last.id);
      assert r == Record(p, h, OutcomeOf(last, format));
      assert Status(r) == Green <==> Status(p) == Green && last.err.None? && last.exitStatus == 0 by {
        if last.err.Some? {
          assert h in r.errors;
        } else if last.exitStatus != 0 {
          assert h in r.failures;
        } else {
          assert r.errors == p.errors && r.failures == p.failures;
        }
      }
      if forall i :: 0 <= i < |responses| ==> responses[i].err.None? && responses[i].exitStatus == 0 {
        forall i | 0 <= i < n ensures prefix[i].err.None? && prefix[i].exitStatus == 0 {
          assert prefix[i] == responses[i];
        }
      }
      if (forall i :: 0 <= i < n ==> prefix[i].err.None? && prefix[i].exitStatus == 0)
         && last.err.None? && last.exitStatus == 0 {
        forall i | 0 <= i < |responses| ensures responses[i].err.None? && responses[i].exitStatus == 0 {
          if i < n {
            assert responses[i] == prefix[i];
          }
        }
      }
    } else {
      assert Collected(Empty, dict, responses, format) == Empty;
    }
  }
}

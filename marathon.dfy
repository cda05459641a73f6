/**
 * A marathon (marathon/marathon.go, ssh/marathon.go): one command run over
 * SSH on every target, with each target's outcome filed in one of three maps.
 * A target whose connection fails (dial, host-key check or authentication) is
 * filed under errors with the error; otherwise the command runs and its
 * output, indented by formatOutput, is filed under failures when the command
 * failed and under successes when it did not.
 *
 * The worker pool is a sequential loop over the targets in list order; the
 * remote side of each target is an `Attempt` given as input.
 */
module Marathon {
  import opened Wrappers
  import opened Trust
  import opened Session
  import opened Output
  import opened Tally

  /** A cloud instance as the marathon sees it. */
  datatype Target = Target(name: string, address: string)

  /** What happens at one target: the dial, the known_hosts append, the command's output and whether it failed. */
  datatype Attempt = Attempt(remote: Remote, writeErr: Option<string>, output: string, runErr: bool)

  /** The settings shared by all connections of a run. */
  datatype Setup = Setup(user: string, callback: HostKeyCallback, timeout: nat, homeErr: Option<string>)

  /** The outcome maps and the known_hosts file. */
  datatype State = State(tally: Tally, file: HostsFile)

  function ConfigFor(setup: Setup, t: Target): Config
  {
    Config(setup.user, t.address, SshPort, setup.callback, setup.timeout)
  }

  /** What the handshake leaves of the target: its error, or the command's indented output. */
  function OutcomeOf(v: Verdict, a: Attempt): Outcome
  {
    if v.err.Some? then Errored(v.err.value)
    else if a.runErr then Failed(FormatSpec(a.output))
    else Succeeded(FormatSpec(a.output))
  }

  /** The outcome of one target filed in the maps, and the hosts file after its handshake. */
  function Step(s: State, setup: Setup, t: Target, a: Attempt): State
  {
    var v := HandshakeSpec(s.file, ConfigFor(setup, t), a.remote, setup.homeErr, a.writeErr);
    State(Record(s.tally, t.name, OutcomeOf(v, a)), v.file)
  }

  /** All targets in order. */
  function Dispatched(s: State, setup: Setup, targets: seq<Target>, attempts: seq<Attempt>): State
    requires |attempts| == |targets|
  {
    if |targets| == 0 then s
    else
      var n := |targets| - 1;
      Step(Dispatched(s, setup, targets[..n], attempts[..n]), setup, targets[n], attempts[n])
  }

  class Marathon {
    var errors: map<string, string>
    var failures: map<string, string>
    var successes: map<string, string>
    var command: string
    var timeout: nat
    var concurrency: int

    function Outcomes(): Tally
      reads this
    {
      Tally(errors, failures, successes)
    }

    /** New and NewMarathon: empty maps, settings as given. */
    constructor New(command: string, timeout: nat, concurrency: int)
      ensures Outcomes() == Empty
      ensures this.command == command && this.timeout == timeout && this.concurrency == concurrency
    {
      errors := map[];
      failures := map[];
      successes := map[];
      this.command := command;
      this.timeout := timeout;
      this.concurrency := concurrency;
    }

    /** The dispatch loop shared by every Run variant. */
    method Dispatch(setup: Setup, targets: seq<Target>, attempts: seq<Attempt>, store: KnownHosts)
      requires |attempts| == |targets|
      modifies this, store
      ensures State(Outcomes(), store.file) == Dispatched(State(old(Outcomes()), old(store.file)), setup, targets, attempts)
      ensures command == old(command) && timeout == old(timeout) && concurrency == old(concurrency)
    {
      ghost var start := State(Outcomes(), store.file);
      for i := 0 to |targets|
        invariant State(Outcomes(), store.file) == Dispatched(start, setup, targets[..i], attempts[..i])
        invariant command == old(command) && timeout == old(timeout) && concurrency == old(concurrency)
      {
        assert targets[..i + 1][..i] == targets[..i];
        assert attempts[..i + 1][..i] == attempts[..i];
        var t := targets[i];
        var a := attempts[i];
        var err := Handshake(store, ConfigFor(setup, t), a.remote, setup.homeErr, a.writeErr);
        if err.Some? {
          errors := errors[t.name := err.value];
        } else {
          var out := FormatOutput(a.output);
          if a.runErr {
            failures := failures[t.name := out];
          } else {
            successes := successes[t.name := out];
          }
        }
      }
      assert targets[..|targets|] == targets;
      assert attempts[..|targets|] == attempts;
    }

    /**
     * Run of marathon/marathon.go: the auth error and the hosts-file check
     * come before any target; `ignoreFingerprint` picks the callback.
     */
    method Run(targets: seq<Target>, attempts: seq<Attempt>, user: string, authErr: Option<string>,
               homeErr: Option<string>, createErr: Option<string>, ignoreFingerprint: bool, store: KnownHosts)
      returns (err: Option<string>)
      requires |attempts| == |targets|
      modifies this, store
      ensures authErr.Some? ==> err == authErr && unchanged(this) && store.file == old(store.file)
      ensures authErr.None? ==>
        var created := CheckHostsFileSpec(old(store.file), homeErr, createErr);
        (created.err.Some? ==> err == created.err && unchanged(this) && store.file == old(store.file))
        && (created.err.None? ==>
              var cb := if ignoreFingerprint then InsecureIgnoreHostKey else VerifyKnownHosts;
              err.None?
              && State(Outcomes(), store.file)
                 == Dispatched(State(old(Outcomes()), created.file), Setup(user, cb, timeout, homeErr), targets, attempts))
      ensures command == old(command) && timeout == old(timeout) && concurrency == old(concurrency)
    {
      if authErr.Some? {
        return authErr;
      }
      err := store.CheckHostsFile(homeErr, createErr);
      if err.Some? {
        return err;
      }
      var cb := VerifyKnownHosts;
      if ignoreFingerprint {
        cb := InsecureIgnoreHostKey;
      }
      Dispatch(Setup(user, cb, timeout, homeErr), targets, attempts, store);
    }

    /**
     * Run of ssh/marathon.go: auth, the hosts file, then the log level
     * (`levelErr` is its parse error), then every target with verifyHost.
     */
    method RunChecked(targets: seq<Target>, attempts: seq<Attempt>, user: string, authErr: Option<string>,
                      homeErr: Option<string>, createErr: Option<string>, levelErr: Option<string>, store: KnownHosts)
      returns (err: Option<string>)
      requires |attempts| == |targets|
      modifies this, store
      ensures authErr.Some? ==> err == authErr && unchanged(this) && store.file == old(store.file)
      ensures authErr.None? ==>
        var created := CheckHostsFileSpec(old(store.file), homeErr, createErr);
        (created.err.Some? ==> err == created.err && unchanged(this) && store.file == old(store.file))
        && (created.err.None? && levelErr.Some? ==>
              err == Some(LevelError(levelErr.value)) && unchanged(this) && store.file == created.file)
        && (created.err.None? && levelErr.None? ==>
              err.None?
              && State(Outcomes(), store.file)
                 == Dispatched(State(old(Outcomes()), created.file), Setup(user, VerifyKnownHosts, timeout, homeErr), targets, attempts))
      ensures command == old(command) && timeout == old(timeout) && concurrency == old(concurrency)
    {
      if authErr.Some? {
        return authErr;
      }
      err := store.CheckHostsFile(homeErr, createErr);
      if err.Some? {
        return err;
      }
      if levelErr.Some? {
        return Some(LevelError(levelErr.value));
      }
      Dispatch(Setup(user, VerifyKnownHosts, timeout, homeErr), targets, attempts, store);
    }

    /** RunInsecure of ssh/marathon.go: no hosts-file check, any host key accepted. */
    method RunInsecure(targets: seq<Target>, attempts: seq<Attempt>, user: string, authErr: Option<string>,
                       levelErr: Option<string>, store: KnownHosts)
      returns (err: Option<string>)
      requires |attempts| == |targets|
      modifies this, store
      ensures authErr.Some? ==> err == authErr && unchanged(this)
      ensures authErr.None? && levelErr.Some? ==> err == Some(LevelError(levelErr.value)) && unchanged(this)
      ensures authErr.None? && levelErr.None? ==>
        err.None?
        && Outcomes() == Dispatched(State(old(Outcomes()), old(store.file)),
                                    Setup(user, InsecureIgnoreHostKey, timeout, None), targets, attempts).tally
      ensures store.file == old(store.file)
      ensures command == old(command) && timeout == old(timeout) && concurrency == old(concurrency)
    {
      if authErr.Some? {
        return authErr;
      }
      if levelErr.Some? {
        return Some(LevelError(levelErr.value));
      }
      ghost var before := store.file;
      Dispatch(Setup(user, InsecureIgnoreHostKey, timeout, None), targets, attempts, store);
      InsecureKeepsFile(State(old(Outcomes()), before), Setup(user, InsecureIgnoreHostKey, timeout, None), targets, attempts);
      err := None;
    }

    /** PrintResult: successes only when `failures` is false, then failures, errors and the counts. */
    method PrintResult(failures: bool) returns (out: seq<ReportLine>)
      ensures IsReport(out, Outcomes(), !failures)
    {
      out := PrintReport(Outcomes(), !failures);
    }
  }

  const LevelErrorPrefix: string := "couldn't parse log level: "

  /** The wrapped log-level error: the fixed prefix, then the parser's message unchanged. */
  function LevelError(e: string): (r: string)
    ensures |r| == |LevelErrorPrefix| + |e| && r[..|LevelErrorPrefix|] == LevelErrorPrefix && r[|LevelErrorPrefix|..] == e
  {
    LevelErrorPrefix + e
  }

  /**
   * Filing one new target: its name lands in exactly one map, errors when
   * the handshake failed, failures when the command failed, successes
   * otherwise, with the indented output; every other host keeps its entries.
   */
  lemma StepFilesTarget(s: State, setup: Setup, t: Target, a: Attempt)
    requires t.name !in s.tally.errors && t.name !in s.tally.failures && t.name !in s.tally.successes
    ensures var v := HandshakeSpec(s.file, ConfigFor(setup, t), a.remote, setup.homeErr, a.writeErr);
      var r := Step(s, setup, t, a).tally;
      (t.name in r.errors <==> v.err.Some?)
      && (t.name in r.failures <==> v.err.None? && a.runErr)
      && (t.name in r.successes <==> v.err.None? && !a.runErr)
      && (v.err.Some? ==> r.errors[t.name] == v.err.value)
      && (t.name in r.failures ==> r.failures[t.name] == FormatSpec(a.output))
      && (t.name in r.successes ==> r.successes[t.name] == FormatSpec(a.output))
      && (forall h :: h != t.name ==>
            (h in r.errors <==> h in s.tally.errors) && (h in r.failures <==> h in s.tally.failures)
            && (h in r.successes <==> h in s.tally.successes))
  {
  }

  /** A failing connection files the target under errors only, whatever the command would have printed. */
  lemma ConnectFailureIsError(s: State, setup: Setup, t: Target, a: Attempt, out: string, runErr: bool)
    requires a.remote.dialErr.Some?
    ensures Step(s, setup, t, a) == Step(s, setup, t, a.(output := out, runErr := runErr))
    ensures Step(s, setup, t, a).tally == Record(s.tally, t.name, Errored(a.remote.dialErr.value))
  {
  }

  predicate DistinctNames(targets: seq<Target>)
  {
    forall i, j :: 0 <= i < j < |targets| ==> targets[i].name != targets[j].name
  }

  function Names(targets: seq<Target>): set<string>
  {
    set i | 0 <= i < |targets| :: targets[i].name
  }

  /**
   * From empty maps, a run over targets with distinct names files every
   * target in exactly one map and nothing else, so the three counts add up
   * to the number of targets.
   */
  lemma {:induction false} DispatchPartitions(file: HostsFile, setup: Setup, targets: seq<Target>, attempts: seq<Attempt>)
    requires |attempts| == |targets| && DistinctNames(targets)
    ensures var r := Dispatched(State(Empty, file), setup, targets, attempts).tally;
      Partitioned(r, Names(targets)) && Size(r) == |targets|
  {
    if |targets| > 0 {
      var n := |targets| - 1;
      var prefix := targets[..n];
      assert DistinctNames(prefix);
      DispatchPartitions(file, setup, prefix, attempts[..n]);
      NamesSnoc(targets);
      NamesCount(prefix);
      var s := Dispatched(State(Empty, file), setup, prefix, attempts[..n]);
      var v := HandshakeSpec(s.file, ConfigFor(setup, targets[n]), attempts[n].remote, setup.homeErr, attempts[n].writeErr);
      RecordPartition(s.tally, Names(prefix), targets[n].name, OutcomeOf(v, attempts[n]));
    }
  }

  /** The names of a list are those of all but its last target, plus the last one's, which is new when names are distinct. */
  lemma NamesSnoc(targets: seq<Target>)
    requires |targets| > 0 && DistinctNames(targets)
    ensures var n := |targets| - 1;
      Names(targets) == Names(targets[..n]) + {targets[n].name} && targets[n].name !in Names(targets[..n])
  {
    var n := |targets| - 1;
    assert Names(targets) == Names(targets[..n]) + {targets[n].name} by {
      forall x | x in Names(targets) ensures x in Names(targets[..n]) + {targets[n].name} {
        var i :| 0 <= i < |targets| && targets[i].name == x;
        if i < n {
          assert targets[..n][i] == targets[i];
        }
      }
    }
  }

  /** Distinct names are as many as the targets. */
  lemma {:induction false} NamesCount(targets: seq<Target>)
    requires DistinctNames(targets)
    ensures |Names(targets)| == |targets|
  {
    if |targets| > 0 {
      var n := |targets| - 1;
      assert DistinctNames(targets[..n]);
      NamesCount(targets[..n]);
      NamesSnoc(targets);
    }
  }

  /** A run never rewrites known_hosts: the lines before it are kept in front. */
  lemma {:induction false} DispatchKeepsPins(s: State, setup: Setup, targets: seq<Target>, attempts: seq<Attempt>)
    requires |attempts| == |targets|
    ensures var f := Dispatched(s, setup, targets, attempts).file;
      |s.file.lines| <= |f.lines| && f.lines[..|s.file.lines|] == s.file.lines
  {
    if |targets| > 0 {
      var n := |targets| - 1;
      DispatchKeepsPins(s, setup, targets[..n], attempts[..n]);
      var p := Dispatched(s, setup, targets[..n], attempts[..n]);
      StepKeepsPins(p, setup, targets[n], attempts[n]);
      var f := Dispatched(s, setup, targets, attempts).file;
      assert f.lines[..|s.file.lines|] == f.lines[..|p.file.lines|][..|s.file.lines|];
    }
  }

  /** One handshake keeps the lines of known_hosts in front. */
  lemma StepKeepsPins(s: State, setup: Setup, t: Target, a: Attempt)
    ensures var f := Step(s, setup, t, a).file;
      |s.file.lines| <= |f.lines| && f.lines[..|s.file.lines|] == s.file.lines
  {
    var c := ConfigFor(setup, t);
    if a.remote.dialErr.None? && setup.callback == VerifyKnownHosts {
      LinesOnlyGrow(s.file, HostPort(c.addr, c.port), a.remote.hostKey, setup.homeErr, a.writeErr);
    }
  }

  /** With host keys ignored, known_hosts is left exactly as it was. */
  lemma {:induction false} InsecureKeepsFile(s: State, setup: Setup, targets: seq<Target>, attempts: seq<Attempt>)
    requires |attempts| == |targets| && setup.callback == InsecureIgnoreHostKey
    ensures Dispatched(s, setup, targets, attempts).file == s.file
  {
    if |targets| > 0 {
      var n := |targets| - 1;
      InsecureKeepsFile(s, setup, targets[..n], attempts[..n]);
    }
  }
}

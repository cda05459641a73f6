/**
 * Opening an SSH session (ssh/ssh.go).  Connect checks the key's auth
 * method, makes sure the known_hosts file exists and dials with verifyHost as
 * host-key callback; ConnectInsecure skips the file and accepts any host key.
 * Both dial port 22 with a ten-second timeout.  The remote end is abstract:
 * whether the TCP dial fails, which host key it presents, and whether it
 * refuses the authentication.  The SSH handshake checks the host key before
 * authenticating, so a first contact pins the key even when login then fails.
 */
module Session {
  import opened Wrappers
  import opened GoStrconv
  import opened Trust

  const SshPort: nat := 22
  const ConnectTimeoutSeconds: nat := 10

  datatype HostKeyCallback = VerifyKnownHosts | InsecureIgnoreHostKey

  /** The goph.Config of a connection; the auth method itself is left abstract. */
  datatype Config = Config(user: string, addr: string, port: nat, callback: HostKeyCallback, timeout: nat)

  /** A connected client and the configuration it was opened with. */
  datatype Client = Client(config: Config)

  /** What the remote end does during the dial. */
  datatype Remote = Remote(dialErr: Option<string>, hostKey: HostKey, authErr: Option<string>)

  /** The address the SSH library dials and hands to the host-key callback. */
  function HostPort(addr: string, port: nat): (r: string)
    ensures |r| > |addr| + 1 && r[..|addr| + 1] == addr + ":"
  {
    addr + ":" + Itoa(port)
  }

  /** Port 22 is written "22". */
  lemma PortString(addr: string)
    ensures HostPort(addr, SshPort) == addr + ":22"
  {
    assert DigitChar(2) == '2';
    assert Itoa(22) == Itoa(2) + [DigitChar(2)];
  }

  /**
   * goph.NewConn: dial, then the host-key callback, then authentication.
   * The callback's file lookups use `homeErr`, its append `writeErr`.
   */
  function HandshakeSpec(f: HostsFile, c: Config, remote: Remote, homeErr: Option<string>, writeErr: Option<string>): Verdict
  {
    if remote.dialErr.Some? then Verdict(remote.dialErr, f)
    else
      match c.callback
      case InsecureIgnoreHostKey => Verdict(remote.authErr, f)
      case VerifyKnownHosts =>
        var v := VerifyHostSpec(f, HostPort(c.addr, c.port), remote.hostKey, homeErr, writeErr);
        if v.err.Some? then v else Verdict(remote.authErr, v.file)
  }

  method Handshake(store: KnownHosts, c: Config, remote: Remote, homeErr: Option<string>, writeErr: Option<string>)
    returns (err: Option<string>)
    modifies store
    ensures Verdict(err, store.file) == HandshakeSpec(old(store.file), c, remote, homeErr, writeErr)
  {
    if remote.dialErr.Some? {
      return remote.dialErr;
    }
    if c.callback == VerifyKnownHosts {
      err := store.VerifyHost(HostPort(c.addr, c.port), remote.hostKey, homeErr, writeErr);
      if err.Some? {
        return err;
      }
    }
    err := remote.authErr;
  }

  /** A handshake that succeeds with host-key verification leaves the presented key trusted. */
  lemma HandshakeTrusts(f: HostsFile, c: Config, remote: Remote, homeErr: Option<string>, writeErr: Option<string>)
    requires c.callback == VerifyKnownHosts && f.exists_
    ensures var v := HandshakeSpec(f, c, remote, homeErr, writeErr);
      v.err.None? ==> Trusted(v.file, HostPort(c.addr, c.port), remote.hostKey)
  {
    var v := HandshakeSpec(f, c, remote, homeErr, writeErr);
    if v.err.None? {
      var host := HostPort(c.addr, c.port);
      if Known(f, host) {
        assert Trusted(f, host, remote.hostKey);
      } else {
        FirstOfTypeAppendNew(f.lines, host, remote.hostKey, remote.hostKey.algo);
      }
    }
  }

  /** Ignoring host keys never reads or writes known_hosts and does not depend on the key. */
  lemma InsecureHandshakeIgnoresKey(f: HostsFile, c: Config, remote: Remote, other: HostKey,
                                    homeErr: Option<string>, writeErr: Option<string>)
    requires c.callback == InsecureIgnoreHostKey
    ensures HandshakeSpec(f, c, remote, homeErr, writeErr).file == f
    ensures HandshakeSpec(f, c, remote, homeErr, writeErr)
         == HandshakeSpec(f, c, remote.(hostKey := other), None, None)
  {
  }

  /** Connect: auth first, then the hosts file, then the verified dial. */
  method Connect(store: KnownHosts, address: string, user: string, authErr: Option<string>,
                 homeErr: Option<string>, createErr: Option<string>, writeErr: Option<string>, remote: Remote)
    returns (r: Result<Client>)
    modifies store
    ensures authErr.Some? ==> r == Err(authErr.value) && store.file == old(store.file)
    ensures authErr.None? ==>
      var created := CheckHostsFileSpec(old(store.file), homeErr, createErr);
      (created.err.Some? ==> r == Err(created.err.value) && store.file == old(store.file))
      && (created.err.None? ==>
            var c := Config(user, address, SshPort, VerifyKnownHosts, ConnectTimeoutSeconds);
            var v := HandshakeSpec(created.file, c, remote, homeErr, writeErr);
            store.file == v.file
            && (v.err.Some? ==> r == Err(v.err.value))
            && (v.err.None? ==> r == Ok(Client(c))))
  {
    if authErr.Some? {
      return Err(authErr.value);
    }
    var err := store.CheckHostsFile(homeErr, createErr);
    if err.Some? {
      return Err(err.value);
    }
    var c := Config(user, address, SshPort, VerifyKnownHosts, ConnectTimeoutSeconds);
    err := Handshake(store, c, remote, homeErr, writeErr);
    if err.Some? {
      return Err(err.value);
    }
    r := Ok(Client(c));
  }

  /** ConnectInsecure: auth first, then a dial that accepts any host key. */
  function ConnectInsecure(address: string, user: string, authErr: Option<string>, remote: Remote): (r: Result<Client>)
    ensures r.Ok? <==> authErr.None? && remote.dialErr.None? && remote.authErr.None?
    ensures r.Ok? ==> r.value.config == Config(user, address, SshPort, InsecureIgnoreHostKey, ConnectTimeoutSeconds)
    ensures authErr.Some? ==> r == Err(authErr.value)
  {
    if authErr.Some? then Err(authErr.value)
    else
      var c := Config(user, address, SshPort, InsecureIgnoreHostKey, ConnectTimeoutSeconds);
      var v := HandshakeSpec(HostsFile(false, []), c, remote, None, None);
      if v.err.Some? then Err(v.err.value) else Ok(Client(c))
  }

  /**
   * A client returned by Connect was verified: the host, as "address:22",
   * is in known_hosts with exactly the key it presented, and no earlier line
   * was lost.
   */
  lemma ConnectedHostTrusted(f: HostsFile, address: string, user: string,
                             homeErr: Option<string>, createErr: Option<string>, writeErr: Option<string>, remote: Remote)
    ensures var created := CheckHostsFileSpec(f, homeErr, createErr);
      var c := Config(user, address, SshPort, VerifyKnownHosts, ConnectTimeoutSeconds);
      var v := HandshakeSpec(created.file, c, remote, homeErr, writeErr);
      created.err.None? && v.err.None? ==>
        Trusted(v.file, address + ":22", remote.hostKey)
        && (f.exists_ ==> v.file.lines[..|f.lines|] == f.lines)
  {
    var created := CheckHostsFileSpec(f, homeErr, createErr);
    var c := Config(user, address, SshPort, VerifyKnownHosts, ConnectTimeoutSeconds);
    if created.err.None? {
      assert created.file.exists_;
      HandshakeTrusts(created.file, c, remote, homeErr, writeErr);
      PortString(address);
      if remote.dialErr.None? {
        LinesOnlyGrow(created.file, HostPort(c.addr, c.port), remote.hostKey, homeErr, writeErr);
      }
    }
  }

  /** A host already pinned to another key is refused and its line is kept. */
  lemma ConnectRefusesChangedKey(f: HostsFile, address: string, user: string,
                                 createErr: Option<string>, writeErr: Option<string>, remote: Remote)
    requires f.exists_ && remote.dialErr.None?
    requires Known(f, address + ":22") && !Trusted(f, address + ":22", remote.hostKey)
    ensures var c := Config(user, address, SshPort, VerifyKnownHosts, ConnectTimeoutSeconds);
      HandshakeSpec(CheckHostsFileSpec(f, None, createErr).file, c, remote, None, writeErr)
        == Verdict(Some(KeyMismatch), f)
  {
    PortString(address);
    MismatchRejected(f, address + ":22", remote.hostKey, writeErr);
  }
}

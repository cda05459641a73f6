/**
 * The gRPC transport of pkg/common/transport/grpc.go.  Functional options
 * are applied in order to the defaults (TLS off, SSH on); then the SSH
 * tunnel (host keys checked or ignored), a plain HTTP/2 dial, or no
 * connection at all is chosen.  The SSH client and the gRPC dial are
 * abstract: their errors are inputs.
 *
 * As written, the withSSH option assigns the `insecure` field instead of
 * `useSSH`; `ApplyAsWritten` keeps that code, and `Apply`, used by the
 * transport below, assigns `useSSH` as the option's name says.
 */
module GrpcTransport {
  import opened Wrappers
  import opened GoStrconv
  import opened Session

  const PortalPort: nat := 1337
  const Loopback: string := "127.0.0.1"

  /** A key.Key; its material is left abstract. */
  datatype Key = Key(user: string, material: string)

  datatype Options = Options(insecure: bool, useSSH: bool, key: Option<Key>)

  datatype TransportOption = WithInsecure(enable: bool) | WithSSH(enable: bool) | WithSSHKey(key: Key)

  const DefaultOptions: Options := Options(false, true, None)

  /** The apply methods as written: withSSH sets `insecure`. */
  function ApplyAsWritten(o: Options, opt: TransportOption): (r: Options)
    ensures r.useSSH == o.useSSH
    ensures opt.WithSSHKey? ==> r == o.(key := Some(opt.key))
    ensures !opt.WithSSHKey? ==> r == o.(insecure := opt.enable)
  {
    match opt
    case WithInsecure(b) => o.(insecure := b)
    case WithSSH(b) => o.(insecure := b)
    case WithSSHKey(k) => o.(key := Some(k))
  }

  /** The apply methods as intended: withSSH sets `useSSH`. */
  function Apply(o: Options, opt: TransportOption): (r: Options)
    ensures opt.WithInsecure? ==> r == o.(insecure := opt.enable)
    ensures opt.WithSSH? ==> r == o.(useSSH := opt.enable)
    ensures opt.WithSSHKey? ==> r == o.(key := Some(opt.key))
  {
    match opt
    case WithInsecure(b) => o.(insecure := b)
    case WithSSH(b) => o.(useSSH := b)
    case WithSSHKey(k) => o.(key := Some(k))
  }

  /** The options after applying `opts` left to right. */
  function Folded(o: Options, opts: seq<TransportOption>): Options
  {
    if |opts| == 0 then o else Apply(Folded(o, opts[..|opts| - 1]), opts[|opts| - 1])
  }

  function FoldedAsWritten(o: Options, opts: seq<TransportOption>): Options
  {
    if |opts| == 0 then o else ApplyAsWritten(FoldedAsWritten(o, opts[..|opts| - 1]), opts[|opts| - 1])
  }

  /** The gRPC target of a direct dial, "address:1337". */
  function DirectTarget(address: string): (r: string)
    ensures r == address + ":1337"
  {
    assert DigitChar(1) == '1' && DigitChar(3) == '3' && DigitChar(7) == '7';
    assert Itoa(1337) == Itoa(133) + "7";
    assert Itoa(133) == Itoa(13) + "3";
    assert Itoa(13) == Itoa(1) + "3";
    address + ":" + Itoa(PortalPort)
  }

  /** A gRPC connection: its target and, when tunnelled, how the SSH client treats host keys. */
  datatype Conn = Conn(target: string, tunnel: Option<HostKeyCallback>)

  /** The transport being set up: its address, options and connection. */
  class GrpcTransport {
    var address: string
    var opts: Options
    var conn: Option<Conn>

    constructor (address: string)
      ensures this.address == address && opts == DefaultOptions && conn.None?
    {
      this.address := address;
      opts := DefaultOptions;
      conn := None;
    }

    /** The loop applying every option to `opts`. */
    method ApplyAll(options: seq<TransportOption>)
      modifies this
      ensures opts == Folded(old(opts), options)
      ensures address == old(address) && conn == old(conn)
    {
      for i := 0 to |options|
        invariant opts == Folded(old(opts), options[..i])
        invariant address == old(address) && conn == old(conn)
      {
        assert options[..i + 1][..i] == options[..i];
        opts := Apply(opts, options[i]);
      }
      assert options[..|options|] == options;
    }
  }

  /**
   * The branch of NewGRPCTransport: with SSH, the tunnel to 127.0.0.1:1337
   * (host keys ignored when insecure); without SSH but insecure, a direct
   * dial of address:1337; otherwise no connection and no error.
   */
  function Select(o: Options, address: string, sshErr: Option<string>, dialErr: Option<string>): (r: Result<Option<Conn>>)
    ensures r.Ok? && r.value.Some? && r.value.value.tunnel.Some? <==> o.useSSH && sshErr.None? && dialErr.None?
    ensures r.Ok? && r.value.Some? && r.value.value.tunnel.Some? ==>
      r.value.value.target == Loopback + ":1337"
      && (r.value.value.tunnel.value == InsecureIgnoreHostKey <==> o.insecure)
    ensures r.Ok? && r.value.Some? && r.value.value.tunnel.None? <==> !o.useSSH && o.insecure && dialErr.None?
    ensures r.Ok? && r.value.Some? && r.value.value.tunnel.None? ==> r.value.value.target == address + ":1337"
    ensures r == Ok(None) <==> !o.useSSH && !o.insecure
  {
    if o.useSSH then
      var cb := if o.insecure then InsecureIgnoreHostKey else VerifyKnownHosts;
      if sshErr.Some? then Err(sshErr.value)
      else if dialErr.Some? then Err(dialErr.value)
      else Ok(Some(Conn(DirectTarget(Loopback), Some(cb))))
    else if o.insecure then
      if dialErr.Some? then Err(dialErr.value) else Ok(Some(Conn(DirectTarget(address), None)))
    else Ok(None)
  }

  /** NewGRPCTransport: defaults, the options in order, then the branch. */
  method NewGRPCTransport(address: string, options: seq<TransportOption>, sshErr: Option<string>, dialErr: Option<string>)
    returns (r: Result<Option<Conn>>)
    ensures r == Select(Folded(DefaultOptions, options), address, sshErr, dialErr)
  {
    var t := new GrpcTransport(address);
    t.ApplyAll(options);
    if t.opts.useSSH {
      var cb := if t.opts.insecure then InsecureIgnoreHostKey else VerifyKnownHosts;
      if sshErr.Some? {
        return Err(sshErr.value);
      }
      if dialErr.Some? {
        return Err(dialErr.value);
      }
      t.conn := Some(Conn(DirectTarget(Loopback), Some(cb)));
    } else if t.opts.insecure {
      if dialErr.Some? {
        return Err(dialErr.value);
      }
      t.conn := Some(Conn(DirectTarget(t.address), None));
    }
    return Ok(t.conn);
  }

  predicate WritesInsecure(opt: TransportOption)
  {
    opt.WithInsecure?
  }

  /** The last option writing `insecure` decides it. */
  lemma {:induction false} LastInsecureWins(o: Options, pre: seq<TransportOption>, b: bool, post: seq<TransportOption>)
    requires forall i :: 0 <= i < |post| ==> !WritesInsecure(post[i])
    ensures Folded(o, pre + [WithInsecure(b)] + post).insecure == b
    decreases |post|
  {
    var all := pre + [WithInsecure(b)] + post;
    if |post| == 0 {
      assert all[..|all| - 1] == pre;
    } else {
      var n := |post| - 1;
      assert all[..|all| - 1] == pre + [WithInsecure(b)] + post[..n];
      LastInsecureWins(o, pre, b, post[..n]);
    }
  }

  /** The last withSSH option decides whether SSH is used, and the other fields ignore it. */
  lemma {:induction false} LastSshWins(o: Options, pre: seq<TransportOption>, b: bool, post: seq<TransportOption>)
    requires forall i :: 0 <= i < |post| ==> !post[i].WithSSH?
    ensures Folded(o, pre + [WithSSH(b)] + post).useSSH == b
    decreases |post|
  {
    var all := pre + [WithSSH(b)] + post;
    if |post| == 0 {
      assert all[..|all| - 1] == pre;
    } else {
      var n := |post| - 1;
      assert all[..|all| - 1] == pre + [WithSSH(b)] + post[..n];
      LastSshWins(o, pre, b, post[..n]);
    }
  }

  /** As written, no option list turns SSH off. */
  lemma {:induction false} UseSshAlwaysTrue(opts: seq<TransportOption>)
    ensures FoldedAsWritten(DefaultOptions, opts).useSSH
  {
    if |opts| > 0 {
      UseSshAlwaysTrue(opts[..|opts| - 1]);
    }
  }

  /** As written, WithSSH(true) makes the tunnel ignore host keys, and WithSSH(false) still tunnels. */
  lemma WithSshAsWrittenCounterexample(address: string)
    ensures Select(FoldedAsWritten(DefaultOptions, [WithSSH(true)]), address, None, None)
         == Ok(Some(Conn(Loopback + ":1337", Some(InsecureIgnoreHostKey))))
    ensures Select(FoldedAsWritten(DefaultOptions, [WithSSH(false)]), address, None, None)
         == Ok(Some(Conn(Loopback + ":1337", Some(VerifyKnownHosts))))
  {
    assert [WithSSH(true)][..0] == [];
    assert [WithSSH(false)][..0] == [];
  }

  /** As intended, WithSSH(false) with WithInsecure(true) dials directly, and WithSSH never touches `insecure`. */
  lemma WithSshIntended(address: string, o: Options, b: bool)
    ensures Select(Folded(DefaultOptions, [WithInsecure(true), WithSSH(false)]), address, None, None)
         == Ok(Some(Conn(address + ":1337", None)))
    ensures Apply(o, WithSSH(b)).insecure == o.insecure
  {
    var opts := [WithInsecure(true), WithSSH(false)];
    assert opts[..1] == [WithInsecure(true)];
    assert opts[..1][..0] == [];
  }
}

/**
 * The portal transport of pkg/common/transport/transport.go.  Options are
 * applied in order to the defaults (TLS off, no key).  With a key, an SSH
 * client is opened (host keys ignored when insecure) and gRPC goes through
 * it to 127.0.0.1:1337 on the remote side; without a key gRPC dials
 * address:1337 directly, whatever `insecure` says.  The SSH client and the
 * dial are abstract: their errors are inputs.
 */
module PortalTransport {
  import opened Wrappers
  import opened Session
  import GrpcTransport

  type Key = GrpcTransport.Key
  type Conn = GrpcTransport.Conn

  datatype Options = Options(insecure: bool, key: Option<Key>)

  datatype TransportOption = WithInsecure(enable: bool) | WithSSH(key: Key)

  const DefaultOptions: Options := Options(false, None)

  function Apply(o: Options, opt: TransportOption): (r: Options)
    ensures opt.WithInsecure? ==> r == o.(insecure := opt.enable)
    ensures opt.WithSSH? ==> r == o.(key := Some(opt.key))
  {
    match opt
    case WithInsecure(b) => o.(insecure := b)
    case WithSSH(k) => o.(key := Some(k))
  }

  function Folded(o: Options, opts: seq<TransportOption>): Options
  {
    if |opts| == 0 then o else Apply(Folded(o, opts[..|opts| - 1]), opts[|opts| - 1])
  }

  /** HTTP2Transport: a direct dial of "address:1337". */
  function HTTP2Transport(address: string, dialErr: Option<string>): (r: Result<Conn>)
    ensures r.Ok? <==> dialErr.None?
    ensures r.Ok? ==> r.value == GrpcTransport.Conn(address + ":1337", None)
  {
    if dialErr.Some? then Err(dialErr.value) else Ok(GrpcTransport.Conn(GrpcTransport.DirectTarget(address), None))
  }

  class Transport {
    var address: string
    var opts: Options
    var conn: Option<Conn>

    constructor (address: string)
      ensures this.address == address && opts == DefaultOptions && conn.None?
    {
      this.address := address;
      opts := DefaultOptions;
      conn := None;
    }

    method ApplyAll(options: seq<TransportOption>)
      modifies this
      ensures opts == Folded(old(opts), options)
      ensures address == old(address) && conn == old(conn)
    {
      for i := 0 to |options|
        invariant opts == Folded(old(opts), options[..i])
        invariant address == old(address) && conn == old(conn)
      {
        assert options[..i + 1][..i] == options[..i];
        opts := Apply(opts, options[i]);
      }
      assert options[..|options|] == options;
    }
  }

  /** The branch of NewTransport on the key and `insecure`. */
  function Select(o: Options, address: string, sshErr: Option<string>, dialErr: Option<string>): (r: Result<Conn>)
    ensures o.key.Some? && r.Ok? ==>
      r.value.target == GrpcTransport.Loopback + ":1337"
      && r.value.tunnel == Some(if o.insecure then InsecureIgnoreHostKey else VerifyKnownHosts)
    ensures o.key.Some? ==> (r.Ok? <==> sshErr.None? && dialErr.None?)
    ensures o.key.Some? && sshErr.Some? ==> r == Err(sshErr.value)
    ensures o.key.None? ==> r == HTTP2Transport(address, dialErr)
  {
    if o.key.Some? then
      var cb := if o.insecure then InsecureIgnoreHostKey else VerifyKnownHosts;
      if sshErr.Some? then Err(sshErr.value)
      else if dialErr.Some? then Err(dialErr.value)
      else Ok(GrpcTransport.Conn(GrpcTransport.DirectTarget(GrpcTransport.Loopback), Some(cb)))
    else HTTP2Transport(address, dialErr)
  }

  method NewTransport(address: string, options: seq<TransportOption>, sshErr: Option<string>, dialErr: Option<string>)
    returns (r: Result<Conn>)
    ensures r == Select(Folded(DefaultOptions, options), address, sshErr, dialErr)
  {
    var t := new Transport(address);
    t.ApplyAll(options);
    if t.opts.key.Some? {
      var cb := if t.opts.insecure then InsecureIgnoreHostKey else VerifyKnownHosts;
      if sshErr.Some? {
        return Err(sshErr.value);
      }
      if dialErr.Some? {
        return Err(dialErr.value);
      }
      t.conn := Some(GrpcTransport.Conn(GrpcTransport.DirectTarget(GrpcTransport.Loopback), Some(cb)));
    } else {
      if dialErr.Some? {
        return Err(dialErr.value);
      }
      t.conn := Some(GrpcTransport.Conn(GrpcTransport.DirectTarget(t.address), None));
    }
    return Ok(t.conn.value);
  }

  /** The last WithInsecure decides `insecure`. */
  lemma {:induction false} LastInsecureWins(o: Options, pre: seq<TransportOption>, b: bool, post: seq<TransportOption>)
    requires forall i :: 0 <= i < |post| ==> !post[i].WithInsecure?
    ensures Folded(o, pre + [WithInsecure(b)] + post).insecure == b
    decreases |post|
  {
    var all := pre + [WithInsecure(b)] + post;
    if |post| == 0 {
      assert all[..|all| - 1] == pre;
    } else {
      var n := |post| - 1;
      assert all[..|all| - 1] == pre + [WithInsecure(b)] + post[..n];
      LastInsecureWins(o, pre, b, post[..n]);
    }
  }

  /** The last WithSSH decides the key. */
  lemma {:induction false} LastKeyWins(o: Options, pre: seq<TransportOption>, k: Key, post: seq<TransportOption>)
    requires forall i :: 0 <= i < |post| ==> !post[i].WithSSH?
    ensures Folded(o, pre + [WithSSH(k)] + post).key == Some(k)
    decreases |post|
  {
    var all := pre + [WithSSH(k)] + post;
    if |post| == 0 {
      assert all[..|all| - 1] == pre;
    } else {
      var n := |post| - 1;
      assert all[..|all| - 1] == pre + [WithSSH(k)] + post[..n];
      LastKeyWins(o, pre, k, post[..n]);
    }
  }

  /** Without any WithSSH option there is no key, so the dial is direct. */
  lemma {:induction false} NoKeyWithoutSsh(opts: seq<TransportOption>)
    requires forall i :: 0 <= i < |opts| ==> !opts[i].WithSSH?
    ensures Folded(DefaultOptions, opts).key.None?
  {
    if |opts| > 0 {
      NoKeyWithoutSsh(opts[..|opts| - 1]);
    }
  }

  /** Without a key, `insecure` changes nothing. */
  lemma InsecureIgnoredWithoutKey(o: Options, address: string, sshErr: Option<string>, dialErr: Option<string>)
    requires o.key.None?
    ensures Select(o, address, sshErr, dialErr) == Select(o.(insecure := !o.insecure), address, None, dialErr)
  {
  }
}

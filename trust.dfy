/**
 * Trust on first use for SSH host keys (verifyHost and checkHostsFile, the
 * same code in ssh/ssh.go and marathon/marathon.go).  The known_hosts file
 * under ~/.speedrun is an append-only list of (host, key) lines.  The lookup
 * of the SSH library (goph.CheckKnownHost over x/crypto's knownhosts)
 * reports, for a host and the key it presented, whether the host is known
 * and which error occurred; verifyHost adds an unknown host, rejects a known
 * host that presents a different key, and accepts a known key.
 */
module Trust {
  import opened Wrappers

  const KeyUnknown: string := "knownhosts: key is unknown"
  const KeyMismatch: string := "knownhosts: key mismatch"
  const NoHostsFile: string := "open known_hosts: no such file or directory"

  /** A public host key: its algorithm (what ssh.PublicKey's Type returns) and its encoding. */
  datatype HostKey = HostKey(algo: string, blob: string)

  datatype HostLine = HostLine(host: string, key: HostKey)

  /** The known_hosts file: whether it exists, and its lines. */
  datatype HostsFile = HostsFile(exists_: bool, lines: seq<HostLine>)

  /** The answer of the known-hosts lookup: was the host found, and the error. */
  datatype Check = Check(hostFound: bool, err: Option<string>)

  predicate Known(f: HostsFile, host: string)
  {
    exists i :: 0 <= i < |f.lines| && f.lines[i].host == host
  }

  /**
   * The key knownhosts compares with: of the lines naming the host, the first
   * one whose key has the given algorithm.  Later lines of the same algorithm
   * are never consulted.
   */
  function FirstOfType(lines: seq<HostLine>, host: string, algo: string): (k: Option<HostKey>)
    ensures k.Some? ==> k.value.algo == algo && HostLine(host, k.value) in lines
    ensures k.None? <==> forall i :: 0 <= i < |lines| ==> lines[i].host != host || lines[i].key.algo != algo
  {
    if |lines| == 0 then None
    else if lines[0].host == host && lines[0].key.algo == algo then Some(lines[0].key)
    else
      var k := FirstOfType(lines[1..], host, algo);
      assert forall i :: 1 <= i < |lines| ==> lines[i] == lines[1..][i - 1];
      k
  }

  /** The host is trusted with this key: the first line for the host with the key's algorithm holds exactly this key. */
  predicate Trusted(f: HostsFile, host: string, key: HostKey)
  {
    FirstOfType(f.lines, host, key.algo) == Some(key)
  }

  /**
   * The library's CheckKnownHost: an unreadable file is a plain error; a host
   * with no line is not found with "key is unknown"; a host whose first line
   * of the presented key's algorithm holds another key, or that has no line
   * of that algorithm, is found with a mismatch error; otherwise it is found
   * with no error.
   */
  function CheckKnownHost(f: HostsFile, host: string, key: HostKey): (c: Check)
    ensures c.err.None? <==> f.exists_ && Trusted(f, host, key)
    ensures c.err == Some(KeyUnknown) <==> f.exists_ && !Known(f, host)
    ensures c.hostFound <==> f.exists_ && Known(f, host)
  {
    if !f.exists_ then Check(false, Some(NoHostsFile))
    else if Trusted(f, host, key) then
      assert f.lines[IndexOf(f.lines, HostLine(host, key))].host == host;
      Check(true, None)
    else if Known(f, host) then Check(true, Some(KeyMismatch))
    else Check(false, Some(KeyUnknown))
  }

  function IndexOf(lines: seq<HostLine>, l: HostLine): (i: int)
    requires l in lines
    ensures 0 <= i < |lines| && lines[i] == l
  {
    if lines[0] == l then 0 else 1 + IndexOf(lines[1..], l)
  }

  /** The line FirstOfType picks is the first line for the host with that algorithm. */
  lemma {:induction false} FirstOfTypeIsFirst(lines: seq<HostLine>, host: string, i: nat)
    requires i < |lines| && lines[i].host == host
    requires forall j :: 0 <= j < i ==> lines[j].host != host || lines[j].key.algo != lines[i].key.algo
    ensures FirstOfType(lines, host, lines[i].key.algo) == Some(lines[i].key)
  {
    if i > 0 {
      assert lines[1..][i - 1] == lines[i];
      FirstOfTypeIsFirst(lines[1..], host, i - 1);
    }
  }

  /** A line appended for a host with no earlier line decides that host's keys of its algorithm. */
  lemma {:induction false} FirstOfTypeAppendNew(lines: seq<HostLine>, host: string, key: HostKey, algo: string)
    requires forall i :: 0 <= i < |lines| ==> lines[i].host != host
    ensures FirstOfType(lines + [HostLine(host, key)], host, algo) == if algo == key.algo then Some(key) else None
  {
    if |lines| > 0 {
      assert (lines + [HostLine(host, key)])[1..] == lines[1..] + [HostLine(host, key)];
      FirstOfTypeAppendNew(lines[1..], host, key, algo);
    }
  }

  /** The outcome of verifyHost: its error and the known_hosts file afterwards. */
  datatype Verdict = Verdict(err: Option<string>, file: HostsFile)

  /**
   * verifyHost.  `homeErr` is the home-directory lookup's error and
   * `writeErr` the error of appending the new line.
   */
  function VerifyHostSpec(f: HostsFile, host: string, key: HostKey, homeErr: Option<string>, writeErr: Option<string>): Verdict
  {
    if homeErr.Some? then Verdict(homeErr, f)
    else
      var c := CheckKnownHost(f, host, key);
      if c.hostFound && c.err.Some? then Verdict(c.err, f)
      else if !c.hostFound && c.err.Some? then
        if c.err.value == KeyUnknown then
          if writeErr.Some? then Verdict(writeErr, f)
          else Verdict(None, HostsFile(true, f.lines + [HostLine(host, key)]))
        else Verdict(c.err, f)
      else Verdict(None, f)
  }

  /** checkHostsFile: create the file when it does not exist; `createErr` is the creation's error. */
  function CheckHostsFileSpec(f: HostsFile, homeErr: Option<string>, createErr: Option<string>): Verdict
  {
    if homeErr.Some? then Verdict(homeErr, f)
    else if !f.exists_ then
      if createErr.Some? then Verdict(createErr, f) else Verdict(None, HostsFile(true, []))
    else Verdict(None, f)
  }

  /** The known_hosts file as a mutable store. */
  class KnownHosts {
    var file: HostsFile

    constructor (file: HostsFile)
      ensures this.file == file
    {
      this.file := file;
    }

    method VerifyHost(host: string, key: HostKey, homeErr: Option<string>, writeErr: Option<string>) returns (err: Option<string>)
      modifies this
      ensures Verdict(err, file) == VerifyHostSpec(old(file), host, key, homeErr, writeErr)
    {
      if homeErr.Some? {
        return homeErr;
      }
      var c := CheckKnownHost(file, host, key);
      if c.hostFound && c.err.Some? {
        return c.err;
      }
      if !c.hostFound && c.err.Some? {
        if c.err.value == KeyUnknown {
          if writeErr.Some? {
            return writeErr;
          }
          file := HostsFile(true, file.lines + [HostLine(host, key)]);
          return None;
        }
        return c.err;
      }
      return None;
    }

    method CheckHostsFile(homeErr: Option<string>, createErr: Option<string>) returns (err: Option<string>)
      modifies this
      ensures Verdict(err, file) == CheckHostsFileSpec(old(file), homeErr, createErr)
    {
      if homeErr.Some? {
        return homeErr;
      }
      if !file.exists_ {
        if createErr.Some? {
          return createErr;
        }
        file := HostsFile(true, []);
      }
      return None;
    }
  }

  /** A known host presenting a different key is rejected and its stored lines are not touched. */
  lemma MismatchRejected(f: HostsFile, host: string, key: HostKey, writeErr: Option<string>)
    requires f.exists_ && Known(f, host) && !Trusted(f, host, key)
    ensures VerifyHostSpec(f, host, key, None, writeErr) == Verdict(Some(KeyMismatch), f)
  {
  }

  /** An unknown host is added with the key it presented and accepted. */
  lemma UnknownHostAdded(f: HostsFile, host: string, key: HostKey)
    requires f.exists_ && !Known(f, host)
    ensures VerifyHostSpec(f, host, key, None, None) == Verdict(None, HostsFile(true, f.lines + [HostLine(host, key)]))
  {
  }

  /** Without a readable file the lookup error is returned and nothing is written. */
  lemma OtherErrorNoWrite(f: HostsFile, host: string, key: HostKey, writeErr: Option<string>)
    requires !f.exists_
    ensures VerifyHostSpec(f, host, key, None, writeErr) == Verdict(Some(NoHostsFile), f)
  {
  }

  /** A known key is accepted without writing. */
  lemma KnownKeyAccepted(f: HostsFile, host: string, key: HostKey, writeErr: Option<string>)
    requires f.exists_ && Trusted(f, host, key)
    ensures VerifyHostSpec(f, host, key, None, writeErr) == Verdict(None, f)
  {
  }

  /** verifyHost never rewrites a line: the old lines are a prefix of the new ones, and at most one line is added. */
  lemma LinesOnlyGrow(f: HostsFile, host: string, key: HostKey, homeErr: Option<string>, writeErr: Option<string>)
    ensures var g := VerifyHostSpec(f, host, key, homeErr, writeErr).file;
      g.lines[..|f.lines|] == f.lines && |f.lines| <= |g.lines| <= |f.lines| + 1
      && (g != f ==> g.lines == f.lines + [HostLine(host, key)] && !Known(f, host))
  {
  }

  /** Trust on first use: once a host was added, the same key is accepted and any other key is rejected. */
  lemma FirstUseThenPinned(f: HostsFile, host: string, key: HostKey, other: HostKey)
    requires f.exists_ && !Known(f, host) && other != key
    ensures var g := VerifyHostSpec(f, host, key, None, None).file;
      VerifyHostSpec(g, host, key, None, None) == Verdict(None, g)
      && VerifyHostSpec(g, host, other, None, None) == Verdict(Some(KeyMismatch), g)
  {
    var g := VerifyHostSpec(f, host, key, None, None).file;
    FirstOfTypeAppendNew(f.lines, host, key, key.algo);
    FirstOfTypeAppendNew(f.lines, host, key, other.algo);
    assert g.lines[|f.lines|].host == host;
  }

  /**
   * Only the first line of an algorithm counts: when a host's first line of
   * that algorithm holds another key, presenting a key of the same algorithm
   * is a mismatch even if a later line holds exactly that key.
   */
  lemma EarlierLineOfTypeWins(f: HostsFile, host: string, i: nat, key: HostKey, writeErr: Option<string>)
    requires f.exists_ && i < |f.lines| && f.lines[i].host == host
    requires forall j :: 0 <= j < i ==> f.lines[j].host != host || f.lines[j].key.algo != f.lines[i].key.algo
    requires key.algo == f.lines[i].key.algo && key != f.lines[i].key
    ensures VerifyHostSpec(f, host, key, None, writeErr) == Verdict(Some(KeyMismatch), f)
  {
    FirstOfTypeIsFirst(f.lines, host, i);
  }

  /** A known host that presents a key of an algorithm none of its lines has is rejected too. */
  lemma NewAlgorithmRejected(f: HostsFile, host: string, key: HostKey, writeErr: Option<string>)
    requires f.exists_ && Known(f, host)
    requires forall i :: 0 <= i < |f.lines| && f.lines[i].host == host ==> f.lines[i].key.algo != key.algo
    ensures VerifyHostSpec(f, host, key, None, writeErr) == Verdict(Some(KeyMismatch), f)
  {
  }

  /** The hosts file is created only when absent, so a second call changes nothing. */
  lemma CheckHostsFileIdempotent(f: HostsFile, createErr: Option<string>)
    ensures var v := CheckHostsFileSpec(f, None, createErr);
      (f.exists_ ==> v == Verdict(None, f))
      && (v.err.None? ==> v.file.exists_ && CheckHostsFileSpec(v.file, None, createErr) == Verdict(None, v.file))
  {
  }
}

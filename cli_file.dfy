/**
 * The client side of `speedrun file` (cmd/speedrun/cli/file.go): which
 * side of a copy is remote, the checks made before any portal is
 * contacted, what is sent, and what lands on the local machine; the mode
 * argument of chmod; and the path of read.
 *
 * An argument starting with ':' names a path on the portals' hosts.  The
 * local machine's files are a `Files.FileSystem`; the instance lookup and
 * each portal's dial, reply and the local write are inputs, and the portals
 * are served one after another in the order given.
 *
 * As written, chmod parses its mode argument as a decimal number, so the
 * "0644" of the command's own example asks for mode 01204 (`ChmodAsWritten`);
 * `Chmod` parses it as octal, as a file mode is written.
 */
module CliFile {
  import opened Wrappers
  import opened GoStrings
  import opened GoStrconv
  import opened Files

  const BothLocal: string := "src and dst cannot be both local to your machine"

  /** A path argument names a remote file when it starts with ':'. */
  predicate IsRemote(arg: string)
  {
    HasPrefix(arg, ":")
  }

  /** The path sent to the portal: at most one leading ':' removed. */
  function RemotePath(arg: string): (r: string)
    ensures IsRemote(arg) ==> ":" + r == arg
    ensures !IsRemote(arg) ==> r == arg
  {
    TrimPrefix(arg, ":")
  }

  /**
   * cp up to the instance lookup: both sides local is refused first; a local
   * source is read next; then the instances are looked up.  The result is
   * the request every portal receives.
   */
  function PrepareCp(src: string, dst: string, local: FileSystem, instancesErr: Option<string>): (r: Result<FileCpRequest>)
    reads local
    ensures !IsRemote(src) && !IsRemote(dst) ==> r == Err(BothLocal)
    ensures (IsRemote(src) || IsRemote(dst)) && !IsRemote(src) && src !in local.files ==> r == Err(NoSuchFile("open", src))
    ensures (IsRemote(src) || IsRemote(dst)) && (IsRemote(src) || src in local.files) && instancesErr.Some? ==>
      r == Err(instancesErr.value)
    ensures r.Ok? <==> (IsRemote(src) || IsRemote(dst)) && (IsRemote(src) || src in local.files) && instancesErr.None?
    ensures r.Ok? ==>
      r.value.remoteSrc == IsRemote(src) && r.value.remoteDst == IsRemote(dst)
      && r.value.src == RemotePath(src) && r.value.dst == RemotePath(dst)
      && r.value.content == (if IsRemote(src) then "" else local.files[src].content)
  {
    var remoteSrc := IsRemote(src);
    var remoteDst := IsRemote(dst);
    if !remoteDst && !remoteSrc then Err(BothLocal)
    else
      var content := if remoteSrc then Ok("") else local.ReadFile(src);
      if content.Err? then Err(content.error)
      else if instancesErr.Some? then Err(instancesErr.value)
      else Ok(FileCpRequest(RemotePath(src), RemotePath(dst), content.value, remoteSrc, remoteDst))
  }

  /** One portal's part of a copy: the dial, the FileCp reply's content, and the local write of it. */
  datatype PortalCp = PortalCp(name: string, dialErr: Option<string>, reply: Result<string>, writeErr: Option<string>)

  /** Whether a portal's reply is written to the local `dst`. */
  predicate WritesLocal(p: PortalCp, dst: string)
  {
    !IsRemote(dst) && p.dialErr.None? && p.reply.Ok? && p.writeErr.None?
  }

  /** The local files after the portals' replies, in order. */
  function LocalAfter(files: map<string, File>, dst: string, portals: seq<PortalCp>): map<string, File>
  {
    if |portals| == 0 then files
    else
      var n := |portals| - 1;
      var before := LocalAfter(files, dst, portals[..n]);
      if WritesLocal(portals[n], dst) then before[dst := File(portals[n].reply.value, NewModeOf(before, dst))]
      else before
  }

  /**
   * cp: PrepareCp, then each portal in turn; a dial or request error is
   * logged and skipped, and with a local destination the reply's content is
   * written to it with os.WriteFile.
   */
  method Cp(src: string, dst: string, local: FileSystem, instancesErr: Option<string>, portals: seq<PortalCp>)
    returns (err: Option<string>)
    modifies local
    ensures old(PrepareCp(src, dst, local, instancesErr)).Err? ==>
      err == Some(old(PrepareCp(src, dst, local, instancesErr)).error) && local.files == old(local.files)
    ensures old(PrepareCp(src, dst, local, instancesErr)).Ok? ==>
      err.None? && local.files == LocalAfter(old(local.files), dst, portals)
  {
    var remoteSrc := IsRemote(src);
    var remoteDst := IsRemote(dst);
    if !remoteDst && !remoteSrc {
      return Some(BothLocal);
    }
    if !remoteSrc {
      var content := local.ReadFile(src);
      if content.Err? {
        return Some(content.error);
      }
    }
    if instancesErr.Some? {
      return instancesErr;
    }
    for i := 0 to |portals|
      invariant local.files == LocalAfter(old(local.files), dst, portals[..i])
    {
      assert portals[..i + 1][..i] == portals[..i];
      var p := portals[i];
      if p.dialErr.Some? || p.reply.Err? {
        continue;
      }
      if !remoteDst {
        var _ := local.WriteFile(dst, p.reply.value, p.writeErr);
      }
    }
    assert portals[..|portals|] == portals;
    return None;
  }

  /** With a remote destination nothing is written locally. */
  lemma {:induction false} RemoteDstKeepsLocal(files: map<string, File>, dst: string, portals: seq<PortalCp>)
    requires IsRemote(dst)
    ensures LocalAfter(files, dst, portals) == files
  {
    if |portals| > 0 {
      RemoteDstKeepsLocal(files, dst, portals[..|portals| - 1]);
    }
  }

  /** Only `dst` may change locally. */
  lemma {:induction false} OnlyDstWritten(files: map<string, File>, dst: string, portals: seq<PortalCp>)
    ensures forall p :: p != dst ==> (p in LocalAfter(files, dst, portals) <==> p in files)
    ensures forall p :: p != dst && p in files ==> LocalAfter(files, dst, portals)[p] == files[p]
  {
    if |portals| > 0 {
      OnlyDstWritten(files, dst, portals[..|portals| - 1]);
    }
  }

  /**
   * With a local destination every portal's reply overwrites the one
   * before: the file holds the content of the last portal whose reply was
   * written.
   */
  lemma {:induction false} LastReplyWins(files: map<string, File>, dst: string, portals: seq<PortalCp>, k: nat)
    requires k < |portals| && WritesLocal(portals[k], dst)
    requires forall j :: k < j < |portals| ==> !WritesLocal(portals[j], dst)
    ensures dst in LocalAfter(files, dst, portals)
    ensures LocalAfter(files, dst, portals)[dst].content == portals[k].reply.value
    decreases |portals|
  {
    var n := |portals| - 1;
    if k < n {
      LastReplyWins(files, dst, portals[..n], k);
    }
  }

  /** The mode argument as written: strconv.Atoi, then the conversion to uint32. */
  function ParseModeAsWritten(arg: string): (r: Result<nat>)
    ensures r.Ok? <==> Atoi(arg).Ok?
    ensures r.Ok? ==> r.value < 0x1_0000_0000 && r.value == Atoi(arg).value % 0x1_0000_0000
  {
    var n := Atoi(arg);
    if n.Err? then Err(n.error) else Ok(n.value % 0x1_0000_0000)
  }

  /** The mode argument as intended: strconv.ParseUint(arg, 8, 32). */
  function ParseMode(arg: string): (r: Result<nat>)
    ensures r.Ok? <==> |arg| > 0 && AllBaseDigits(arg, 8) && BaseValue(arg, 8) < 0x1_0000_0000
    ensures r.Ok? ==> r.value == BaseValue(arg, 8)
    ensures r.Err? ==> r.error == ErrorText(NumError("ParseUint", arg, BaseValue(Lead(arg, 8), 8) >= 0x1_0000_0000))
  {
    PowValues();
    match ParseUint(arg, 8, 32)
    case Converted(v) => Ok(v)
    case Failed(e) => Err(ErrorText(e))
  }

  /** The request chmod sends every portal: the path and the parsed mode. */
  datatype ChmodRequest = ChmodRequest(path: string, filemode: nat)

  /** chmod up to the instance lookup, as written: a bad mode fails before the lookup. */
  function ChmodAsWritten(path: string, mode: string, instancesErr: Option<string>): (r: Result<ChmodRequest>)
    ensures ParseModeAsWritten(mode).Err? ==> r == Err(ParseModeAsWritten(mode).error)
    ensures ParseModeAsWritten(mode).Ok? && instancesErr.Some? ==> r == Err(instancesErr.value)
    ensures r.Ok? ==> r.value == ChmodRequest(path, ParseModeAsWritten(mode).value)
  {
    var m := ParseModeAsWritten(mode);
    if m.Err? then Err(m.error)
    else if instancesErr.Some? then Err(instancesErr.value)
    else Ok(ChmodRequest(path, m.value))
  }

  /** chmod up to the instance lookup, with the mode read as octal. */
  function Chmod(path: string, mode: string, instancesErr: Option<string>): (r: Result<ChmodRequest>)
    ensures ParseMode(mode).Err? ==> r == Err(ParseMode(mode).error)
    ensures ParseMode(mode).Ok? && instancesErr.Some? ==> r == Err(instancesErr.value)
    ensures r.Ok? ==> r.value == ChmodRequest(path, ParseMode(mode).value)
  {
    var m := ParseMode(mode);
    if m.Err? then Err(m.error)
    else if instancesErr.Some? then Err(instancesErr.value)
    else Ok(ChmodRequest(path, m.value))
  }

  /** As written, "0644" is read as decimal 644, and the portal sets mode 0204 instead of 0644. */
  lemma ChmodAsWrittenMisreads()
    ensures ChmodAsWritten("/tmp/myfile", "0644", None) == Ok(ChmodRequest("/tmp/myfile", 644))
    ensures SyscallMode(644) == 0x84 && 0x84 != NewFileMode
  {
    var s := "0644";
    assert s[..3] == "064" && "064"[..2] == "06" && "06"[..1] == "0" && "0"[..0] == "";
    assert AllDigits(s) && Magnitude(s) == s;
    assert BaseValue("06", 10) == 6 && BaseValue("064", 10) == 64;
    assert SignedValue(s) == 644;
    assert Atoi(s) == Ok(644);
  }

  /** As intended, "0644" asks for mode 0644 and the portal sets exactly that. */
  lemma ChmodOctal()
    ensures Chmod("/tmp/myfile", "0644", None) == Ok(ChmodRequest("/tmp/myfile", 0x1a4))
    ensures SyscallMode(0x1a4) == NewFileMode
  {
    var s := "0644";
    assert s[..3] == "064" && "064"[..2] == "06" && "06"[..1] == "0" && "0"[..0] == "";
    assert AllBaseDigits(s, 8);
    assert BaseValue(s, 8) == 0x1a4;
  }

  /** Any permission written in octal with up to three digits is applied exactly. */
  lemma {:induction false} OctalPermissionsExact(arg: string)
    requires 1 <= |arg| <= 3 && AllBaseDigits(arg, 8)
    ensures ParseMode(arg).Ok? && SyscallMode(ParseMode(arg).value) == ParseMode(arg).value
  {
    OctalBound(arg);
    PermissionBitsExact(BaseValue(arg, 8));
  }

  lemma {:induction false} OctalBound(s: string)
    requires AllBaseDigits(s, 8)
    ensures |s| <= 3 ==> BaseValue(s, 8) < 0x200
    ensures |s| <= 2 ==> BaseValue(s, 8) < 0x40
    ensures |s| <= 1 ==> BaseValue(s, 8) < 8
  {
    if |s| > 0 {
      OctalBound(s[..|s| - 1]);
    }
  }

  /** read: the arguments joined by single spaces form one path. */
  function ReadPath(args: seq<string>): (path: string)
    requires |args| >= 1
    ensures |args| == 1 ==> path == args[0]
    ensures NoSep(args, ' ') ==> Split(path, ' ') == args
  {
    JoinedArgsSplitBack(args);
    Join(args, ' ')
  }

  lemma JoinedArgsSplitBack(args: seq<string>)
    requires |args| >= 1
    ensures NoSep(args, ' ') ==> Split(Join(args, ' '), ' ') == args
  {
    if NoSep(args, ' ') {
      SplitJoin(args, ' ');
    }
  }
}

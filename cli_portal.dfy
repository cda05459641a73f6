/**
 * `speedrun portal deploy` (cmd/speedrun/cli/portal.go): the CPU
 * architecture a host reports picks the portal download, and each selected
 * instance is connected to, asked for its architecture and told to fetch
 * the download; a failure at any step is logged for that instance and the
 * loop goes on with the next one.
 *
 * Each remote step is abstract: a host's connect errors (checked or
 * insecure), the output or error of `uname -m` and the download's error are
 * inputs.  As written, the output of `uname -m`, which ends in a newline, is
 * matched against the architecture names as it is, so no host gets past
 * that step (`ReportAsWritten`); `Report`, used by `Deploy`, drops the
 * newline first.
 */
module CliPortal {
  import opened Wrappers
  import opened GoStrings
  import opened Session

  const Amd64Url: string := "https://download.speedrun.sh/portal-linux-amd64.zip"
  const Arm64Url: string := "https://download.speedrun.sh/portal-linux-arm64.zip"
  const Unsupported: string := "unsupported CPU architecture"
  const UnameCommand: string := "uname -m"

  predicate IsArm64(arch: string)
  {
    arch == "armv8l" || arch == "armv8b" || arch == "aarch64" || arch == "aarch64_be"
  }

  /** getUrl: an exact match on the architecture name. */
  function GetUrl(arch: string): (r: Result<string>)
    ensures arch == "x86_64" <==> r == Ok(Amd64Url)
    ensures IsArm64(arch) <==> r == Ok(Arm64Url)
    ensures r.Err? <==> arch != "x86_64" && !IsArm64(arch)
    ensures r.Err? ==> r.error == Unsupported
  {
    match arch
    case "x86_64" => Ok(Amd64Url)
    case "armv8l" => Ok(Arm64Url)
    case "armv8b" => Ok(Arm64Url)
    case "aarch64" => Ok(Arm64Url)
    case "aarch64_be" => Ok(Arm64Url)
    case _ => Err(Unsupported)
  }

  /** No string ending in a newline names an architecture. */
  lemma GetUrlRejectsNewline(arch: string)
    requires HasSuffix(arch, "\n")
    ensures GetUrl(arch) == Err(Unsupported)
  {
    assert arch[|arch| - 1] == '\n';
  }

  const DownloadPrefix: string := "curl -L --silent "
  const DownloadSuffix: string := " -o /tmp/portal.zip"

  /** The command that fetches the portal archive to /tmp/portal.zip: the url between fixed curl flags. */
  function DownloadCommand(url: string): (r: string)
    ensures HasPrefix(r, DownloadPrefix) && HasSuffix(r, DownloadSuffix)
    ensures |r| == |DownloadPrefix| + |url| + |DownloadSuffix|
    ensures r[|DownloadPrefix|..|r| - |DownloadSuffix|] == url
  {
    var r := DownloadPrefix + url + DownloadSuffix;
    assert r[..|DownloadPrefix|] == DownloadPrefix;
    assert r[|r| - |DownloadSuffix|..] == DownloadSuffix;
    assert r[|DownloadPrefix|..|r| - |DownloadSuffix|] == url;
    r
  }

  /** A selected instance and how each remote step would go on it. */
  datatype Host = Host(name: string, address: string, verifiedErr: Option<string>, insecureErr: Option<string>,
                       uname: Result<string>, downloadErr: Option<string>)

  /** How far the deployment got on one host. */
  datatype Step =
    | ConnectFailed(err: string)
    | ArchFailed(err: string)
    | UrlFailed(err: string)
    | DownloadFailed(err: string)
    | Downloaded(url: string)

  /** One host's line of the deployment: the host-key callback used, the commands run and the last step. */
  datatype HostReport = HostReport(name: string, callback: HostKeyCallback, commands: seq<string>, step: Step)

  function CallbackFor(ignoreFingerprint: bool): HostKeyCallback
  {
    if ignoreFingerprint then InsecureIgnoreHostKey else VerifyKnownHosts
  }

  /** The connect error of the function the flag picks: ConnectInsecure or Connect. */
  function ConnectErr(h: Host, ignoreFingerprint: bool): Option<string>
  {
    if ignoreFingerprint then h.insecureErr else h.verifiedErr
  }

  /** The steps on one host, from the architecture string handed to getUrl. */
  function ReportFrom(h: Host, ignoreFingerprint: bool, arch: string): HostReport
  {
    var cb := CallbackFor(ignoreFingerprint);
    var url := GetUrl(arch);
    if ConnectErr(h, ignoreFingerprint).Some? then HostReport(h.name, cb, [], ConnectFailed(ConnectErr(h, ignoreFingerprint).value))
    else if h.uname.Err? then HostReport(h.name, cb, [UnameCommand], ArchFailed(h.uname.error))
    else if url.Err? then HostReport(h.name, cb, [UnameCommand], UrlFailed(url.error))
    else if h.downloadErr.Some? then HostReport(h.name, cb, [UnameCommand, DownloadCommand(url.value)], DownloadFailed(h.downloadErr.value))
    else HostReport(h.name, cb, [UnameCommand, DownloadCommand(url.value)], Downloaded(url.value))
  }

  /** The loop body as written: getUrl sees the raw output of `uname -m`. */
  function ReportAsWritten(h: Host, ignoreFingerprint: bool): (r: HostReport)
    ensures r.name == h.name && r.callback == CallbackFor(ignoreFingerprint)
    ensures r.step.ConnectFailed? <==> ConnectErr(h, ignoreFingerprint).Some?
    ensures r.step.ArchFailed? <==> ConnectErr(h, ignoreFingerprint).None? && h.uname.Err?
    ensures r.step.Downloaded? <==>
      ConnectErr(h, ignoreFingerprint).None? && h.uname.Ok? && h.downloadErr.None?
      && (h.uname.value == "x86_64" || IsArm64(h.uname.value))
    ensures r.step.Downloaded? ==>
      r.step.url == (if IsArm64(h.uname.value) then Arm64Url else Amd64Url)
      && r.commands == [UnameCommand, DownloadCommand(r.step.url)]
  {
    ReportFrom(h, ignoreFingerprint, if h.uname.Ok? then h.uname.value else "")
  }

  /** The loop body as intended: the trailing newline of `uname -m` is dropped before getUrl. */
  function Report(h: Host, ignoreFingerprint: bool): (r: HostReport)
    ensures r.name == h.name && r.callback == CallbackFor(ignoreFingerprint)
    ensures r.step.ConnectFailed? <==> ConnectErr(h, ignoreFingerprint).Some?
    ensures r.step.ArchFailed? <==> ConnectErr(h, ignoreFingerprint).None? && h.uname.Err?
    ensures r.step.Downloaded? <==>
      ConnectErr(h, ignoreFingerprint).None? && h.uname.Ok? && h.downloadErr.None?
      && var arch := TrimSuffix(h.uname.value, "\n"); (arch == "x86_64" || IsArm64(arch))
    ensures r.step.Downloaded? ==>
      var arch := TrimSuffix(h.uname.value, "\n");
      r.step.url == (if IsArm64(arch) then Arm64Url else Amd64Url)
      && r.commands == [UnameCommand, DownloadCommand(r.step.url)]
  {
    ReportFrom(h, ignoreFingerprint, if h.uname.Ok? then TrimSuffix(h.uname.value, "\n") else "")
  }

  /** The reports of the deploy loop, one per instance in order. */
  function Reports(hosts: seq<Host>, ignoreFingerprint: bool): seq<HostReport>
  {
    if |hosts| == 0 then []
    else Reports(hosts[..|hosts| - 1], ignoreFingerprint) + [Report(hosts[|hosts| - 1], ignoreFingerprint)]
  }

  /**
   * deploy: the instance list, the empty case (a warning and no error), the
   * key, then the loop; `listErr` and `keyErr` are the errors of listing the
   * instances and of locating or reading the key.
   */
  method Deploy(listErr: Option<string>, hosts: seq<Host>, keyErr: Option<string>, ignoreFingerprint: bool)
    returns (err: Option<string>, reports: seq<HostReport>)
    ensures listErr.Some? ==> err == listErr && reports == []
    ensures listErr.None? && |hosts| == 0 ==> err.None? && reports == []
    ensures listErr.None? && |hosts| > 0 && keyErr.Some? ==> err == keyErr && reports == []
    ensures listErr.None? && |hosts| > 0 && keyErr.None? ==> err.None? && reports == Reports(hosts, ignoreFingerprint)
  {
    reports := [];
    if listErr.Some? {
      return listErr, reports;
    }
    if |hosts| == 0 {
      return None, reports;
    }
    if keyErr.Some? {
      return keyErr, reports;
    }
    var cb := CallbackFor(ignoreFingerprint);
    for i := 0 to |hosts|
      invariant reports == Reports(hosts[..i], ignoreFingerprint)
    {
      assert hosts[..i + 1][..i] == hosts[..i];
      var h := hosts[i];
      var connectErr := if ignoreFingerprint then h.insecureErr else h.verifiedErr;
      if connectErr.Some? {
        reports := reports + [HostReport(h.name, cb, [], ConnectFailed(connectErr.value))];
        continue;
      }
      if h.uname.Err? {
        reports := reports + [HostReport(h.name, cb, [UnameCommand], ArchFailed(h.uname.error))];
        continue;
      }
      var url := GetUrl(TrimSuffix(h.uname.value, "\n"));
      if url.Err? {
        reports := reports + [HostReport(h.name, cb, [UnameCommand], UrlFailed(url.error))];
        continue;
      }
      var download := DownloadCommand(url.value);
      if h.downloadErr.Some? {
        reports := reports + [HostReport(h.name, cb, [UnameCommand, download], DownloadFailed(h.downloadErr.value))];
        continue;
      }
      reports := reports + [HostReport(h.name, cb, [UnameCommand, download], Downloaded(url.value))];
    }
    assert hosts[..|hosts|] == hosts;
    err := None;
  }

  /**
   * Failures are skipped, not fatal: every instance gets its report, in
   * order, and what happens on one host depends on that host alone.
   */
  lemma {:induction false} ReportsPerHost(hosts: seq<Host>, ignoreFingerprint: bool)
    ensures |Reports(hosts, ignoreFingerprint)| == |hosts|
    ensures forall i :: 0 <= i < |hosts| ==> Reports(hosts, ignoreFingerprint)[i] == Report(hosts[i], ignoreFingerprint)
  {
    if |hosts| > 0 {
      var n := |hosts| - 1;
      ReportsPerHost(hosts[..n], ignoreFingerprint);
    }
  }

  /** A download is attempted exactly on the hosts that connected, answered `uname -m` with a known architecture. */
  lemma DownloadAttempted(h: Host, ignoreFingerprint: bool)
    ensures |Report(h, ignoreFingerprint).commands| == 2 <==>
      ConnectErr(h, ignoreFingerprint).None? && h.uname.Ok? && GetUrl(TrimSuffix(h.uname.value, "\n")).Ok?
    ensures |Report(h, ignoreFingerprint).commands| == 2 ==>
      Report(h, ignoreFingerprint).commands[1] == DownloadCommand(GetUrl(TrimSuffix(h.uname.value, "\n")).value)
  {
  }

  /** As written, a host whose `uname -m` output ends in a newline never gets a download. */
  lemma AsWrittenNeverDownloads(h: Host, ignoreFingerprint: bool)
    requires ConnectErr(h, ignoreFingerprint).None? && h.uname.Ok? && HasSuffix(h.uname.value, "\n")
    ensures ReportAsWritten(h, ignoreFingerprint).step == UrlFailed(Unsupported)
    ensures |ReportAsWritten(h, ignoreFingerprint).commands| == 1
  {
    GetUrlRejectsNewline(h.uname.value);
  }

  /** As intended, an x86_64 host that answers "x86_64\n" downloads the amd64 archive. */
  lemma IntendedDownloadsAmd64(h: Host, ignoreFingerprint: bool)
    requires ConnectErr(h, ignoreFingerprint).None? && h.uname == Ok("x86_64\n") && h.downloadErr.None?
    ensures Report(h, ignoreFingerprint).step == Downloaded(Amd64Url)
    ensures Report(h, ignoreFingerprint).commands == [UnameCommand, DownloadCommand(Amd64Url)]
  {
    var s := "x86_64\n";
    assert HasSuffix(s, "\n");
    assert s[..|s| - 1] == "x86_64";
  }
}

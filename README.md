# speedrun, modelled in Dafny

speedrun pushes the user's SSH public key into a Google Cloud project's (or
instance's) metadata. It then runs a command, or a request to the portal
agent, on every selected instance and tallies what came back. Several
historical versions of the tool live side by side in the repository. This
project models the logic underneath all of them and proves what that logic
promises:

- **The `ssh-keys` reconciler** (`KeyMetadata`, `InstanceMetadata`).
  - The key line is built, and its `user:algo … comment` header is parsed.
  - The first exact or partial match is found among the newline-separated entries.
  - The reconciler then decides between no write, replacing in place, appending and removing.
  - It flattens the metadata items to a map and expands them back, and submits them with the fingerprint read at fetch time.
- **The outcome maps** (`Tally`, `Marathon`, `Vssh`, `Helpers`, `Output`).
  - Each target is filed under errors, failures or successes.
  - The report prints its groups in a fixed order, with the successes optional, and ends with the counts.
  - The helpers version has a three-colour status.
  - `formatOutput` and `padOutput` indent the output lines.
- **Trust on first use** (`Trust`, `Session`).
  - `verifyHost` acts on the known_hosts lookup: it pins an unknown host, rejects a changed key and accepts a known one.
  - `checkHostsFile` creates the file only if it is missing.
  - `Connect` and `ConnectInsecure` build the connection, in that order of checks, on port 22 with a 10 second timeout.
- **Transport options** (`GrpcTransport`, `PortalTransport`). Functional options are folded left to right over the defaults, then one connection is chosen: an SSH tunnel to 127.0.0.1:1337, a direct dial of `address:1337`, or none.
- **Instance selection** (`Instances`). Instances are filtered by a target expression. The result is an order-preserving subsequence. An instance whose evaluation fails or is not a boolean is skipped. An empty selection is an error.
- **The portal agent's handlers** (`Service`, `Files`).
  - The service handlers work over a systemd unit table. Start and stop check whether the unit is already in the wanted state; status reports a missing unit as not found.
  - The file handlers work over a filesystem map: read, the four-way copy, and chmod.
- **The CLI** (`CliPortal`, `CliFile`).
  - `portal deploy`: the architecture-to-download mapping, the download command, and a per-instance loop that skips a failing instance.
  - `file cp`: the argument classification and checks, and the local write.
  - `file chmod`: parsing the mode argument.
  - `file read`: the joined path.

Modelling choices:

- Cloud calls, dials, SSH sessions and the systemd bus are inputs. Their errors and results are parameters: an `Option<string>` error or a `Result`.
- Worker pools are sequential loops in input order.
- Go's `strings`, `strconv` and `sort` functions the code relies on are modelled in `GoStrings`, `GoStrconv` and `GoSort`.
- Identical copies of a function across versions are modelled once:
  - the metadata helpers of cloud/google_metadata.go and gcp/metadata.go;
  - `formatOutput` in four files;
  - `verifyHost` and `checkHostsFile` in two files;
  - the Marathon struct in two files.

Where the code has an evident defect, the model keeps the code as written in one member and proves the discrepancy. A corrected member proves the intended property, and the rest of the model builds on the corrected member (see "## Findings").

## Model

| member | source | states |
|---|---|---|
| GoStrings.Split | cloud/google_metadata.go:143 | strings.Split on one separator: count+1 pieces, none containing the separator |
| GoStrings.JoinSplit | cloud/google_metadata.go:143 | joining the split pieces gives the string back |
| GoStrings.SplitJoin | cloud/google_metadata.go:176-183 | splitting separator-free pieces after joining gives the pieces back |
| GoStrings.CountJoin | cloud/google_metadata.go:178 | strings.Join of separator-free pieces puts exactly one separator between neighbours |
| GoStrings.SplitFirst | cloud/google_metadata.go:128 | the first piece of a split is everything before the first separator |
| GoStrings.SplitAfterFirst | cloud/google_metadata.go:129 | after the first piece, a split goes on as the split of what follows the first separator |
| GoStrings.FirstIndexSpec | cloud/google_metadata.go:128-129 | the first index of a character passes over no such character and stops at one, found iff the string has one |
| GoStrings.SplitSeparators | cloud/google_metadata.go:126-127 | a single piece is the whole string; with more, a separator follows the first piece and precedes the last |
| GoStrings.PrefixIffConcat | cloud/google_metadata.go:148 | strings.HasPrefix holds iff the string is the prefix followed by something |
| GoStrings.SuffixIffConcat | cloud/google_metadata.go:148 | strings.HasSuffix holds iff the string is something followed by the suffix |
| GoStrings.TrimSuffix | gcp/metadata.go:55-59 | strings.TrimSuffix removes the suffix once when present, else returns the string |
| GoStrings.TrimPrefix | cmd/speedrun/cli/file.go:173 | strings.TrimPrefix removes the prefix once when present, else returns the string |
| GoSort.SortedKeys | cloud/google_metadata.go:208-225 | the sorted key list: ascending, exactly the set's keys, no duplicates |
| GoSort.AscendingUnique | cloud/google_metadata.go:208-225 | two ascending lists with the same elements are equal (the sorted order is unique) |
| GoSort.SortKeys | cloud/google_metadata.go:213-217 | the key-sorting step yields SortedKeys of the map's keys |
| GoStrconv.Itoa | ssh/ssh.go:79 | the port is written in shortest decimal digits, no leading zero |
| GoStrconv.Atoi | cmd/speedrun/cli/file.go:206-209 | strconv.Atoi on a 64-bit platform: Ok iff an optional sign then decimal digits whose value is within int64, with that value; otherwise "strconv.Atoi: parsing <Quote(s)>: " then "value out of range" iff the digits before the first non-digit already pass 2^64-1 or a well-formed value is outside int64, else "invalid syntax" |
| GoStrconv.AtoiItoa | cmd/speedrun/cli/file.go:206-209 | Atoi inverts Itoa on the non-negative int64 range |
| GoStrconv.AtoiRejectsNonDigit | cmd/speedrun/cli/file.go:206-209 | a non-digit after the sign is a syntax error unless the digits before it already pass 2^64-1, which cannot happen below 19 characters |
| GoStrconv.AtoiOverflowBeforeSyntax | cmd/speedrun/cli/file.go:206-209 | digits after the sign that pass 2^64-1 before any non-digit make a range error, whatever follows |
| GoStrconv.ShortNeverOverflows | cmd/speedrun/cli/file.go:206-209 | below 19 characters the digits never pass 64 bits, so Atoi's fast path needs no range check |
| GoStrconv.ParseInt64 | cmd/speedrun/cli/file.go:206-209 | strconv.ParseInt(s, 10, 0): converted iff well formed and within int64, with the signed value; a range error iff the digits before the first non-digit pass 2^64-1 or a well-formed value is outside int64 |
| GoStrconv.ParseUint | cmd/speedrun/cli/file.go:206-209 | strconv.ParseUint for bases 2 to 10: converted iff non-empty, all digits of the base and below 2^bitSize, with that value; a range error iff the digits before the first non-digit already reach 2^bitSize, else a syntax error |
| GoStrconv.ScanOutcome | cmd/speedrun/cli/file.go:206-209 | the digit loop ends with a range error when the digits before the first non-digit exceed the limit, else a syntax error at a non-digit, else the value |
| GoStrconv.Quote | cmd/speedrun/cli/file.go:206-209 | the quoted input in error messages: starts and ends with '"' and contains no control character |
| GoStrconv.QuotePlain | cmd/speedrun/cli/file.go:206-209 | a string without control characters, '"' or '\\' is quoted as itself between double quotes |
| GoStrconv.QuoteEscapesQuote | cmd/speedrun/cli/file.go:206-209 | an embedded '"' is escaped with a backslash |
| KeyMetadata.FlattenMetadata | cloud/google_metadata.go:227-233 | the loop builds Flatten(items): key to value, later duplicates overwrite |
| KeyMetadata.FlattenKeys | cloud/google_metadata.go:227-233 | the map's keys are exactly the items' keys |
| KeyMetadata.FlattenLastWins | gcp/metadata.go:151-157 | a key maps to the value of its last item |
| KeyMetadata.ExpandMetadata | cloud/google_metadata.go:208-225 | corrected expansion: one item per key, in ascending key order (ExpandSpec) |
| KeyMetadata.ExpandSpecSorted | cloud/google_metadata.go:213-224 | the expanded items are sorted by key and carry the map's values |
| KeyMetadata.FlattenExpand | cloud/google_metadata.go:208-233 | flattening the expansion gives the map back |
| KeyMetadata.ExpandComputeMetadata | cloud/google_metadata.go:208-225 | as written: len(m) nil slots, then the sorted items (PaddedExpand) |
| KeyMetadata.ExpandAsWrittenHasNilSlots | cloud/google_metadata.go:209-224 | as written, the list is twice as long as the map and starts with a nil |
| KeyMetadata.ParseMetadataItem | cloud/google_metadata.go:125-131 | username and algo have no ' ' or ':', the comment no ' '; the username is the line's first token (ending at the first ' ' or ':'), the algorithm the next token, and the comment everything after the last ' '; the line starts with "user:algo" and ends with the comment |
| KeyMetadata.TokenEndAt | cloud/google_metadata.go:126-129 | a run free of ' ' and ':' that stops at one of them or at the end is where a token ends |
| KeyMetadata.TokenEndStops | cloud/google_metadata.go:126-129 | a token ends at a ' ', a ':' or the end of the line, and contains neither |
| KeyMetadata.TokenStartStops | cloud/google_metadata.go:126-127 | the last token starts after a ' ' or at the start of the line, and contains no ' ' |
| KeyMetadata.TokenStartAt | cloud/google_metadata.go:126-127 | a run free of ' ' that follows a ' ' or the start of the line is where the last token starts |
| KeyMetadata.HeadTokens | cloud/google_metadata.go:126-129 | the first ':' before the first ' ' ends the username, and the next ':' or ' ' ends the algorithm |
| KeyMetadata.CreateMetadataItem | cloud/google_metadata.go:156-171 | the user lookup error first, then the hostname error; Ok exactly when both succeed |
| KeyMetadata.ParseCreate | cloud/google_metadata.go:125-171 | parsing a created line gives back user, algorithm and hostname |
| KeyMetadata.HasItem | cloud/google_metadata.go:135-153 | the scan returns HasItemSpec: the first exact or partial match, in order |
| KeyMetadata.FindFromFirstMatch | cloud/google_metadata.go:141-152 | the index found is the first entry equal to the line or matching its header and comment |
| KeyMetadata.HasItemWithoutSshKeys | cloud/google_metadata.go:136-139 | without an ssh-keys item the answer is (false, false, -1) |
| KeyMetadata.HasItemFirstMatch | cloud/google_metadata.go:141-152 | a found index is in range and matches, and every entry before it does not |
| KeyMetadata.EarlierPartialWins | cloud/google_metadata.go:141-152 | an earlier partial match wins over a later identical line |
| KeyMetadata.AppendToMetadata | cloud/google_metadata.go:173-186 | corrected: the items with the line appended to ssh-keys, or ssh-keys holding only the line |
| KeyMetadata.UpdateMetadata | cloud/google_metadata.go:199-206 | corrected: the items with entry i replaced |
| KeyMetadata.ShiftLeft | cloud/google_metadata.go:188-197 | the in-place shift: the entries after i move one left |
| KeyMetadata.RemoveFromMetadata | cloud/google_metadata.go:188-197 | corrected: the items with entry i deleted |
| KeyMetadata.WithEntriesReadBack | cloud/google_metadata.go:173-206 | the ssh-keys value written splits back into exactly the entries, and other keys are kept |
| KeyMetadata.AppendKeepsEarlierEntries | cloud/google_metadata.go:173-186 | appending keeps every earlier entry in order and puts the line last, or makes it the only entry |
| KeyMetadata.UpdateReplacesOnlyEntry | cloud/google_metadata.go:199-206 | only entry i changes; the length and the other entries stay |
| KeyMetadata.RemoveDropsEntry | cloud/google_metadata.go:188-197 | exactly entry i disappears; the length drops by one |
| KeyMetadata.RemoveAsWrittenWipesMetadata | cloud/google_metadata.go:101-113 | as written, removing an identical line submits no items at all; the corrected removal keeps every key |
| KeyMetadata.AddKeyIdempotent | cloud/google_metadata.go:63-77 | corrected: adding a line twice submits nothing the second time |
| KeyMetadata.AppendedFoundLast | cloud/google_metadata.go:70-71 | corrected: after an append the lookup finds the identical line at the last index |
| KeyMetadata.RemoveLastRestores | cloud/google_metadata.go:188-197 | removing the last entry restores the metadata before the append |
| KeyMetadata.AddThenRemove | cloud/google_metadata.go:51-122 | corrected: when an ssh-keys item already exists, adding a new key and then removing it restores the original metadata map |
| KeyMetadata.Project.SetCommonInstanceMetadata | cloud/google_metadata.go:79-83 | the submission replaces the metadata unless the call fails |
| KeyMetadata.AddKeyToMetadata | cloud/google_metadata.go:51-86 | corrected: the fetch error, then the line error; no write on an identical line; otherwise the update or append is submitted with the fetched fingerprint |
| KeyMetadata.RemoveKeyFromMetadata | cloud/google_metadata.go:89-122 | corrected: only an identical line is removed and submitted; otherwise no write |
| KeyMetadata.AddKeySubmission | cloud/google_metadata.go:63-72 | nothing is submitted iff an identical line exists; a submission keeps the fetched fingerprint |
| KeyMetadata.RemoveKeySubmission | cloud/google_metadata.go:104-108 | corrected: a submission is made iff an identical line exists, with the fetched fingerprint |
| KeyMetadata.RemoveKeySubmissionAsWritten | cloud/google_metadata.go:101-113 | as written: a submission is made iff an identical line exists, and it carries no items |
| InstanceMetadata.FormatSshPubKey | gcp/metadata.go:55-59 | one trailing newline is stripped |
| InstanceMetadata.CreateMetadataEntry | gcp/metadata.go:93-106 | the user error, then the hostname error; Ok exactly when both succeed |
| InstanceMetadata.EntryIsProjectItem | gcp/metadata.go:93-106 | the instance entry equals the project item built from the same key |
| InstanceMetadata.ParseCreateEntry | gcp/metadata.go:62-106 | parsing a created entry gives back user, algorithm and hostname |
| InstanceMetadata.ZoneName | gcp/metadata.go:40 | the zone sent is the last '/'-segment of the zone URL |
| InstanceMetadata.ZoneNameOfUrl | gcp/metadata.go:40 | for ".../zones/z" the zone name is z |
| InstanceMetadata.UpdateInstanceMetadata | gcp/metadata.go:16-53 | corrected: no update on an exact match; otherwise the metadata is replaced in place by the updated or extended list and the update call carries project, zone name, instance name and the new metadata |
| Output.Prefixed | marathon/output.go:10-13 | each line gets the indent, and none is dropped |
| Output.FormatOutput | marathon/output.go:8-17 | the loop builds FormatSpec(body) |
| Output.FormatKeepsNewlineCount | marathon/output.go:10-16 | the output has as many newlines as the input |
| Output.FormatWithoutNewline | marathon/output.go:10-16 | input without a newline gives "" |
| Output.FormatTerminated | marathon/output.go:10-16 | for newline-terminated input the output is "    "+line+"\n" over the lines |
| Output.FormatDropsLastSegment | marathon/output.go:15 | the text after the last newline does not matter |
| Output.PadOutput | helpers/ssh.go:270-277 | the loop builds PadSpec(body) |
| Output.PadKeepsLines | helpers/ssh.go:270-277 | the line count is kept and each line is "  " + the input line |
| Output.PadDropsNothing | helpers/ssh.go:270-277 | every line of the result starts with two spaces |
| Tally.Record | marathon/marathon.go:87-108 | filing an outcome writes exactly one of the three maps |
| Tally.RecordPartition | marathon/marathon.go:87-108 | filing a new host keeps the three maps disjoint and covering the names seen |
| Tally.ListGroup | marathon/marathon.go:167-183 | one line per map entry, each carrying its host and text |
| Tally.PrintReport | marathon/marathon.go:167-183 | the report: successes (when shown), then failures, then errors, then the three counts |
| Tally.ReportShape | ssh/marathon.go:185-200 | the assembled groups form a report |
| Trust.CheckKnownHost | ssh/ssh.go:24-26 | the known_hosts lookup: found iff a line names the host; no error iff the host's first line with the presented key's algorithm holds exactly this key; "key is unknown" iff the host is absent |
| Trust.FirstOfType | ssh/ssh.go:24-26 | the key compared is the first line for the host with the given algorithm; none iff no line for the host has that algorithm |
| Trust.FirstOfTypeIsFirst | ssh/ssh.go:24-26 | a host's line with no earlier line of its algorithm is the one compared |
| Trust.FirstOfTypeAppendNew | ssh/ssh.go:32-36 | a line appended for a new host decides that host's keys of its algorithm and no other |
| Trust.KnownHosts.VerifyHost | ssh/ssh.go:18-46 | the new file and error are VerifyHostSpec of the old file |
| Trust.KnownHosts.CheckHostsFile | ssh/ssh.go:48-63 | the file is created only when missing |
| Trust.MismatchRejected | ssh/ssh.go:26-30 | a changed key is rejected and the file is not written |
| Trust.UnknownHostAdded | ssh/ssh.go:32-36 | an unknown host is appended with its key and accepted |
| Trust.OtherErrorNoWrite | ssh/ssh.go:32-38 | any other lookup error is returned without writing |
| Trust.KnownKeyAccepted | ssh/ssh.go:40-45 | a known host with its key is accepted without writing |
| Trust.EarlierLineOfTypeWins | ssh/ssh.go:24-30 | a different key of the algorithm of the host's first line of that algorithm is a mismatch, even when a later line holds exactly that key |
| Trust.NewAlgorithmRejected | ssh/ssh.go:24-30 | a known host presenting a key of an algorithm none of its lines has is rejected without writing |
| Trust.LinesOnlyGrow | marathon/marathon.go:119-147 | verifyHost never removes or rewrites a line |
| Trust.FirstUseThenPinned | marathon/marathon.go:119-147 | after first use, a different key for that host is rejected |
| Trust.CheckHostsFileIdempotent | marathon/marathon.go:149-164 | a second checkHostsFile changes nothing |
| Session.HostPort | ssh/ssh.go:76-83 | the dialled address is addr, ':' and the port |
| Session.PortString | ssh/ssh.go:79 | the SSH port gives "addr:22" |
| Session.Handshake | ssh/ssh.go:76-87 | the dial, then the host-key callback, then authentication (HandshakeSpec) |
| Session.HandshakeTrusts | ssh/ssh.go:76-87 | a checked handshake succeeds only for a host whose key is then trusted |
| Session.InsecureHandshakeIgnoresKey | ssh/ssh.go:98-109 | with host keys ignored, the key does not matter and the file is untouched |
| Session.Connect | ssh/ssh.go:65-90 | the auth error, then the hosts-file check, then the checked handshake on port 22 with a 10 s timeout |
| Session.ConnectInsecure | ssh/ssh.go:92-112 | no hosts-file check, host keys ignored, port 22, 10 s timeout |
| Session.ConnectedHostTrusted | ssh/ssh.go:65-90 | a successful Connect leaves the host trusted with the key it presented |
| Session.ConnectRefusesChangedKey | ssh/ssh.go:65-90 | Connect to a host whose key changed fails with the mismatch |
| Marathon.Marathon.New | marathon/marathon.go:34-45 | three empty maps; command, timeout and concurrency as given |
| Marathon.Marathon.Dispatch | marathon/marathon.go:64-112 | the loop files every target in order (Dispatched) |
| Marathon.Marathon.Run | marathon/marathon.go:48-115 | the auth error and the hosts-file error come before any target; ignoreFingerprint picks the host-key callback |
| Marathon.Marathon.RunChecked | ssh/marathon.go:47-116 | the auth, hosts-file and log-level errors come before any target; then the checked dispatch |
| Marathon.Marathon.RunInsecure | ssh/marathon.go:118-182 | the same classification without the hosts-file check; known_hosts is untouched |
| Marathon.Marathon.PrintResult | marathon/marathon.go:167-183 | the report with successes only when `failures` is false |
| Marathon.StepFilesTarget | marathon/marathon.go:87-108 | a failed handshake files the error; otherwise a failed command files the indented output under failures, else under successes |
| Marathon.ConnectFailureIsError | ssh/marathon.go:88-95 | a failed connection files the target under errors only, whatever the command would print |
| Marathon.LevelError | ssh/marathon.go:61-64 | the log-level error is "couldn't parse log level: " followed by the parser's message unchanged |
| Marathon.DispatchPartitions | marathon/marathon.go:64-112 | with distinct names, every target lands in exactly one map, and the sizes add up to the number of targets |
| Marathon.NamesCount | marathon/marathon.go:64-112 | distinct names are as many as the targets |
| Marathon.DispatchKeepsPins | marathon/marathon.go:64-112 | a run keeps every known_hosts line in front |
| Marathon.InsecureKeepsFile | ssh/marathon.go:118-182 | with host keys ignored, known_hosts stays as it was |
| Vssh.BuildInstanceDict | ssh.go:61-64 | the loop builds AddressMap: NatIP+":22" to name |
| Vssh.AddressOf | ssh.go:63 | the address is the NAT IP followed by ":22" |
| Vssh.AddressMapLastWins | helpers/ssh.go:197-200 | the addresses are exactly the instances' addresses; each maps to the last instance's name |
| Vssh.SameAddressCollapses | roll.go:57-60 | two instances at one address collapse to the later name |
| Vssh.AddClients | ssh.go:66-71 | no error iff no address fails; an error is the failure of some address |
| Vssh.Collect | ssh.go:83-97 | the response loop files every response (Collected) |
| Vssh.FileResponse | ssh.go:83-97 | a response error goes to errors, exit 0 to successes, otherwise to failures; other hosts untouched |
| Vssh.Run.NewRun | ssh.go:29-35 | three empty maps |
| Vssh.Run.PrintResult | ssh.go:102-120 | the report, with successes only when `failures` is false |
| Vssh.Execute | ssh.go:48-99 | the user error, then the client errors with no outcomes, then the indented filing of every response |
| Vssh.Roll.constructor | roll.go:23-32 | empty maps and the command |
| Vssh.Roll.Execute | roll.go:45-95 | as Execute, filing into the roll's maps |
| Vssh.Roll.PrintResult | roll.go:98-116 | the report, with successes only when `failures` is false |
| Helpers.Status | helpers/ssh.go:259-268 | red iff any error; yellow iff no error and some failure; green iff neither |
| Helpers.Run.NewRun | helpers/ssh.go:44-50 | three empty maps |
| Helpers.Run.PrintResult | helpers/ssh.go:237-256 | the report, with successes only when the flag is true |
| Helpers.Run.RunStatus | helpers/ssh.go:259-268 | the status of the run's maps |
| Helpers.Execute | helpers/ssh.go:184-234 | as ssh.go's Execute, with raw output |
| Helpers.ErrorMakesRed | helpers/ssh.go:259-262 | filing an error makes the status red |
| Helpers.CollectedKeepsErrors | helpers/ssh.go:219-231 | filed errors and failures are never removed |
| Helpers.GreenIffAllSucceeded | helpers/ssh.go:219-268 | green iff every response had no error and exit status 0 |
| GrpcTransport.Apply | pkg/common/transport/grpc.go:42-65 | corrected apply: each option writes its own field only |
| GrpcTransport.ApplyAsWritten | pkg/common/transport/grpc.go:42-65 | as written: no option changes useSSH; WithSSHKey sets the key; WithInsecure and WithSSH both set insecure |
| GrpcTransport.DirectTarget | pkg/common/transport/grpc.go:133-135 | the direct target is "address:1337" |
| GrpcTransport.GrpcTransport.constructor | pkg/common/transport/grpc.go:33-38 | defaults: TLS off, SSH on, no key |
| GrpcTransport.GrpcTransport.ApplyAll | pkg/common/transport/grpc.go:78-80 | corrected: the options fold left to right |
| GrpcTransport.Select | pkg/common/transport/grpc.go:82-100 | tunnel iff useSSH (host keys ignored iff insecure) to 127.0.0.1:1337; direct iff !useSSH and insecure; no connection and no error iff neither |
| GrpcTransport.NewGRPCTransport | pkg/common/transport/grpc.go:71-101 | corrected: Select of the folded options |
| GrpcTransport.LastInsecureWins | pkg/common/transport/grpc.go:78-80 | corrected: the last WithInsecure decides insecure |
| GrpcTransport.LastSshWins | pkg/common/transport/grpc.go:78-80 | corrected: the last WithSSH decides useSSH |
| GrpcTransport.UseSshAlwaysTrue | pkg/common/transport/grpc.go:52-54 | as written, useSSH is true for every option list |
| GrpcTransport.WithSshAsWrittenCounterexample | pkg/common/transport/grpc.go:52-54 | as written, WithSSH(true) ignores host keys and WithSSH(false) still tunnels |
| GrpcTransport.WithSshIntended | pkg/common/transport/grpc.go:52-54 | corrected, WithSSH(false) with WithInsecure(true) dials directly |
| PortalTransport.Apply | pkg/common/transport/transport.go:40-53 | WithInsecure sets insecure; WithSSH stores the key |
| PortalTransport.HTTP2Transport | pkg/common/transport/transport.go:104-107 | a direct dial of "address:1337" |
| PortalTransport.Transport.constructor | pkg/common/transport/transport.go:32-36 | defaults: TLS off, no key |
| PortalTransport.Transport.ApplyAll | pkg/common/transport/transport.go:66-68 | the options fold left to right |
| PortalTransport.Select | pkg/common/transport/transport.go:70-99 | with a key, a tunnel to 127.0.0.1:1337 (host keys ignored iff insecure) or the SSH error; without, the direct dial |
| PortalTransport.NewTransport | pkg/common/transport/transport.go:59-102 | Select of the folded options |
| PortalTransport.LastInsecureWins | pkg/common/transport/transport.go:66-68 | the last WithInsecure decides insecure |
| PortalTransport.LastKeyWins | pkg/common/transport/transport.go:66-68 | the last WithSSH decides the key |
| PortalTransport.NoKeyWithoutSsh | pkg/common/transport/transport.go:32-36 | without WithSSH there is no key |
| PortalTransport.InsecureIgnoredWithoutKey | pkg/common/transport/transport.go:93-99 | without a key, insecure changes nothing |
| Instances.GetAddress | pkg/speedrun/cloud/instance.go:20-26 | the private address when asked for, else the public one |
| Instances.Filter | pkg/speedrun/cloud/instance.go:69-94 | a compile error is returned; otherwise the loop keeps FilterSpec |
| Instances.GetInstances | pkg/speedrun/cloud/instance.go:28-52 | client, list and filter errors in order; an empty selection is "no instances found" |
| Instances.FilterSelects | pkg/speedrun/cloud/instance.go:78-91 | an instance is kept iff it is listed and evaluates to true |
| Instances.FilterIsSubsequence | pkg/speedrun/cloud/instance.go:77-93 | the kept instances are a subsequence of the list, in order |
| Instances.SkippedInstance | pkg/speedrun/cloud/instance.go:78-87 | an evaluation error, a non-bool or false leaves the selection unchanged |
| Service.ServiceName | pkg/portal/service.go:30 | the unit is "<name>.service", and trimming the suffix gives the name back |
| Service.Systemd.Listed | pkg/portal/service.go:61-67 | the listed unit; a unit with no file is "inactive", "not-found" |
| Service.Systemd.IssueJob | pkg/portal/service.go:31-39 | one job is logged, the unit settles, and the response is Changed with the titled result |
| Service.Systemd.ServiceRestart | pkg/portal/service.go:13-41 | bus errors change nothing; otherwise a restart job, Changed=true |
| Service.Systemd.ServiceStop | pkg/portal/service.go:43-81 | an inactive unit gives "Service already stopped" with no job; otherwise a stop job, Changed=true |
| Service.Systemd.ServiceStart | pkg/portal/service.go:83-121 | an active unit gives "Service already running" with no job; otherwise a start job, Changed=true |
| Service.Systemd.ServiceStatus | pkg/portal/service.go:123-158 | "service not found" iff the load state is not-found; otherwise the three states |
| Service.MissingUnitIsStopped | pkg/portal/service.go:67-69 | a unit with no file counts as stopped and its status is not found |
| Files.SyscallMode | pkg/portal/file.go:78 | the mode set keeps the nine permission bits and maps Go's setuid, setgid and sticky bits |
| Files.FileSystem.ReadFile | pkg/portal/file.go:21 | the content iff the path exists |
| Files.FileSystem.WriteFile | pkg/portal/file.go:46 | the content replaced; an existing file keeps its mode, a new one gets 0644 |
| Files.FileSystem.FileRead | pkg/portal/file.go:12-28 | the content verbatim with state UNKNOWN, or the read error |
| Files.FileSystem.FileCp | pkg/portal/file.go:30-67 | both remote: dst gets src's content; only dst: dst gets the request's content; only src: src's content returned, nothing written; neither: nothing; a failed read writes nothing |
| Files.FileSystem.FileChmod | pkg/portal/file.go:69-85 | the mode becomes SyscallMode of the request, with state UNKNOWN |
| Files.NewModeOf | pkg/portal/file.go:46 | an existing file keeps its mode; a new one gets 0644 |
| Files.PermissionBitsExact | pkg/portal/file.go:78 | a mode below 01000 is set exactly |
| Files.DecimalModeBits | pkg/portal/file.go:78 | 644 read as a number sets mode 0204 |
| CliPortal.GetUrl | cmd/speedrun/cli/portal.go:128-145 | x86_64 iff amd64; the four arm names iff arm64; anything else is "unsupported CPU architecture" |
| CliPortal.GetUrlRejectsNewline | cmd/speedrun/cli/portal.go:141-142 | no string ending in a newline is accepted |
| CliPortal.DownloadCommand | cmd/speedrun/cli/portal.go:117 | "curl -L --silent ", the URL, " -o /tmp/portal.zip" |
| CliPortal.Deploy | cmd/speedrun/cli/portal.go:42-126 | corrected: the list error, no instances (no error), the key error, then one report per instance |
| CliPortal.ReportsPerHost | cmd/speedrun/cli/portal.go:93-124 | corrected: every instance gets its own report, in order; a failure on one host does not affect the others |
| CliPortal.DownloadAttempted | cmd/speedrun/cli/portal.go:93-124 | corrected: the download runs iff the connection, `uname -m` and getUrl all succeeded |
| CliPortal.ReportAsWritten | cmd/speedrun/cli/portal.go:93-124 | as written: the connect error, then the uname error; a download iff the raw uname output is "x86_64" or an arm64 name, with the matching URL |
| CliPortal.Report | cmd/speedrun/cli/portal.go:93-124 | corrected: the same, with the trailing newline of the uname output dropped before the match |
| CliPortal.AsWrittenNeverDownloads | cmd/speedrun/cli/portal.go:105-111 | as written, output ending in a newline always fails at getUrl |
| CliPortal.IntendedDownloadsAmd64 | cmd/speedrun/cli/portal.go:105-119 | corrected, "x86_64\n" downloads the amd64 archive |
| CliFile.RemotePath | cmd/speedrun/cli/file.go:173 | at most one leading ':' removed |
| CliFile.PrepareCp | cmd/speedrun/cli/file.go:116-147 | both local is refused first; a local source is read; the instance error; the request with the classification and trimmed paths |
| CliFile.Cp | cmd/speedrun/cli/file.go:116-191 | errors before any portal change nothing; otherwise the local files are LocalAfter of the replies |
| CliFile.RemoteDstKeepsLocal | cmd/speedrun/cli/file.go:178-184 | with a remote destination nothing is written locally |
| CliFile.OnlyDstWritten | cmd/speedrun/cli/file.go:178-184 | no local file other than dst changes |
| CliFile.LastReplyWins | cmd/speedrun/cli/file.go:178-184 | a local dst ends with the content of the last reply written |
| CliFile.ParseModeAsWritten | cmd/speedrun/cli/file.go:206-209 | as written: Atoi then uint32 truncation |
| CliFile.ParseMode | cmd/speedrun/cli/file.go:206-209 | corrected: strconv.ParseUint(arg, 8, 32): Ok iff non-empty octal digits below 2^32, with the octal value; otherwise "strconv.ParseUint: parsing <Quote(arg)>: " with a range error iff the octal digits before the first non-octal character already reach 2^32 |
| CliFile.ChmodAsWritten | cmd/speedrun/cli/file.go:193-251 | as written: a bad mode fails before the instance lookup; the request carries the decimal value |
| CliFile.Chmod | cmd/speedrun/cli/file.go:193-251 | corrected: the request carries the octal value |
| CliFile.ChmodAsWrittenMisreads | cmd/speedrun/cli/file.go:206 | as written, "0644" requests 644 and mode 0204 is set |
| CliFile.ChmodOctal | cmd/speedrun/cli/file.go:206 | corrected, "0644" sets mode 0644 |
| CliFile.OctalPermissionsExact | cmd/speedrun/cli/file.go:240 | up to three octal digits are set exactly |
| CliFile.ReadPath | cmd/speedrun/cli/file.go:101 | one argument is the path; space-free arguments split back from the joined path |

## Left out

- Cloud API calls: project and instance fetches, SetCommonInstanceMetadata, SetMetadata, instance listing. Their results and errors are inputs.
- Dialling, SSH sessions, gRPC, DRPC and QUIC connections, TLS setup and key material. The model keeps only their errors and the connection parameters chosen.
- Concurrency: worker pools, mutexes and the WaitGroup. Targets and portals are handled one after another in list order; with concurrent workers the order of map insertions and local writes may differ.
- Logging and terminal colours. The report is a sequence of lines, not printed text.
- Go's map iteration order. The report lists each group in some order, and only its contents are specified.
- The expression language of the instance filter: compiling is an input error, and evaluation is a function from instance to result.
- strings.Title is an uninterpreted function, and the job's result string is an input.
- The unit state after a job is an input (`settled`), since systemd applies jobs itself.
- Service.Systemd.Listed: assumes ListUnitsByNames returns one entry per requested name, as systemd does. An empty list would make the Go code panic; that case is not modelled.
- Files.FileSystem.ReadFile: a read fails only for a missing path; permission and I/O errors on reads are not modelled.
- Files.FileSystem.WriteFile: the process umask is not applied to the 0644 of a new file.
- Files.SyscallMode: other io/fs mode bits (directory, symlink, …) are ignored, as os.Chmod does.
- The `file read` and `file chmod` per-portal requests and the printing of replies are not modelled beyond the request built (ReadPath, Chmod).
- Cobra flag lookups, config loading and the `--upload`/`--install` flags of deploy, which only log.
- IPv6 address joining (net.JoinHostPort brackets) is not modelled; addresses are joined with ':'.
- A missing NAT IP panics in the Go code; instances are assumed to carry one.
- The 4096-byte output limit of the vssh runs is not modelled.
- Error wrapping: SSH and dial errors keep their original text.
- KeyMetadata.ParseMetadataItem: requires the first token to contain ':'. On other input the Go code panics (index out of range), and callers meet that precondition only when the new line parses.
- GoSort.SortedKeys: sort.Strings is modelled by its result (ascending, unique), not by its algorithm; GoSort.SortKeys sorts by insertion.
- GoStrconv.Quote: non-printable characters outside ASCII and invalid UTF-8 are not modelled; every character except the ASCII controls, '"' and '\\' is kept as it is.
- GoStrconv.ParseUint: only the bases 2 to 10 the tool uses; base 0 (prefix detection), underscores and bases above 10 are not modelled.
- Trust.CheckKnownHost: host patterns, hashed host names, the @cert-authority and @revoked markers and the lookup under the remote IP address are not modelled; a line names one host literally.

## Findings

| source | as written | input that shows it | evidently intended | confidence | as-written member | corrected member |
|---|---|---|---|---|---|---|
| cloud/google_metadata.go:209-224 | the item list is made with length len(m) and then appended to, so it starts with len(m) nil items (gcp/metadata.go:132-149 is the same) | a map with the single key "ssh-keys" gives [nil, item] | one item per key, sorted, no nils | high, not executed | KeyMetadata.ExpandComputeMetadata, KeyMetadata.ExpandAsWrittenHasNilSlots | KeyMetadata.ExpandMetadata, KeyMetadata.FlattenExpand |
| cloud/google_metadata.go:101-113 | the result of removeFromMetadata is discarded and the never-assigned `items` is submitted | metadata whose ssh-keys holds exactly the line being removed: the submission has no items, wiping every metadata key | submit the list with the line removed | high, not executed | KeyMetadata.RemoveKeySubmissionAsWritten, KeyMetadata.RemoveAsWrittenWipesMetadata | KeyMetadata.RemoveKeyFromMetadata, KeyMetadata.RemoveDropsEntry |
| pkg/common/transport/grpc.go:52-54 | withSSH's apply assigns `insecure` | WithSSH(false) still tunnels; WithSSH(true) ignores host keys | WithSSH sets useSSH | high, not executed | GrpcTransport.ApplyAsWritten, GrpcTransport.UseSshAlwaysTrue, GrpcTransport.WithSshAsWrittenCounterexample | GrpcTransport.Apply, GrpcTransport.WithSshIntended |
| cmd/speedrun/cli/file.go:206 | the mode is parsed with decimal strconv.Atoi | "0644", the command's own example, requests 644 = 01204, and mode 0204 is set | parse the mode as octal | high, not executed | CliFile.ChmodAsWritten, CliFile.ChmodAsWrittenMisreads | CliFile.Chmod, CliFile.ChmodOctal |
| cmd/speedrun/cli/portal.go:111 | getUrl is given the raw output of `uname -m` | "x86_64\n" (uname ends its output with a newline) is "unsupported CPU architecture" | trim the newline before matching | high, not executed | CliPortal.ReportAsWritten, CliPortal.AsWrittenNeverDownloads | CliPortal.Report, CliPortal.IntendedDownloadsAmd64 |

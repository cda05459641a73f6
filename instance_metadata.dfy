/**
 * The per-instance variant of the key update (gcp/metadata.go).  Its
 * lookup, append, update, flatten and expand helpers are the same code as the
 * project-level ones and are the members of KeyMetadata; this module holds
 * what differs: the key is trimmed before the line is built, and the
 * instance's metadata is replaced in memory before the update call is made
 * against the zone named by the last segment of the instance's zone URL.
 */
module InstanceMetadata {
  import opened Wrappers
  import opened GoStrings
  import opened KeyMetadata

  /** formatSSHPubKey: the authorized-key text without one trailing newline. */
  function FormatSshPubKey(authorizedKey: string): (r: string)
    ensures HasSuffix(authorizedKey, "\n") ==> r + "\n" == authorizedKey
    ensures !HasSuffix(authorizedKey, "\n") ==> r == authorizedKey
  {
    TrimSuffix(authorizedKey, "\n")
  }

  /** createMetadataEntry: the line `user:pubKey hostname`, the key taken as given. */
  function CreateMetadataEntry(user: Result<string>, hostname: Result<string>, pubKey: string): (r: Result<string>)
    ensures user.Err? ==> r == Err(user.error)
    ensures user.Ok? && hostname.Err? ==> r == Err(hostname.error)
    ensures r.Ok? <==> user.Ok? && hostname.Ok?
  {
    if user.Err? then Err(user.error)
    else if hostname.Err? then Err(hostname.error)
    else Ok(user.value + ":" + pubKey + " " + hostname.value)
  }

  /** Trimming first and then building the line gives the project-level line. */
  lemma EntryIsProjectItem(user: Result<string>, hostname: Result<string>, authorizedKey: string)
    ensures CreateMetadataEntry(user, hostname, FormatSshPubKey(authorizedKey))
         == CreateMetadataItem(user, hostname, authorizedKey)
  {
  }

  /** Parsing a built entry gives back its user, algorithm and hostname. */
  lemma ParseCreateEntry(username: string, hostname: string, pubKey: string, algo: string, body: string)
    requires ' ' !in username && ':' !in username
    requires ' ' !in algo && ':' !in algo
    requires ' ' !in hostname
    requires pubKey == algo + " " + body
    ensures var r := CreateMetadataEntry(Ok(username), Ok(hostname), pubKey);
      r.Ok? && Parseable(r.value) && ParseMetadataItem(r.value) == Header(username, algo, hostname)
  {
    var withNewline := pubKey + "\n";
    assert HasSuffix(withNewline, "\n");
    assert withNewline[..|withNewline| - 1] == pubKey;
    ParseCreate(username, hostname, withNewline, algo, body);
  }

  /** The zone name: the last '/'-separated segment of the instance's zone URL. */
  function ZoneName(zone: string): (r: string)
    ensures '/' !in r
    ensures HasSuffix(zone, r)
    ensures '/' !in zone ==> r == zone
  {
    var s := Split(zone, '/');
    SplitBounds(zone, '/');
    if '/' in zone then s[|s| - 1]
    else
      SplitWithoutSep(zone, '/');
      s[|s| - 1]
  }

  /** Whatever precedes the last '/', the zone name is the segment after it. */
  lemma ZoneNameOfUrl(prefix: string, name: string)
    requires '/' !in name
    ensures ZoneName(prefix + "/" + name) == name
  {
    SplitSnoc(prefix, '/', name);
  }

  /** The Instances.Update request: project, zone, instance name and the instance's metadata. */
  datatype UpdateCall = UpdateCall(project: string, zone: string, name: string, metadata: Metadata)

  /** The compute.Instance value the update works on. */
  class Instance {
    var name: string
    var zone: string
    var metadata: Metadata

    constructor (name: string, zone: string, metadata: Metadata)
      ensures this.name == name && this.zone == zone && this.metadata == metadata
    {
      this.name := name;
      this.zone := zone;
      this.metadata := metadata;
    }
  }

  function Failed(err: string): string
  {
    err + " failed to update metadata: "
  }

  /**
   * UpdateInstanceMetadata: nothing happens when the identical line is
   * present; otherwise the instance's metadata is replaced by the updated or
   * extended list with the fetched fingerprint, and the update call is made
   * (its error, a parameter here, is wrapped).  The in-memory metadata stays
   * replaced even when the call fails.
   */
  method UpdateInstanceMetadata(project: string, instance: Instance, user: Result<string>, hostname: Result<string>,
                                authorizedKey: string, updateErr: Option<string>)
    returns (err: Option<string>, call: Option<UpdateCall>)
    requires var entry := CreateMetadataEntry(user, hostname, FormatSshPubKey(authorizedKey));
      entry.Ok? && SshKeys in Flatten(instance.metadata.items) ==> Parseable(entry.value)
    modifies instance
    ensures var entry := CreateMetadataEntry(user, hostname, FormatSshPubKey(authorizedKey));
      entry.Err? ==> err == Some(Failed(entry.error)) && call.None? && unchanged(instance)
    ensures var entry := CreateMetadataEntry(user, hostname, FormatSshPubKey(authorizedKey));
      entry.Ok? ==>
        var s := AddKeySubmission(old(instance.metadata), entry.value);
        (s.None? ==> err.None? && call.None? && unchanged(instance))
        && (s.Some? ==>
              instance.metadata == s.value
              && instance.name == old(instance.name) && instance.zone == old(instance.zone)
              && call == Some(UpdateCall(project, ZoneName(instance.zone), instance.name, s.value))
              && err == (if updateErr.Some? then Some(Failed(updateErr.value)) else None))
  {
    var pubKey := FormatSshPubKey(authorizedKey);
    var entry := CreateMetadataEntry(user, hostname, pubKey);
    if entry.Err? {
      return Some(Failed(entry.error)), None;
    }
    var md := instance.metadata;
    var l := HasItem(md, entry.value);
    var items: seq<Item>;
    if l.hasKey && l.same {
      return None, None;
    } else if l.hasKey && !l.same {
      HasItemFirstMatch(md, entry.value);
      items := UpdateMetadata(md, entry.value, l.index);
    } else {
      items := AppendToMetadata(md, entry.value);
    }
    instance.metadata := Metadata(md.fingerprint, items);
    var zone := ZoneName(instance.zone);
    call := Some(UpdateCall(project, zone, instance.name, instance.metadata));
    if updateErr.Some? {
      return Some(Failed(updateErr.value)), call;
    }
    err := None;
  }
}

/**
 * The project-wide SSH key list of a Compute Engine project.
 *
 * The project metadata is a list of key/value items.  The item with key
 * "ssh-keys" holds one authorized key per line, each of the form
 * `user:algo key-data comment`.  Adding a key finds the first line that
 * belongs to the same user, algorithm and comment: an identical line means
 * nothing to do, a line that differs is replaced in place, and otherwise the
 * new line is appended.  Removing a key deletes an identical line.  Every
 * change flattens the items into a map, edits the "ssh-keys" value and
 * rebuilds the item list from the map in ascending key order; the rebuilt
 * list is submitted with the fingerprint that was read.
 */
module KeyMetadata {
  import opened Wrappers
  import opened GoStrings
  import opened GoSort

  const SshKeys: string := "ssh-keys"

  /** One metadata item. */
  datatype Item = Item(key: string, value: string)

  /** The metadata of a project or instance: its fingerprint and its items. */
  datatype Metadata = Metadata(fingerprint: string, items: seq<Item>)

  /** The user, algorithm and comment of one authorized-key line. */
  datatype Header = Header(username: string, algo: string, comment: string)

  /** The result of the key lookup: a line was found, it is identical, and where. */
  datatype Lookup = Lookup(hasKey: bool, same: bool, index: int)

  // ---------------------------------------------------------------------
  // flattenMetadata / expandComputeMetadata

  /** The items as a map; a later item overrides an earlier one with the same key. */
  function Flatten(items: seq<Item>): map<string, string>
    decreases |items|
  {
    if |items| == 0 then map[]
    else Flatten(items[..|items| - 1])[items[|items| - 1].key := items[|items| - 1].value]
  }

  method FlattenMetadata(items: seq<Item>) returns (m: map<string, string>)
    ensures m == Flatten(items)
  {
    m := map[];
    for i := 0 to |items|
      invariant m == Flatten(items[..i])
    {
      assert items[..i + 1][..i] == items[..i];
      m := m[items[i].key := items[i].value];
    }
    assert items[..|items|] == items;
  }

  /** The map has exactly the keys that occur in the items. */
  lemma {:induction false} FlattenKeys(items: seq<Item>)
    ensures forall k :: k in Flatten(items) <==> exists i :: 0 <= i < |items| && items[i].key == k
    decreases |items|
  {
    if |items| > 0 {
      var init := items[..|items| - 1];
      FlattenKeys(init);
      forall k ensures k in Flatten(items) <==> exists i :: 0 <= i < |items| && items[i].key == k {
        if k in Flatten(init) && k != items[|items| - 1].key {
          var i :| 0 <= i < |init| && init[i].key == k;
          assert items[i] == init[i];
        }
        if exists i :: 0 <= i < |items| && items[i].key == k {
          var i :| 0 <= i < |items| && items[i].key == k;
          if i < |items| - 1 {
            assert init[i] == items[i];
          }
        }
      }
    }
  }

  /** The value kept for a key is the one of its last item. */
  lemma {:induction false} FlattenLastWins(items: seq<Item>, i: int)
    requires 0 <= i < |items|
    requires forall j :: i < j < |items| ==> items[j].key != items[i].key
    ensures items[i].key in Flatten(items) && Flatten(items)[items[i].key] == items[i].value
    decreases |items|
  {
    if i < |items| - 1 {
      var init := items[..|items| - 1];
      assert init[i] == items[i];
      forall j | i < j < |init| ensures init[j].key != init[i].key {
        assert init[j] == items[j];
      }
      FlattenLastWins(init, i);
    }
  }

  /** The items for `keys` in order, each carrying its value in `m`. */
  function ItemsOf(m: map<string, string>, keys: seq<string>): (items: seq<Item>)
    requires forall i :: 0 <= i < |keys| ==> keys[i] in m
    ensures |items| == |keys|
    ensures forall i :: 0 <= i < |keys| ==> items[i] == Item(keys[i], m[keys[i]])
  {
    if |keys| == 0 then []
    else ItemsOf(m, keys[..|keys| - 1]) + [Item(keys[|keys| - 1], m[keys[|keys| - 1]])]
  }

  /** expandComputeMetadata as intended: one item per key, in ascending key order. */
  ghost function ExpandSpec(m: map<string, string>): seq<Item>
  {
    ItemsOf(m, SortedKeys(m.Keys))
  }

  /** The corrected expandComputeMetadata, which the rest of the model uses. */
  method ExpandMetadata(m: map<string, string>) returns (items: seq<Item>)
    ensures items == ExpandSpec(m)
  {
    var keys := SortKeys(m.Keys);
    assert forall j :: 0 <= j < |keys| ==> keys[j] in m;
    items := CollectItems(m, keys);
  }

  /** The loop of the corrected expandComputeMetadata: one item per key, in order. */
  method CollectItems(m: map<string, string>, keys: seq<string>) returns (items: seq<Item>)
    requires forall j :: 0 <= j < |keys| ==> keys[j] in m
    ensures items == ItemsOf(m, keys)
  {
    items := [];
    for i := 0 to |keys|
      invariant |items| == i
      invariant forall j :: 0 <= j < i ==> items[j] == Item(keys[j], m[keys[j]])
    {
      items := items + [Item(keys[i], m[keys[i]])];
    }
  }

  /** Each item in a non-nil slot. */
  function Wrap(items: seq<Item>): (r: seq<Option<Item>>)
    ensures |r| == |items|
    ensures forall j :: 0 <= j < |items| ==> r[j] == Some(items[j])
  {
    if |items| == 0 then []
    else Wrap(items[..|items| - 1]) + [Some(items[|items| - 1])]
  }

  /** make([]*compute.MetadataItems, n): `n` nil slots. */
  function Nils(n: nat): (r: seq<Option<Item>>)
    ensures |r| == n
  {
    seq(n, _ => None)
  }

  /** What expandComputeMetadata returns as written: `len(m)` nil slots, then the items. */
  ghost function PaddedExpand(m: map<string, string>): seq<Option<Item>>
  {
    Nils(|m|) + Wrap(ExpandSpec(m))
  }

  /**
   * expandComputeMetadata as written: the slice is made with length len(m)
   * and the items are appended after those nil entries.
   */
  method ExpandComputeMetadata(m: map<string, string>) returns (metadata: seq<Option<Item>>)
    ensures metadata == PaddedExpand(m)
  {
    var keys := SortKeys(m.Keys);
    assert forall j :: 0 <= j < |keys| ==> keys[j] in m;
    metadata := AppendItems(Nils(|m|), m, keys);
  }

  /** The loop of expandComputeMetadata: one non-nil item per key, appended in order. */
  method AppendItems(pad: seq<Option<Item>>, m: map<string, string>, keys: seq<string>)
    returns (metadata: seq<Option<Item>>)
    requires forall j :: 0 <= j < |keys| ==> keys[j] in m
    ensures metadata == pad + Wrap(ItemsOf(m, keys))
  {
    metadata := pad;
    for i := 0 to |keys|
      invariant |metadata| == |pad| + i
      invariant metadata[..|pad|] == pad
      invariant forall j :: 0 <= j < i ==> metadata[|pad| + j] == Some(Item(keys[j], m[keys[j]]))
    {
      metadata := metadata + [Some(Item(keys[i], m[keys[i]]))];
    }
    PaddedPointwise(pad, m, keys, metadata);
  }

  lemma PaddedPointwise(pad: seq<Option<Item>>, m: map<string, string>, keys: seq<string>, metadata: seq<Option<Item>>)
    requires forall j :: 0 <= j < |keys| ==> keys[j] in m
    requires |metadata| == |pad| + |keys| && metadata[..|pad|] == pad
    requires forall j :: 0 <= j < |keys| ==> metadata[|pad| + j] == Some(Item(keys[j], m[keys[j]]))
    ensures metadata == pad + Wrap(ItemsOf(m, keys))
  {
    var w := Wrap(ItemsOf(m, keys));
    forall j | 0 <= j < |metadata| ensures metadata[j] == (pad + w)[j] {
      if j < |pad| {
        assert metadata[j] == metadata[..|pad|][j];
      }
    }
  }

  /** The rebuilt list holds exactly the map's keys, each with the key's value. */
  lemma ExpandSpecCovers(m: map<string, string>)
    ensures var e := ExpandSpec(m);
      |e| == |m|
      && (forall i :: 0 <= i < |e| ==> e[i].key in m && e[i].value == m[e[i].key])
      && (forall k :: k in m ==> exists i :: 0 <= i < |e| && e[i].key == k)
  {
    var keys := SortedKeys(m.Keys);
    var e := ExpandSpec(m);
    assert |m.Keys| == |m|;
    forall k | k in m ensures exists i :: 0 <= i < |e| && e[i].key == k {
      assert k in keys;
      var i :| 0 <= i < |keys| && keys[i] == k;
      assert e[i].key == k;
    }
  }

  /** The rebuilt list has one item per key, ascending by key, with the key's value. */
  lemma ExpandSpecSorted(m: map<string, string>)
    ensures var e := ExpandSpec(m);
      |e| == |m|
      && (forall i, j :: 0 <= i < j < |e| ==> Less(e[i].key, e[j].key))
      && (forall i :: 0 <= i < |e| ==> e[i].key in m && e[i].value == m[e[i].key])
      && (forall k :: k in m ==> exists i :: 0 <= i < |e| && e[i].key == k)
  {
    ExpandSpecCovers(m);
  }

  /** Keys are strictly ascending in the rebuilt list, so no key repeats after position i. */
  lemma ExpandSpecNoLaterDuplicate(m: map<string, string>, i: int)
    requires 0 <= i < |ExpandSpec(m)|
    ensures forall j :: i < j < |ExpandSpec(m)| ==> ExpandSpec(m)[j].key != ExpandSpec(m)[i].key
  {
    var e := ExpandSpec(m);
    forall j | i < j < |e| ensures e[j].key != e[i].key {
      assert Less(SortedKeys(m.Keys)[i], SortedKeys(m.Keys)[j]);
      LessIrreflexive(e[i].key);
    }
  }

  lemma FlattenExpandAt(m: map<string, string>, k: string)
    requires k in m
    ensures k in Flatten(ExpandSpec(m)) && Flatten(ExpandSpec(m))[k] == m[k]
  {
    var e := ExpandSpec(m);
    ExpandSpecCovers(m);
    var i :| 0 <= i < |e| && e[i].key == k;
    ExpandSpecNoLaterDuplicate(m, i);
    FlattenLastWins(e, i);
  }

  /** A list whose keys are exactly the map's keys flattens to a map with those keys. */
  lemma FlattenKeysOf(items: seq<Item>, m: map<string, string>)
    requires forall i :: 0 <= i < |items| ==> items[i].key in m
    requires forall k :: k in m ==> exists i :: 0 <= i < |items| && items[i].key == k
    ensures Flatten(items).Keys == m.Keys
  {
    FlattenKeys(items);
    forall k | k in Flatten(items) ensures k in m {
      var i :| 0 <= i < |items| && items[i].key == k;
    }
  }

  lemma FlattenExpandKeys(m: map<string, string>)
    ensures Flatten(ExpandSpec(m)).Keys == m.Keys
  {
    ExpandSpecCovers(m);
    FlattenKeysOf(ExpandSpec(m), m);
  }

  /** Flattening the rebuilt list gives back the map. */
  lemma FlattenExpand(m: map<string, string>)
    ensures Flatten(ExpandSpec(m)) == m
  {
    FlattenExpandKeys(m);
    forall k | k in m ensures Flatten(ExpandSpec(m))[k] == m[k] {
      FlattenExpandAt(m, k);
    }
  }

  /** As written, a non-empty map yields twice as many slots, the first of them nil. */
  lemma ExpandAsWrittenHasNilSlots(m: map<string, string>)
    requires |m| > 0
    ensures |PaddedExpand(m)| == 2 * |m|
    ensures PaddedExpand(m)[0] == None
    ensures |ExpandSpec(m)| == |m|
  {
    ExpandSpecSorted(m);
  }

  // ---------------------------------------------------------------------
  // parseMetadataitem / createMetadataItem

  /** The first space-separated token contains ':' (otherwise the parser indexes out of range). */
  predicate Parseable(key: string)
  {
    ':' in Split(key, ' ')[0]
  }

  /** Where the token that starts at `i` ends: at the first ' ' or ':' from `i` on, or at the end of the line. */
  function TokenEnd(key: string, i: nat): (j: nat)
    requires i <= |key|
    ensures i <= j <= |key|
    decreases |key| - i
  {
    if i == |key| || key[i] == ' ' || key[i] == ':' then i else TokenEnd(key, i + 1)
  }

  /** Where the space-separated token that ends at `j` starts: just after the last ' ' before `j`, or at 0. */
  function TokenStart(key: string, j: nat): (i: nat)
    requires j <= |key|
    ensures i <= j
  {
    if j == 0 || key[j - 1] == ' ' then j else TokenStart(key, j - 1)
  }

  /** TokenEnd stops at a ' ', a ':' or the end of the line, and passes over neither. */
  lemma {:induction false} TokenEndStops(key: string, i: nat)
    requires i <= |key|
    ensures var j := TokenEnd(key, i);
      (j == |key| || key[j] == ' ' || key[j] == ':')
      && forall k :: i <= k < j ==> key[k] != ' ' && key[k] != ':'
    decreases |key| - i
  {
    if !(i == |key| || key[i] == ' ' || key[i] == ':') {
      TokenEndStops(key, i + 1);
    }
  }

  /** A run free of ' ' and ':' that stops at one of them or at the end is where TokenEnd stops. */
  lemma {:induction false} TokenEndAt(key: string, i: nat, j: nat)
    requires i <= j <= |key|
    requires forall k :: i <= k < j ==> key[k] != ' ' && key[k] != ':'
    requires j == |key| || key[j] == ' ' || key[j] == ':'
    ensures TokenEnd(key, i) == j
    decreases j - i
  {
    if i < j {
      TokenEndAt(key, i + 1, j);
    }
  }

  /** TokenStart stops after a ' ' or at the start of the line, and passes over no ' '. */
  lemma {:induction false} TokenStartStops(key: string, j: nat)
    requires j <= |key|
    ensures var i := TokenStart(key, j);
      (i == 0 || key[i - 1] == ' ') && forall k :: i <= k < j ==> key[k] != ' '
  {
    if !(j == 0 || key[j - 1] == ' ') {
      TokenStartStops(key, j - 1);
    }
  }

  /** A run free of ' ' that follows a ' ' or the start of the line is where TokenStart stops. */
  lemma {:induction false} TokenStartAt(key: string, i: nat, j: nat)
    requires i <= j <= |key|
    requires forall k :: i <= k < j ==> key[k] != ' '
    requires i == 0 || key[i - 1] == ' '
    ensures TokenStart(key, j) == i
    decreases j - i
  {
    if i < j {
      TokenStartAt(key, i, j - 1);
    }
  }

  /** Username and algorithm from the first token, comment from the last one. */
  function ParseMetadataItem(key: string): (h: Header)
    requires Parseable(key)
    ensures ' ' !in h.username && ':' !in h.username
    ensures ' ' !in h.algo && ':' !in h.algo
    ensures ' ' !in h.comment
    ensures HasPrefix(key, h.username + ":" + h.algo)
    ensures HasSuffix(key, h.comment)
    ensures |h.username| == TokenEnd(key, 0)
    ensures |h.username| + 1 + |h.algo| == TokenEnd(key, |h.username| + 1)
    ensures |key| - |h.comment| == TokenStart(key, |key|)
  {
    var t := Split(key, ' ');
    TwoHeaderPieces(key);
    var parts := Split(t[0], ':');
    HeaderStart(key, parts[0], parts[1]);
    HeaderEnd(key, parts[0], parts[1]);
    CommentStart(key, t[|t| - 1]);
    Header(parts[0], parts[1], t[|t| - 1])
  }

  /** A parseable first token has a ':' and so at least two pieces. */
  lemma TwoHeaderPieces(key: string)
    requires Parseable(key)
    ensures |Split(Split(key, ' ')[0], ':')| >= 2
  {
    var head := Split(key, ' ')[0];
    CountPresent(head, ':');
    assert |Split(head, ':')| == Count(head, ':') + 1;
  }

  /** The parsed username and algorithm are free of ' ' and ':' and start the line, joined by ':'. */
  lemma HeaderStart(key: string, username: string, algo: string)
    requires Parseable(key) && |Split(Split(key, ' ')[0], ':')| >= 2
    requires username == Split(Split(key, ' ')[0], ':')[0] && algo == Split(Split(key, ' ')[0], ':')[1]
    ensures ' ' !in username && ':' !in username
    ensures ' ' !in algo && ':' !in algo
    ensures HasPrefix(key, username + ":" + algo)
  {
    HeaderPieces(key);
  }

  /** The parsed username is the line's first token, and the algorithm the token after its ':'. */
  lemma HeaderEnd(key: string, username: string, algo: string)
    requires Parseable(key) && |Split(Split(key, ' ')[0], ':')| >= 2
    requires username == Split(Split(key, ' ')[0], ':')[0] && algo == Split(Split(key, ' ')[0], ':')[1]
    ensures |username| + 1 <= |key|
    ensures |username| == TokenEnd(key, 0)
    ensures |username| + 1 + |algo| == TokenEnd(key, |username| + 1)
  {
    var head := Split(key, ' ')[0];
    SplitFirst(key, ' ');
    FirstIndexSpec(head, ':');
    var f := FirstIndex(head, ':');
    SplitFirst(head, ':');
    SplitAfterFirst(head, ':');
    SplitFirst(head[f + 1..], ':');
    HeadTokens(key, head);
  }

  /**
   * With head the text before the line's first ' ', and a ':' in head: the
   * line's first token ends at that ':', and the next one where head's
   * second ':'-separated piece ends.
   */
  lemma HeadTokens(key: string, head: string)
    requires head == key[..FirstIndex(key, ' ')] && FirstIndex(head, ':') < |head|
    ensures TokenEnd(key, 0) == FirstIndex(head, ':')
    ensures TokenEnd(key, FirstIndex(head, ':') + 1)
      == FirstIndex(head, ':') + 1 + FirstIndex(head[FirstIndex(head, ':') + 1..], ':')
  {
    var e := FirstIndex(key, ' ');
    var f := FirstIndex(head, ':');
    var rest := head[f + 1..];
    var g := FirstIndex(rest, ':');
    FirstIndexSpec(key, ' ');
    FirstIndexSpec(head, ':');
    FirstIndexSpec(rest, ':');
    forall k | 0 <= k < f ensures key[k] != ' ' && key[k] != ':' {
      assert key[k] == head[k];
    }
    assert key[f] == head[f];
    TokenEndAt(key, 0, f);
    var m := f + 1 + g;
    forall k | f + 1 <= k < m ensures key[k] != ' ' && key[k] != ':' {
      assert key[k] == head[k] == rest[k - f - 1];
    }
    if g < |rest| {
      assert key[m] == head[m] == rest[g];
    }
    TokenEndAt(key, f + 1, m);
  }

  /** The parsed comment is the line's last space-separated token. */
  lemma CommentStart(key: string, comment: string)
    requires comment == Split(key, ' ')[|Split(key, ' ')| - 1]
    ensures ' ' !in comment && HasSuffix(key, comment)
    ensures |key| - |comment| == TokenStart(key, |key|)
  {
    CommentBoundary(key);
    var i := |key| - |comment|;
    forall k | i <= k < |key| ensures key[k] != ' ' {
      assert key[k] == key[i..][k - i] == comment[k - i];
    }
    TokenStartAt(key, i, |key|);
  }

  /** The first token splits at ':' into a space- and colon-free username and algorithm that start the line. */
  lemma HeaderPieces(key: string)
    requires Parseable(key)
    ensures var parts := Split(Split(key, ' ')[0], ':');
      |parts| >= 2
      && ' ' !in parts[0] && ':' !in parts[0] && ' ' !in parts[1] && ':' !in parts[1]
      && HasPrefix(key, parts[0] + ":" + parts[1])
  {
    var t := Split(key, ' ');
    var head := t[0];
    CountPresent(head, ':');
    var parts := Split(head, ':');
    SplitBounds(key, ' ');
    SplitBounds(head, ':');
    PrefixTrans(key, head, parts[0] + [':'] + parts[1]);
    assert HasPrefix(head, parts[0]) by {
      PrefixTrans(head, parts[0] + [':'] + parts[1], parts[0]);
    }
    assert ' ' !in parts[0] by {
      if ' ' in parts[0] { PrefixChars(head, parts[0], ' '); }
    }
    assert ' ' !in parts[1] by {
      if ' ' in parts[1] {
        assert ' ' in parts[0] + [':'] + parts[1];
        PrefixChars(head, parts[0] + [':'] + parts[1], ' ');
      }
    }
  }

  /** The comment is everything after the last space. */
  lemma CommentBoundary(key: string)
    ensures var t := Split(key, ' ');
      var c := t[|t| - 1];
      ' ' !in c && HasSuffix(key, c)
      && (|c| == |key| || key[|key| - |c| - 1] == ' ')
  {
    var t := Split(key, ' ');
    SplitSeparators(key, ' ');
    SplitBounds(key, ' ');
    if |t| >= 2 {
      var c := t[|t| - 1];
      assert key[|key| - |c| - 1..] == [' '] + c;
    }
  }

  /** The line `user:key hostname`, with one trailing newline of the key removed. */
  function CreateMetadataItem(user: Result<string>, hostname: Result<string>, authorizedKey: string): (r: Result<string>)
    ensures user.Err? ==> r == Err(user.error)
    ensures user.Ok? && hostname.Err? ==> r == Err(hostname.error)
    ensures r.Ok? <==> user.Ok? && hostname.Ok?
  {
    if user.Err? then Err(user.error)
    else if hostname.Err? then Err(hostname.error)
    else Ok(user.value + ":" + TrimSuffix(authorizedKey, "\n") + " " + hostname.value)
  }

  /** Parsing a created line gives back its user, algorithm and hostname. */
  lemma ParseCreate(username: string, hostname: string, authorizedKey: string, algo: string, body: string)
    requires ' ' !in username && ':' !in username
    requires ' ' !in algo && ':' !in algo
    requires ' ' !in hostname
    requires TrimSuffix(authorizedKey, "\n") == algo + " " + body
    ensures var r := CreateMetadataItem(Ok(username), Ok(hostname), authorizedKey);
      r.Ok? && Parseable(r.value) && ParseMetadataItem(r.value) == Header(username, algo, hostname)
  {
    var head := username + ":" + algo;
    var item := CreateMetadataItem(Ok(username), Ok(hostname), authorizedKey).value;
    assert item == head + [' '] + (body + " " + hostname);
    assert ' ' !in head;
    SplitCons(head, ' ', body + " " + hostname);
    assert item == (head + " " + body) + [' '] + hostname;
    SplitSnoc(head + " " + body, ' ', hostname);
    assert head == username + [':'] + algo;
    SplitCons(username, ':', algo);
    SplitWithoutSep(algo, ':');
  }

  // ---------------------------------------------------------------------
  // hasItem

  predicate Matches(e: string, x: string, h: Header)
  {
    e == x || (HasPrefix(e, h.username + ":" + h.algo) && HasSuffix(e, h.comment))
  }

  /** The scan of hasItem from line `i` on: the first identical or same-header line. */
  function FindFrom(entries: seq<string>, x: string, h: Header, i: nat): Lookup
    requires i <= |entries|
    decreases |entries| - i
  {
    if i == |entries| then Lookup(false, false, -1)
    else if entries[i] == x then Lookup(true, true, i)
    else if HasPrefix(entries[i], h.username + ":" + h.algo) && HasSuffix(entries[i], h.comment) then Lookup(true, false, i)
    else FindFrom(entries, x, h, i + 1)
  }

  /** The scan finds the first matching line, says whether it is identical, and finds nothing only when no line matches. */
  lemma {:induction false} FindFromFirstMatch(entries: seq<string>, x: string, h: Header, i: nat)
    requires i <= |entries|
    ensures var r := FindFrom(entries, x, h, i);
      (r.hasKey <==> exists j :: i <= j < |entries| && Matches(entries[j], x, h))
      && (r.hasKey ==>
            i <= r.index < |entries| && Matches(entries[r.index], x, h)
            && (forall j :: i <= j < r.index ==> !Matches(entries[j], x, h))
            && (r.same <==> entries[r.index] == x))
      && (!r.hasKey ==> r == Lookup(false, false, -1))
    decreases |entries| - i
  {
    if i < |entries| && !Matches(entries[i], x, h) {
      FindFromFirstMatch(entries, x, h, i + 1);
    }
  }

  /** hasItem as a function of the metadata and the new line. */
  function HasItemSpec(md: Metadata, x: string): Lookup
    requires SshKeys in Flatten(md.items) ==> Parseable(x)
  {
    var flat := Flatten(md.items);
    if SshKeys !in flat then Lookup(false, false, -1)
    else FindFrom(Split(flat[SshKeys], '\n'), x, ParseMetadataItem(x), 0)
  }

  function SshEntries(md: Metadata): seq<string>
    requires SshKeys in Flatten(md.items)
  {
    Split(Flatten(md.items)[SshKeys], '\n')
  }

  method HasItem(md: Metadata, x: string) returns (r: Lookup)
    requires SshKeys in Flatten(md.items) ==> Parseable(x)
    ensures r == HasItemSpec(md, x)
  {
    var flat := FlattenMetadata(md.items);
    if SshKeys !in flat {
      return Lookup(false, false, -1);
    }
    var entries := Split(flat[SshKeys], '\n');
    var h := ParseMetadataItem(x);
    var i := 0;
    while i < |entries|
      invariant 0 <= i <= |entries|
      invariant FindFrom(entries, x, h, i) == HasItemSpec(md, x)
    {
      var header := h.username + ":" + h.algo;
      if x == entries[i] {
        return Lookup(true, true, i);
      } else if HasPrefix(entries[i], header) && HasSuffix(entries[i], h.comment) {
        return Lookup(true, false, i);
      }
      i := i + 1;
    }
    return Lookup(false, false, -1);
  }

  /** Without an "ssh-keys" item nothing is found. */
  lemma HasItemWithoutSshKeys(md: Metadata, x: string)
    requires SshKeys !in Flatten(md.items)
    ensures HasItemSpec(md, x) == Lookup(false, false, -1)
  {
  }

  /** The lookup reports the first line that is identical or has the same header and comment. */
  lemma HasItemFirstMatch(md: Metadata, x: string)
    requires SshKeys in Flatten(md.items) && Parseable(x)
    ensures var r := HasItemSpec(md, x);
      var e := SshEntries(md);
      var h := ParseMetadataItem(x);
      (r.hasKey <==> exists j :: 0 <= j < |e| && Matches(e[j], x, h))
      && (r.hasKey ==>
            0 <= r.index < |e| && Matches(e[r.index], x, h)
            && (forall j :: 0 <= j < r.index ==> !Matches(e[j], x, h))
            && (r.same <==> e[r.index] == x))
      && (!r.hasKey ==> r == Lookup(false, false, -1))
  {
    FindFromFirstMatch(SshEntries(md), x, ParseMetadataItem(x), 0);
  }

  /** A partial match before an identical duplicate wins: the lookup reports the partial one. */
  lemma EarlierPartialWins(md: Metadata, x: string, j: int, k: int)
    requires SshKeys in Flatten(md.items) && Parseable(x)
    requires 0 <= j < k < |SshEntries(md)|
    requires forall l :: 0 <= l < j ==> !Matches(SshEntries(md)[l], x, ParseMetadataItem(x))
    requires SshEntries(md)[j] != x && Matches(SshEntries(md)[j], x, ParseMetadataItem(x))
    requires SshEntries(md)[k] == x
    ensures HasItemSpec(md, x) == Lookup(true, false, j)
  {
    HasItemFirstMatch(md, x);
    var r := HasItemSpec(md, x);
    assert Matches(SshEntries(md)[j], x, ParseMetadataItem(x));
    assert r.index <= j;
  }

  // ---------------------------------------------------------------------
  // appendToMetadata / updateMetadata / removeFromMetadata

  /** The items after the "ssh-keys" value is set to the given lines. */
  ghost function WithEntries(md: Metadata, entries: seq<string>): seq<Item>
  {
    ExpandSpec(Flatten(md.items)[SshKeys := Join(entries, '\n')])
  }

  ghost function AppendSpec(md: Metadata, x: string): seq<Item>
  {
    var flat := Flatten(md.items);
    if SshKeys !in flat then WithEntries(md, [x])
    else WithEntries(md, SshEntries(md) + [x])
  }

  ghost function UpdateSpec(md: Metadata, x: string, i: int): seq<Item>
    requires SshKeys in Flatten(md.items) && 0 <= i < |SshEntries(md)|
  {
    WithEntries(md, SshEntries(md)[i := x])
  }

  ghost function RemoveSpec(md: Metadata, i: int): seq<Item>
    requires SshKeys in Flatten(md.items) && 0 <= i < |SshEntries(md)|
  {
    WithEntries(md, SshEntries(md)[..i] + SshEntries(md)[i + 1..])
  }

  method AppendToMetadata(md: Metadata, item: string) returns (items: seq<Item>)
    ensures items == AppendSpec(md, item)
  {
    var entries: seq<string> := [];
    var flat := FlattenMetadata(md.items);
    if SshKeys !in flat {
      entries := entries + [item];
      flat := flat[SshKeys := Join(entries, '\n')];
      items := ExpandMetadata(flat);
      return;
    }
    entries := Split(flat[SshKeys], '\n');
    entries := entries + [item];
    flat := flat[SshKeys := Join(entries, '\n')];
    items := ExpandMetadata(flat);
  }

  method UpdateMetadata(md: Metadata, item: string, i: int) returns (items: seq<Item>)
    requires SshKeys in Flatten(md.items) && 0 <= i < |SshEntries(md)|
    ensures items == UpdateSpec(md, item, i)
  {
    var flat := FlattenMetadata(md.items);
    var entries := Split(flat[SshKeys], '\n');
    var a := new string[|entries|](j requires 0 <= j < |entries| => entries[j]);
    a[i] := item;
    assert a[..] == entries[i := item];
    flat := flat[SshKeys := Join(a[..], '\n')];
    items := ExpandMetadata(flat);
  }

  /** copy(a[i:], a[i+1:]): every element after `i` moves one place to the left. */
  method ShiftLeft(a: array<string>, i: int)
    requires 0 <= i < a.Length
    modifies a
    ensures a[..a.Length - 1] == old(a[..i]) + old(a[i + 1..])
    ensures a[a.Length - 1] == old(a[a.Length - 1])
  {
    var j := i;
    while j < a.Length - 1
      invariant i <= j <= a.Length - 1
      invariant forall k :: 0 <= k < i ==> a[k] == old(a[k])
      invariant forall k :: i <= k < j ==> a[k] == old(a[k + 1])
      invariant forall k :: j <= k < a.Length ==> a[k] == old(a[k])
    {
      a[j] := a[j + 1];
      j := j + 1;
    }
    assert a[..a.Length - 1] == old(a[..i]) + old(a[i + 1..]);
  }

  /** removeFromMetadata; like the source it ignores the line it is given. */
  method RemoveFromMetadata(md: Metadata, item: string, i: int) returns (items: seq<Item>)
    requires SshKeys in Flatten(md.items) && 0 <= i < |SshEntries(md)|
    ensures items == RemoveSpec(md, i)
  {
    var flat := FlattenMetadata(md.items);
    var entries := Split(flat[SshKeys], '\n');
    var a := new string[|entries|](j requires 0 <= j < |entries| => entries[j]);
    assert a[..] == entries;
    ShiftLeft(a, i);
    a[a.Length - 1] := "";
    var kept := a[..a.Length - 1];
    assert kept == entries[..i] + entries[i + 1..];
    flat := flat[SshKeys := Join(kept, '\n')];
    items := ExpandMetadata(flat);
  }

  /** Setting the lines and reading them back: the lines come back and no other key changes. */
  lemma WithEntriesReadBack(md: Metadata, entries: seq<string>)
    requires |entries| >= 1 && NoSep(entries, '\n')
    ensures var after := Flatten(WithEntries(md, entries));
      SshKeys in after
      && after == Flatten(md.items)[SshKeys := after[SshKeys]]
      && after[SshKeys] == Join(entries, '\n')
      && Split(after[SshKeys], '\n') == entries
  {
    FlattenExpand(Flatten(md.items)[SshKeys := Join(entries, '\n')]);
    SplitJoin(entries, '\n');
  }

  /** With no match the new line goes last and every earlier line stays in order; without "ssh-keys" it is the only line. */
  lemma AppendKeepsEarlierEntries(md: Metadata, x: string)
    requires '\n' !in x
    ensures var after := Flatten(AppendSpec(md, x));
      SshKeys in after
      && after == Flatten(md.items)[SshKeys := after[SshKeys]]
      && (SshKeys in Flatten(md.items) ==> Split(after[SshKeys], '\n') == SshEntries(md) + [x])
      && (SshKeys !in Flatten(md.items) ==> after[SshKeys] == x)
  {
    if SshKeys in Flatten(md.items) {
      var e := SshEntries(md) + [x];
      assert NoSep(e, '\n');
      WithEntriesReadBack(md, e);
    } else {
      WithEntriesReadBack(md, [x]);
    }
  }

  /** An update replaces line `i` only: the other lines, their order and the other keys are unchanged. */
  lemma UpdateReplacesOnlyEntry(md: Metadata, x: string, i: int)
    requires SshKeys in Flatten(md.items) && 0 <= i < |SshEntries(md)| && '\n' !in x
    ensures var after := Flatten(UpdateSpec(md, x, i));
      SshKeys in after
      && after == Flatten(md.items)[SshKeys := after[SshKeys]]
      && Split(after[SshKeys], '\n') == SshEntries(md)[i := x]
  {
    var e := SshEntries(md)[i := x];
    assert NoSep(e, '\n');
    WithEntriesReadBack(md, e);
  }

  /** A removal deletes line `i` and shifts the later lines left; the last line leaves an empty value. */
  lemma RemoveDropsEntry(md: Metadata, i: int)
    requires SshKeys in Flatten(md.items) && 0 <= i < |SshEntries(md)|
    ensures var after := Flatten(RemoveSpec(md, i));
      SshKeys in after
      && after == Flatten(md.items)[SshKeys := after[SshKeys]]
      && (|SshEntries(md)| >= 2 ==> Split(after[SshKeys], '\n') == SshEntries(md)[..i] + SshEntries(md)[i + 1..])
      && (|SshEntries(md)| == 1 ==> after[SshKeys] == "")
  {
    var old_ := SshEntries(md);
    var e := old_[..i] + old_[i + 1..];
    if |old_| >= 2 {
      assert NoSep(e, '\n') by {
        forall j | 0 <= j < |e| ensures '\n' !in e[j] {
          if j < i { assert e[j] == old_[j]; } else { assert e[j] == old_[j + 1]; }
        }
      }
      WithEntriesReadBack(md, e);
    } else {
      assert e == [];
      FlattenExpand(Flatten(md.items)[SshKeys := Join(e, '\n')]);
    }
  }

  // ---------------------------------------------------------------------
  // addKeyToMetadata / removeKeyFromMetadata

  /** What addKeyToMetadata submits: nothing on an identical line, else the updated or extended list with the fetched fingerprint. */
  ghost function AddKeySubmission(md: Metadata, x: string): (r: Option<Metadata>)
    requires SshKeys in Flatten(md.items) ==> Parseable(x)
    ensures r.None? <==> HasItemSpec(md, x).hasKey && HasItemSpec(md, x).same
    ensures r.Some? ==> r.value.fingerprint == md.fingerprint
  {
    var l := HasItemSpec(md, x);
    if l.hasKey && l.same then None
    else if l.hasKey then
      HasItemFirstMatch(md, x);
      Some(Metadata(md.fingerprint, UpdateSpec(md, x, l.index)))
    else Some(Metadata(md.fingerprint, AppendSpec(md, x)))
  }

  /** What removeKeyFromMetadata should submit: the list without the identical line. */
  ghost function RemoveKeySubmission(md: Metadata, x: string): (r: Option<Metadata>)
    requires SshKeys in Flatten(md.items) ==> Parseable(x)
    ensures r.Some? <==> HasItemSpec(md, x).hasKey && HasItemSpec(md, x).same
    ensures r.Some? ==> r.value.fingerprint == md.fingerprint
  {
    var l := HasItemSpec(md, x);
    if l.hasKey && l.same then
      HasItemFirstMatch(md, x);
      Some(Metadata(md.fingerprint, RemoveSpec(md, l.index)))
    else None
  }

  /** What removeKeyFromMetadata submits as written: the removal result is dropped and `items` is still nil. */
  ghost function RemoveKeySubmissionAsWritten(md: Metadata, x: string): (r: Option<Metadata>)
    requires SshKeys in Flatten(md.items) ==> Parseable(x)
    ensures r.Some? <==> HasItemSpec(md, x).hasKey && HasItemSpec(md, x).same
    ensures r.Some? ==> r.value.items == []
  {
    var l := HasItemSpec(md, x);
    if l.hasKey && l.same then Some(Metadata(md.fingerprint, [])) else None
  }

  /** As written, removing a key wipes every metadata item; the corrected removal keeps all other keys. */
  lemma RemoveAsWrittenWipesMetadata(md: Metadata, x: string)
    requires SshKeys in Flatten(md.items) && Parseable(x)
    requires HasItemSpec(md, x).same
    ensures RemoveKeySubmissionAsWritten(md, x) == Some(Metadata(md.fingerprint, []))
    ensures var c := RemoveKeySubmission(md, x);
      c.Some? && c.value.fingerprint == md.fingerprint
      && forall k :: k in Flatten(md.items) ==> k in Flatten(c.value.items)
  {
    HasItemFirstMatch(md, x);
    RemoveDropsEntry(md, HasItemSpec(md, x).index);
  }

  /** Adding the same key twice: the second time finds the identical line and writes nothing. */
  lemma AddKeyIdempotent(md: Metadata, x: string)
    requires Parseable(x) && '\n' !in x
    requires AddKeySubmission(md, x).Some?
    ensures AddKeySubmission(AddKeySubmission(md, x).value, x) == None
  {
    if SshKeys !in Flatten(md.items) {
      CreatedFoundAgain(md, x);
    } else if HasItemSpec(md, x).hasKey {
      HasItemFirstMatch(md, x);
      UpdatedFoundAgain(md, x);
    } else {
      AppendedFoundLast(md, x, md.fingerprint);
    }
  }

  /** An identical line with no matching line before it is what the lookup finds. */
  lemma FoundIdenticalAt(md: Metadata, x: string, n: int)
    requires SshKeys in Flatten(md.items) && Parseable(x)
    requires 0 <= n < |SshEntries(md)| && SshEntries(md)[n] == x
    requires forall j :: 0 <= j < n ==> !Matches(SshEntries(md)[j], x, ParseMetadataItem(x))
    ensures HasItemSpec(md, x) == Lookup(true, true, n)
  {
    HasItemFirstMatch(md, x);
    var r := HasItemSpec(md, x);
    assert Matches(SshEntries(md)[n], x, ParseMetadataItem(x));
    assert r.index >= n;
  }

  /** Replacing the first match with the line leaves it where the lookup will find it, identical. */
  lemma UpdatedFoundAgain(md: Metadata, x: string)
    requires SshKeys in Flatten(md.items) && Parseable(x) && '\n' !in x
    requires HasItemSpec(md, x).hasKey && !HasItemSpec(md, x).same
    requires 0 <= HasItemSpec(md, x).index < |SshEntries(md)|
    ensures var after := Metadata(md.fingerprint, UpdateSpec(md, x, HasItemSpec(md, x).index));
      SshKeys in Flatten(after.items) && HasItemSpec(after, x) == Lookup(true, true, HasItemSpec(md, x).index)
  {
    var n := HasItemSpec(md, x).index;
    HasItemFirstMatch(md, x);
    UpdateReplacesOnlyEntry(md, x, n);
    var after := Metadata(md.fingerprint, UpdateSpec(md, x, n));
    var e := SshEntries(after);
    assert e == SshEntries(md)[n := x];
    forall j | 0 <= j < n ensures !Matches(e[j], x, ParseMetadataItem(x)) {
      assert e[j] == SshEntries(md)[j];
    }
    FoundIdenticalAt(after, x, n);
  }

  /** Without an ssh-keys item, the line becomes the only entry and is found identical. */
  lemma CreatedFoundAgain(md: Metadata, x: string)
    requires SshKeys !in Flatten(md.items) && Parseable(x) && '\n' !in x
    ensures var after := Metadata(md.fingerprint, AppendSpec(md, x));
      SshKeys in Flatten(after.items) && HasItemSpec(after, x) == Lookup(true, true, 0)
  {
    AppendKeepsEarlierEntries(md, x);
    var after := Metadata(md.fingerprint, AppendSpec(md, x));
    SplitWithoutSep(x, '\n');
    FoundIdenticalAt(after, x, 0);
  }

  /** After an append of a line that matched nothing, the lookup finds it, identical, in last place. */
  lemma AppendedFoundLast(md: Metadata, x: string, fingerprint: string)
    requires SshKeys in Flatten(md.items) && Parseable(x) && '\n' !in x
    requires !HasItemSpec(md, x).hasKey
    ensures var added := Metadata(fingerprint, AppendSpec(md, x));
      SshKeys in Flatten(added.items)
      && SshEntries(added) == SshEntries(md) + [x]
      && HasItemSpec(added, x) == Lookup(true, true, |SshEntries(md)|)
  {
    var added := Metadata(fingerprint, AppendSpec(md, x));
    AppendKeepsEarlierEntries(md, x);
    assert SshEntries(added) == SshEntries(md) + [x];
    AppendedNoEarlierMatch(md, added, x);
    FoundIdenticalAt(added, x, |SshEntries(md)|);
  }

  /** Lines kept ahead of an appended line that matched none of them still match none. */
  lemma AppendedNoEarlierMatch(md: Metadata, added: Metadata, x: string)
    requires SshKeys in Flatten(md.items) && SshKeys in Flatten(added.items) && Parseable(x)
    requires !HasItemSpec(md, x).hasKey && SshEntries(added) == SshEntries(md) + [x]
    ensures forall j :: 0 <= j < |SshEntries(md)| ==> !Matches(SshEntries(added)[j], x, ParseMetadataItem(x))
  {
    HasItemFirstMatch(md, x);
    var old_ := SshEntries(md);
    var e := SshEntries(added);
    forall j | 0 <= j < |old_| ensures !Matches(e[j], x, ParseMetadataItem(x)) {
      assert e[j] == old_[j];
    }
  }

  /** Removing the last line of a list that extends the lines of `md` by one gives back `md`'s map. */
  lemma RemoveLastRestores(md: Metadata, added: Metadata, x: string)
    requires SshKeys in Flatten(md.items) && SshKeys in Flatten(added.items)
    requires Flatten(added.items) == Flatten(md.items)[SshKeys := Flatten(added.items)[SshKeys]]
    requires SshEntries(added) == SshEntries(md) + [x]
    ensures Flatten(RemoveSpec(added, |SshEntries(md)|)) == Flatten(md.items)
  {
    var old_ := SshEntries(md);
    var n := |old_|;
    var e := SshEntries(added);
    RemoveDropsEntry(added, n);
    assert e[..n] + e[n + 1..] == old_;
    var after := Flatten(RemoveSpec(added, n));
    RestoreMap(Flatten(md.items), Flatten(added.items), after);
  }

  /** A map that differs from `a` only at ssh-keys, where it holds the same lines, is `a`. */
  lemma RestoreMap(a: map<string, string>, b: map<string, string>, after: map<string, string>)
    requires SshKeys in a && SshKeys in b && SshKeys in after
    requires b == a[SshKeys := b[SshKeys]] && after == b[SshKeys := after[SshKeys]]
    requires Split(after[SshKeys], '\n') == Split(a[SshKeys], '\n')
    ensures after == a
  {
    JoinSplit(after[SshKeys], '\n');
    JoinSplit(a[SshKeys], '\n');
    assert after == a[SshKeys := after[SshKeys]];
  }

  /** Appending a new key to an existing list and then removing it restores every item. */
  lemma AddThenRemove(md: Metadata, x: string, fingerprint: string)
    requires SshKeys in Flatten(md.items) && Parseable(x) && '\n' !in x
    requires !HasItemSpec(md, x).hasKey
    ensures var added := Metadata(fingerprint, AppendSpec(md, x));
      var removed := RemoveKeySubmission(added, x);
      removed.Some? && removed.value.fingerprint == fingerprint
      && Flatten(removed.value.items) == Flatten(md.items)
  {
    var added := Metadata(fingerprint, AppendSpec(md, x));
    AppendedFoundLast(md, x, fingerprint);
    AppendKeepsEarlierEntries(md, x);
    RemoveLastRestores(md, added, x);
  }

  /** The project whose common instance metadata is read and written. */
  class Project {
    var commonInstanceMetadata: Metadata

    constructor (md: Metadata)
      ensures commonInstanceMetadata == md
    {
      commonInstanceMetadata := md;
    }

    /** Projects.SetCommonInstanceMetadata: the call error, if any, is a parameter. */
    method SetCommonInstanceMetadata(md: Metadata, callErr: Option<string>) returns (err: Option<string>)
      modifies this
      ensures err == callErr
      ensures callErr.None? ==> commonInstanceMetadata == md
      ensures callErr.Some? ==> unchanged(this)
    {
      err := callErr;
      if callErr.None? {
        commonInstanceMetadata := md;
      }
    }
  }

  /**
   * addKeyToMetadata: fetch the project, build the line, and write the
   * updated or extended list unless the identical line is already there.
   */
  method AddKeyToMetadata(project: Project, getErr: Option<string>, user: Result<string>, hostname: Result<string>,
                          authorizedKey: string, setErr: Option<string>) returns (err: Option<string>)
    requires getErr.None? && CreateMetadataItem(user, hostname, authorizedKey).Ok?
      && SshKeys in Flatten(project.commonInstanceMetadata.items)
      ==> Parseable(CreateMetadataItem(user, hostname, authorizedKey).value)
    modifies project
    ensures getErr.Some? ==> err == getErr && unchanged(project)
    ensures getErr.None? && CreateMetadataItem(user, hostname, authorizedKey).Err? ==>
      err == Some(CreateMetadataItem(user, hostname, authorizedKey).error) && unchanged(project)
    ensures getErr.None? && CreateMetadataItem(user, hostname, authorizedKey).Ok? ==>
      var s := AddKeySubmission(old(project.commonInstanceMetadata), CreateMetadataItem(user, hostname, authorizedKey).value);
      (s.None? ==> err.None? && unchanged(project))
      && (s.Some? && setErr.None? ==> err.None? && project.commonInstanceMetadata == s.value)
      && (s.Some? && setErr.Some? ==> err == setErr && unchanged(project))
  {
    if getErr.Some? {
      return getErr;
    }
    var projectData := project.commonInstanceMetadata;
    var item := CreateMetadataItem(user, hostname, authorizedKey);
    if item.Err? {
      return Some(item.error);
    }
    var l := HasItem(projectData, item.value);
    var items: seq<Item>;
    if l.hasKey && l.same {
      return None;
    } else if l.hasKey && !l.same {
      HasItemFirstMatch(projectData, item.value);
      items := UpdateMetadata(projectData, item.value, l.index);
    } else {
      items := AppendToMetadata(projectData, item.value);
    }
    var metadata := Metadata(projectData.fingerprint, items);
    err := project.SetCommonInstanceMetadata(metadata, setErr);
  }

  /**
   * removeKeyFromMetadata, corrected: on an identical line the list without
   * it is written; otherwise nothing is written.
   */
  method RemoveKeyFromMetadata(project: Project, getErr: Option<string>, user: Result<string>, hostname: Result<string>,
                               authorizedKey: string, setErr: Option<string>) returns (err: Option<string>)
    requires getErr.None? && CreateMetadataItem(user, hostname, authorizedKey).Ok?
      && SshKeys in Flatten(project.commonInstanceMetadata.items)
      ==> Parseable(CreateMetadataItem(user, hostname, authorizedKey).value)
    modifies project
    ensures getErr.Some? ==> err == getErr && unchanged(project)
    ensures getErr.None? && CreateMetadataItem(user, hostname, authorizedKey).Err? ==>
      err == Some(CreateMetadataItem(user, hostname, authorizedKey).error) && unchanged(project)
    ensures getErr.None? && CreateMetadataItem(user, hostname, authorizedKey).Ok? ==>
      var s := RemoveKeySubmission(old(project.commonInstanceMetadata), CreateMetadataItem(user, hostname, authorizedKey).value);
      (s.None? ==> err.None? && unchanged(project))
      && (s.Some? && setErr.None? ==> err.None? && project.commonInstanceMetadata == s.value)
      && (s.Some? && setErr.Some? ==> err == setErr && unchanged(project))
  {
    if getErr.Some? {
      return getErr;
    }
    var projectData := project.commonInstanceMetadata;
    var item := CreateMetadataItem(user, hostname, authorizedKey);
    if item.Err? {
      return Some(item.error);
    }
    var l := HasItem(projectData, item.value);
    var items: seq<Item>;
    if l.hasKey && l.same {
      HasItemFirstMatch(projectData, item.value);
      items := RemoveFromMetadata(projectData, item.value, l.index);
    } else {
      return None;
    }
    var metadata := Metadata(projectData.fingerprint, items);
    err := project.SetCommonInstanceMetadata(metadata, setErr);
  }
}

/**
 * The three outcome maps of a run (errors, failures and successes, keyed by
 * host name) and the report printed from them.  Every version of the tool
 * keeps these maps and prints them the same way: optionally the successes,
 * then the failures, then the errors, each group in the map's iteration
 * order, and finally the three counts.
 */
module Tally {

  /** The outcome maps: host name to error message or command output. */
  datatype Tally = Tally(errors: map<string, string>, failures: map<string, string>, successes: map<string, string>)

  /** What happened on one host. */
  datatype Outcome = Errored(message: string) | Failed(output: string) | Succeeded(output: string)

  const Empty: Tally := Tally(map[], map[], map[])

  /** Stores one host's outcome in the map of its kind, overwriting an earlier entry of that host there. */
  function Record(t: Tally, host: string, o: Outcome): (r: Tally)
    ensures o.Errored? ==> r == t.(errors := t.errors[host := o.message])
    ensures o.Failed? ==> r == t.(failures := t.failures[host := o.output])
    ensures o.Succeeded? ==> r == t.(successes := t.successes[host := o.output])
  {
    match o
    case Errored(m) => t.(errors := t.errors[host := m])
    case Failed(out) => t.(failures := t.failures[host := out])
    case Succeeded(out) => t.(successes := t.successes[host := out])
  }

  /** The hosts in `names` are each in exactly one of the three maps, and no other host is. */
  ghost predicate Partitioned(t: Tally, names: set<string>)
  {
    (forall h :: h in t.errors ==> h in names && h !in t.failures && h !in t.successes)
    && (forall h :: h in t.failures ==> h in names && h !in t.successes)
    && (forall h :: h in t.successes ==> h in names)
    && (forall h :: h in names ==> h in t.errors || h in t.failures || h in t.successes)
  }

  function Size(t: Tally): nat
  {
    |t.errors| + |t.failures| + |t.successes|
  }

  /** Recording a new host keeps the partition, now including that host, and adds one to the counts. */
  lemma RecordPartition(t: Tally, names: set<string>, host: string, o: Outcome)
    requires Partitioned(t, names) && host !in names
    requires Size(t) == |names|
    ensures Partitioned(Record(t, host, o), names + {host})
    ensures Size(Record(t, host, o)) == |names + {host}|
  {
    RecordKeepsPartition(t, names, host, o);
    RecordAddsOne(t, names, host, o);
  }

  lemma RecordKeepsPartition(t: Tally, names: set<string>, host: string, o: Outcome)
    requires Partitioned(t, names) && host !in names
    ensures Partitioned(Record(t, host, o), names + {host})
  {
    assert host !in t.errors && host !in t.failures && host !in t.successes;
  }

  lemma RecordAddsOne(t: Tally, names: set<string>, host: string, o: Outcome)
    requires host !in t.errors && host !in t.failures && host !in t.successes && host !in names
    requires Size(t) == |names|
    ensures Size(Record(t, host, o)) == |names + {host}|
  {
    assert |names + {host}| == |names| + 1;
    match o
    case Errored(m) =>
      assert |t.errors[host := m]| == |t.errors| + 1;
    case Failed(out) =>
      assert |t.failures[host := out]| == |t.failures| + 1;
    case Succeeded(out) =>
      assert |t.successes[host := out]| == |t.successes| + 1;
  }

  // ---------------------------------------------------------------------
  // PrintResult

  datatype Group = SuccessGroup | FailureGroup | ErrorGroup

  /** One printed entry: a host with its message, or the closing counts. */
  datatype ReportLine = HostEntry(group: Group, host: string, message: string)
                      | Counts(successes: nat, failures: nat, errors: nat)

  /** The entries `lines[lo..hi]` list the map `m` under `group`, each host exactly once. */
  ghost predicate ListsGroup(lines: seq<ReportLine>, lo: int, hi: int, group: Group, m: map<string, string>)
    requires 0 <= lo <= hi <= |lines|
  {
    hi - lo == |m|
    && (forall i :: lo <= i < hi ==>
          lines[i].HostEntry? && lines[i].group == group
          && lines[i].host in m && lines[i].message == m[lines[i].host])
    && (forall i, j :: lo <= i < j < hi ==> lines[i].host != lines[j].host)
    && (forall h :: h in m ==> exists i :: lo <= i < hi && lines[i].host == h)
  }

  /** A `range` over a Go map: every entry once, in an order the model leaves open. */
  method ListGroup(group: Group, m: map<string, string>) returns (lines: seq<ReportLine>)
    ensures |lines| == |m|
    ensures ListsGroup(lines, 0, |lines|, group, m)
  {
    lines := [];
    var remaining := m.Keys;
    while remaining != {}
      invariant remaining <= m.Keys
      invariant |lines| + |remaining| == |m|
      invariant forall i :: 0 <= i < |lines| ==>
        lines[i].HostEntry? && lines[i].group == group
        && lines[i].host in m && lines[i].host !in remaining && lines[i].message == m[lines[i].host]
      invariant forall i, j :: 0 <= i < j < |lines| ==> lines[i].host != lines[j].host
      invariant forall h :: h in m && h !in remaining ==> exists i :: 0 <= i < |lines| && lines[i].host == h
      decreases remaining
    {
      var h :| h in remaining;
      var before := lines;
      lines := lines + [HostEntry(group, h, m[h])];
      remaining := remaining - {h};
      forall h' | h' in m && h' !in remaining ensures exists i :: 0 <= i < |lines| && lines[i].host == h' {
        if h' == h {
          assert lines[|lines| - 1].host == h;
        } else {
          var i :| 0 <= i < |before| && before[i].host == h';
          assert lines[i].host == h';
        }
      }
    }
  }

  /** Offsets of the three groups in the report. */
  function SuccessEnd(t: Tally, showSuccesses: bool): nat
  {
    if showSuccesses then |t.successes| else 0
  }

  /**
   * The report layout: successes when shown, then failures, then errors, then
   * the three counts, which are the sizes of the maps.
   */
  ghost predicate IsReport(out: seq<ReportLine>, t: Tally, showSuccesses: bool)
  {
    var a := SuccessEnd(t, showSuccesses);
    var b := a + |t.failures|;
    |out| == b + |t.errors| + 1
    && ListsGroup(out, 0, a, SuccessGroup, if showSuccesses then t.successes else map[])
    && ListsGroup(out, a, b, FailureGroup, t.failures)
    && ListsGroup(out, b, |out| - 1, ErrorGroup, t.errors)
    && out[|out| - 1] == Counts(|t.successes|, |t.failures|, |t.errors|)
  }

  /** printResult over the three maps. */
  method PrintReport(t: Tally, showSuccesses: bool) returns (out: seq<ReportLine>)
    ensures IsReport(out, t, showSuccesses)
  {
    var shown: seq<ReportLine> := [];
    if showSuccesses {
      shown := ListGroup(SuccessGroup, t.successes);
    }
    var failed := ListGroup(FailureGroup, t.failures);
    var errored := ListGroup(ErrorGroup, t.errors);
    out := Assemble(shown, failed, errored, t);
    ReportShape(shown, failed, errored, t, showSuccesses);
  }

  /** The printed entries: the three groups in order, then the counts. */
  function Assemble(shown: seq<ReportLine>, failed: seq<ReportLine>, errored: seq<ReportLine>, t: Tally): seq<ReportLine>
  {
    shown + (failed + (errored + [Counts(|t.successes|, |t.failures|, |t.errors|)]))
  }

  /** Three listed groups followed by the counts make a report. */
  lemma ReportShape(shown: seq<ReportLine>, failed: seq<ReportLine>, errored: seq<ReportLine>, t: Tally, showSuccesses: bool)
    requires ListsGroup(shown, 0, |shown|, SuccessGroup, if showSuccesses then t.successes else map[])
    requires ListsGroup(failed, 0, |failed|, FailureGroup, t.failures)
    requires ListsGroup(errored, 0, |errored|, ErrorGroup, t.errors)
    requires |shown| == SuccessEnd(t, showSuccesses) && |failed| == |t.failures| && |errored| == |t.errors|
    ensures IsReport(Assemble(shown, failed, errored, t), t, showSuccesses)
  {
    var out := Assemble(shown, failed, errored, t);
    assert |out| == SuccessEnd(t, showSuccesses) + |t.failures| + |t.errors| + 1;
    assert out[|out| - 1] == Counts(|t.successes|, |t.failures|, |t.errors|);
    ReportShapeSuccesses(shown, failed, errored, t, showSuccesses);
    ReportShapeFailures(shown, failed, errored, t, showSuccesses);
    ReportShapeErrors(shown, failed, errored, t, showSuccesses);
  }

  lemma ReportShapeSuccesses(shown: seq<ReportLine>, failed: seq<ReportLine>, errored: seq<ReportLine>, t: Tally, showSuccesses: bool)
    requires ListsGroup(shown, 0, |shown|, SuccessGroup, if showSuccesses then t.successes else map[])
    requires |shown| == SuccessEnd(t, showSuccesses)
    ensures ListsGroup(Assemble(shown, failed, errored, t), 0, SuccessEnd(t, showSuccesses), SuccessGroup,
                       if showSuccesses then t.successes else map[])
  {
    var rest := failed + (errored + [Counts(|t.successes|, |t.failures|, |t.errors|)]);
    ListsGroupAt(Assemble(shown, failed, errored, t), [], shown, rest, 0, SuccessEnd(t, showSuccesses),
                 SuccessGroup, if showSuccesses then t.successes else map[]);
  }

  lemma ReportShapeFailures(shown: seq<ReportLine>, failed: seq<ReportLine>, errored: seq<ReportLine>, t: Tally, showSuccesses: bool)
    requires ListsGroup(failed, 0, |failed|, FailureGroup, t.failures)
    requires |shown| == SuccessEnd(t, showSuccesses) && |failed| == |t.failures|
    ensures ListsGroup(Assemble(shown, failed, errored, t), SuccessEnd(t, showSuccesses),
                       SuccessEnd(t, showSuccesses) + |t.failures|, FailureGroup, t.failures)
  {
    var rest := errored + [Counts(|t.successes|, |t.failures|, |t.errors|)];
    ListsGroupAt(Assemble(shown, failed, errored, t), shown, failed, rest, SuccessEnd(t, showSuccesses),
                 SuccessEnd(t, showSuccesses) + |t.failures|, FailureGroup, t.failures);
  }

  lemma ReportShapeErrors(shown: seq<ReportLine>, failed: seq<ReportLine>, errored: seq<ReportLine>, t: Tally, showSuccesses: bool)
    requires ListsGroup(errored, 0, |errored|, ErrorGroup, t.errors)
    requires |shown| == SuccessEnd(t, showSuccesses) && |failed| == |t.failures| && |errored| == |t.errors|
    ensures var out := Assemble(shown, failed, errored, t);
      ListsGroup(out, SuccessEnd(t, showSuccesses) + |t.failures|, |out| - 1, ErrorGroup, t.errors)
  {
    var out := Assemble(shown, failed, errored, t);
    var counts := [Counts(|t.successes|, |t.failures|, |t.errors|)];
    ConcatAssoc(failed, errored, counts);
    ConcatAssoc(shown, failed + errored, counts);
    ConcatAssoc(shown, failed, errored);
    ListsGroupAt(out, shown + failed, errored, counts, SuccessEnd(t, showSuccesses) + |t.failures|, |out| - 1,
                 ErrorGroup, t.errors);
  }

  lemma ConcatAssoc(a: seq<ReportLine>, b: seq<ReportLine>, c: seq<ReportLine>)
    ensures a + (b + c) == (a + b) + c
  {
  }

  /** A listed group stays listed, at positions shifted by `|pre|`, whatever precedes and follows it. */
  lemma ListsGroupAt(out: seq<ReportLine>, pre: seq<ReportLine>, x: seq<ReportLine>, post: seq<ReportLine>,
                     lo: int, hi: int, group: Group, m: map<string, string>)
    requires out == pre + x + post && lo == |pre| && hi == |pre| + |x|
    requires ListsGroup(x, 0, |x|, group, m)
    ensures ListsGroup(out, lo, hi, group, m)
  {
    forall i | lo <= i < hi ensures out[i] == x[i - lo] {
    }
    forall h | h in m ensures exists i :: lo <= i < hi && out[i].host == h {
      var j :| 0 <= j < |x| && x[j].host == h;
      assert out[lo + j] == x[j];
    }
  }
}

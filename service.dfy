/**
 * The service handlers of the portal agent (pkg/portal/service.go) over an
 * abstract systemd unit table.  Every handler addresses the unit
 * "<name>.service".  Start and Stop first look the unit up and issue no job
 * when it is already in the wanted state; Restart always issues its job;
 * Status only reads the table.
 *
 * The bus is abstract: the errors of connecting, listing and enqueueing a
 * job are inputs, as are the job's result string and the unit as systemd
 * reports it once the job has run.  strings.Title is an uninterpreted
 * function `title`.
 */
module Service {
  import opened Wrappers
  import opened GoStrings

  /** A unit's states as ListUnitsByNames reports them. */
  datatype Unit = Unit(activeState: string, loadState: string, subState: string)

  datatype JobKind = StartJob | StopJob | RestartJob

  /** A job issued on the bus: its kind and the unit it addresses. */
  datatype Job = Job(kind: JobKind, unit: string)

  datatype ServiceResponse = ServiceResponse(changed: bool, message: string)

  datatype ServiceStatusResponse = ServiceStatusResponse(activestate: string, loadstate: string, substate: string)

  const AlreadyStopped: string := "Service already stopped"
  const AlreadyRunning: string := "Service already running"
  const NotFound: string := "service not found"

  /** What systemd lists for a unit it has no file for. */
  const MissingUnit: Unit := Unit("inactive", "not-found", "dead")

  /** The unit every handler addresses. */
  function ServiceName(name: string): (r: string)
    ensures HasSuffix(r, ".service") && TrimSuffix(r, ".service") == name
  {
    TrimSuffixAppend(name, ".service");
    name + ".service"
  }

  /** Appending a suffix and trimming it gives the original back. */
  lemma TrimSuffixAppend(s: string, suffix: string)
    ensures HasSuffix(s + suffix, suffix) && TrimSuffix(s + suffix, suffix) == s
  {
    var t := s + suffix;
    assert t[|t| - |suffix|..] == suffix;
    assert t[..|t| - |suffix|] == s;
  }

  /** The unit table of the host and the jobs issued so far. */
  class Systemd {
    var units: map<string, Unit>
    var jobs: seq<Job>

    constructor (units: map<string, Unit>)
      ensures this.units == units && jobs == []
    {
      this.units := units;
      jobs := [];
    }

    /** The first (only) entry ListUnitsByNames returns for one unit name. */
    function Listed(unit: string): (u: Unit)
      reads this
      ensures unit in units ==> u == units[unit]
      ensures unit !in units ==> u.loadState == "not-found" && u.activeState == "inactive"
    {
      if unit in units then units[unit] else MissingUnit
    }

    /**
     * Issues a job and settles the unit as systemd reports it afterwards;
     * the response carries the title-cased job result.
     */
    method IssueJob(kind: JobKind, unit: string, result: string, settled: Unit, title: string -> string)
      returns (r: ServiceResponse)
      modifies this
      ensures jobs == old(jobs) + [Job(kind, unit)]
      ensures units == old(units)[unit := settled]
      ensures r == ServiceResponse(true, title(result))
    {
      jobs := jobs + [Job(kind, unit)];
      units := units[unit := settled];
      r := ServiceResponse(true, title(result));
    }

    /** ServiceRestart: always a restart job, always reported as a change. */
    method ServiceRestart(name: string, connErr: Option<string>, jobErr: Option<string>,
                          result: string, settled: Unit, title: string -> string)
      returns (r: Result<ServiceResponse>)
      modifies this
      ensures connErr.Some? ==> r == Err(connErr.value) && unchanged(this)
      ensures connErr.None? && jobErr.Some? ==> r == Err(jobErr.value) && unchanged(this)
      ensures connErr.None? && jobErr.None? ==>
        r == Ok(ServiceResponse(true, title(result)))
        && jobs == old(jobs) + [Job(RestartJob, ServiceName(name))]
        && units == old(units)[ServiceName(name) := settled]
    {
      if connErr.Some? {
        return Err(connErr.value);
      }
      var serviceName := ServiceName(name);
      if jobErr.Some? {
        return Err(jobErr.value);
      }
      var resp := IssueJob(RestartJob, serviceName, result, settled, title);
      return Ok(resp);
    }

    /** ServiceStop: no job when the unit is already inactive. */
    method ServiceStop(name: string, connErr: Option<string>, listErr: Option<string>, jobErr: Option<string>,
                       result: string, settled: Unit, title: string -> string)
      returns (r: Result<ServiceResponse>)
      modifies this
      ensures connErr.Some? ==> r == Err(connErr.value) && unchanged(this)
      ensures connErr.None? && listErr.Some? ==> r == Err(listErr.value) && unchanged(this)
      ensures connErr.None? && listErr.None? && old(Listed(ServiceName(name))).activeState == "inactive" ==>
        r == Ok(ServiceResponse(false, AlreadyStopped)) && unchanged(this)
      ensures connErr.None? && listErr.None? && old(Listed(ServiceName(name))).activeState != "inactive" && jobErr.Some? ==>
        r == Err(jobErr.value) && unchanged(this)
      ensures connErr.None? && listErr.None? && old(Listed(ServiceName(name))).activeState != "inactive" && jobErr.None? ==>
        r == Ok(ServiceResponse(true, title(result)))
        && jobs == old(jobs) + [Job(StopJob, ServiceName(name))]
        && units == old(units)[ServiceName(name) := settled]
    {
      if connErr.Some? {
        return Err(connErr.value);
      }
      var serviceName := ServiceName(name);
      if listErr.Some? {
        return Err(listErr.value);
      }
      var unit := Listed(serviceName);
      if unit.activeState == "inactive" {
        return Ok(ServiceResponse(false, AlreadyStopped));
      }
      if jobErr.Some? {
        return Err(jobErr.value);
      }
      var resp := IssueJob(StopJob, serviceName, result, settled, title);
      return Ok(resp);
    }

    /** ServiceStart: no job when the unit is already active. */
    method ServiceStart(name: string, connErr: Option<string>, listErr: Option<string>, jobErr: Option<string>,
                        result: string, settled: Unit, title: string -> string)
      returns (r: Result<ServiceResponse>)
      modifies this
      ensures connErr.Some? ==> r == Err(connErr.value) && unchanged(this)
      ensures connErr.None? && listErr.Some? ==> r == Err(listErr.value) && unchanged(this)
      ensures connErr.None? && listErr.None? && old(Listed(ServiceName(name))).activeState == "active" ==>
        r == Ok(ServiceResponse(false, AlreadyRunning)) && unchanged(this)
      ensures connErr.None? && listErr.None? && old(Listed(ServiceName(name))).activeState != "active" && jobErr.Some? ==>
        r == Err(jobErr.value) && unchanged(this)
      ensures connErr.None? && listErr.None? && old(Listed(ServiceName(name))).activeState != "active" && jobErr.None? ==>
        r == Ok(ServiceResponse(true, title(result)))
        && jobs == old(jobs) + [Job(StartJob, ServiceName(name))]
        && units == old(units)[ServiceName(name) := settled]
    {
      if connErr.Some? {
        return Err(connErr.value);
      }
      var serviceName := ServiceName(name);
      if listErr.Some? {
        return Err(listErr.value);
      }
      var unit := Listed(serviceName);
      if unit.activeState == "active" {
        return Ok(ServiceResponse(false, AlreadyRunning));
      }
      if jobErr.Some? {
        return Err(jobErr.value);
      }
      var resp := IssueJob(StartJob, serviceName, result, settled, title);
      return Ok(resp);
    }

    /** ServiceStatus: the listed unit's three states, unless systemd does not know it. */
    function ServiceStatus(name: string, connErr: Option<string>, listErr: Option<string>): (r: Result<ServiceStatusResponse>)
      reads this
      ensures connErr.Some? ==> r == Err(connErr.value)
      ensures connErr.None? && listErr.Some? ==> r == Err(listErr.value)
      ensures connErr.None? && listErr.None? ==>
        (r == Err(NotFound) <==> Listed(ServiceName(name)).loadState == "not-found")
      ensures r.Ok? ==>
        var u := Listed(ServiceName(name));
        r.value == ServiceStatusResponse(u.activeState, u.loadState, u.subState)
    {
      if connErr.Some? then Err(connErr.value)
      else if listErr.Some? then Err(listErr.value)
      else
        var u := Listed(ServiceName(name));
        if u.loadState == "not-found" then Err(NotFound)
        else Ok(ServiceStatusResponse(u.activeState, u.loadState, u.subState))
    }
  }

  /** Units systemd has no file for are reported stopped and not found: Stop is a no-op and Status an error. */
  lemma MissingUnitIsStopped(s: Systemd, name: string)
    requires ServiceName(name) !in s.units
    ensures s.Listed(ServiceName(name)).activeState == "inactive"
    ensures s.ServiceStatus(name, None, None) == Err(NotFound)
  {
  }
}

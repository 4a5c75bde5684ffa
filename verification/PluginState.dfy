/**
 * The plugin's persisted state and one run of `main`: load, collect the new
 * events, stamp the check time, record and log the events, trim and save.
 * The collectors update `seen_events` and `known_connections` in place; each
 * method is proved against the function of `PluginPoll` it implements.
 */
module PluginState {
  import opened Text
  import opened Events
  import opened PluginConfig
  import opened PluginClassify
  import opened PluginLsof
  import opened PluginDedup
  import opened PluginDiff
  import opened PluginPoll
  import opened PluginLog

  /** An entry of `state["events"]`: the event with the clock readings taken when it was recorded. */
  datatype StoredEvent = StoredEvent(kind: Severity, title: string, body: string, time: string, date: string)

  /** The clock readings taken for one event: `%H:%M`, ISO date, and the log file's `%m/%d %H:%M`. */
  datatype Stamp = Stamp(time: string, date: string, logTime: string)

  /** The entries appended to `state["events"]` for some new events, the clock read at each position. */
  function Stored(found: seq<PluginEvent>, clock: nat -> Stamp): (r: seq<StoredEvent>)
    ensures |r| == |found|
    decreases |found|
  {
    if |found| == 0 then []
    else
      var n := |found| - 1;
      var e := found[n];
      Stored(found[..n], clock) + [StoredEvent(e.kind, e.title, e.body, clock(n).time, clock(n).date)]
  }

  /** Recording one more event appends its entry. */
  lemma StoredStep(found: seq<PluginEvent>, clock: nat -> Stamp, i: nat)
    requires i < |found|
    ensures Stored(found[..i + 1], clock)
         == Stored(found[..i], clock) + [StoredEvent(found[i].kind, found[i].title, found[i].body, clock(i).time, clock(i).date)]
  {
    assert found[..i + 1][..i] == found[..i];
  }

  /** The log-file clock readings of each position. */
  function LogTimes(clock: nat -> Stamp): (stamps: nat -> string)
  {
    (i: nat) => clock(i).logTime
  }

  /** `[c for c in ids if c in keep]`, built in a loop. */
  method KeepCurrent(ids: seq<string>, keep: set<string>) returns (kept: seq<string>)
    ensures kept == KeepIn(ids, keep)
  {
    kept := [];
    for j := 0 to |ids|
      invariant kept == KeepIn(ids[..j], keep)
    {
      assert ids[..j + 1][..j] == ids[..j];
      if ids[j] in keep {
        kept := kept + [ids[j]];
      }
    }
    assert ids[..|ids|] == ids;
  }

  /** Two maps that agree away from `key` differ at most in what `key` maps to. */
  lemma UpdatedAt(m: Known, base: Known, key: string)
    requires m - {key} == base - {key}
    ensures key in m ==> m == base[key := m[key]]
    ensures key !in m && key !in base ==> m == base
  {
    forall k | k != key
      ensures k in m <==> k in base
      ensures k in m ==> m[k] == base[k]
    {
      assert k in m <==> k in m - {key};
      assert k in base <==> k in base - {key};
      if k in m {
        assert m[k] == (m - {key})[k];
        assert base[k] == (base - {key})[k];
      }
    }
    if key in m {
      assert m.Keys == base[key := m[key]].Keys;
    } else if key !in base {
      assert m.Keys == base.Keys;
    }
  }

  /** The state file's contents. */
  class State {
    var lastCheck: Option<string>
    var seenEvents: seq<string>
    var knownConnections: Known
    var events: seq<StoredEvent>

    /** `load_state` when there is no state file yet. */
    constructor ()
      ensures lastCheck == None && seenEvents == [] && knownConnections == map[] && events == []
    {
      lastCheck := None;
      seenEvents := [];
      knownConnections := map[];
      events := [];
    }

    /**
     * The loop of one log collector (`parse_ssh_events`, `parse_sudo_events`,
     * `parse_portscan_events` or `parse_ftp_events`) over the entries its
     * query returned, with that collector's classification rule.
     */
    method CollectLog(classify: Classifier, entries: seq<Entry>) returns (found: seq<PluginEvent>)
      modifies this
      ensures Pass(found, seenEvents) == LogPass(classify, old(seenEvents), entries)
      ensures knownConnections == old(knownConnections) && events == old(events) && lastCheck == old(lastCheck)
    {
      found := [];
      for i := 0 to |entries|
        invariant Pass(found, seenEvents) == LogPass(classify, old(seenEvents), entries[..i])
        invariant knownConnections == old(knownConnections) && events == old(events) && lastCheck == old(lastCheck)
      {
        assert entries[..i + 1][..i] == entries[..i];
        var e := entries[i];
        assert LogPass(classify, old(seenEvents), entries[..i + 1])
            == StepEntry(classify, Pass(found, seenEvents), e);
        var id := EntryId(e);
        if id !in seenEvents {
          var verdict := classify(Message(e));
          if verdict.Ok? && verdict.value.Some? {
            found := found + [verdict.value.value];
            seenEvents := seenEvents + [id];
          }
        }
      }
      assert entries[..|entries|] == entries;
    }

    /**
     * The body of `parse_port_events` for one port, and of `parse_vnc_events`:
     * the loop over the current connections, then the list under the key
     * filtered down to them.
     */
    method DiffConnections(w: Watch, conns: seq<LsofConn>) returns (found: seq<PluginEvent>)
      modifies this
      ensures Scan(knownConnections, found) == PortDiff(old(knownConnections), w, conns)
      ensures seenEvents == old(seenEvents) && events == old(events) && lastCheck == old(lastCheck)
    {
      var key := WatchKey(w);
      var current;
      found, current := ScanConnections(w, conns);
      ghost var s := ScanIds(Prior(old(knownConnections), key), w, conns);
      if key in knownConnections {
        var kept := KeepCurrent(knownConnections[key], current);
        knownConnections := knownConnections[key := kept];
        assert knownConnections - {key} == old(knownConnections) - {key};
        UpdatedAt(knownConnections, old(knownConnections), key);
        assert PortDiff(old(knownConnections), w, conns) == Scan(old(knownConnections)[key := KeepIn(s.ids, IdSet(conns))], s.found);
      } else {
        UpdatedAt(knownConnections, old(knownConnections), key);
        assert PortDiff(old(knownConnections), w, conns) == Scan(old(knownConnections), []);
      }
    }

    /**
     * The loop over the current connections: each id not listed under the
     * watch's key is appended there, the list created on the first
     * connection, and gives one event. Returns the events and `current_conns`.
     */
    method ScanConnections(w: Watch, conns: seq<LsofConn>) returns (found: seq<PluginEvent>, current: set<string>)
      modifies this
      ensures current == IdSet(conns)
      ensures found == ScanIds(Prior(old(knownConnections), WatchKey(w)), w, conns).found
      ensures knownConnections - {WatchKey(w)} == old(knownConnections) - {WatchKey(w)}
      ensures WatchKey(w) in knownConnections <==> WatchKey(w) in old(knownConnections) || |conns| > 0
      ensures Prior(knownConnections, WatchKey(w)) == ScanIds(Prior(old(knownConnections), WatchKey(w)), w, conns).ids
      ensures seenEvents == old(seenEvents) && events == old(events) && lastCheck == old(lastCheck)
    {
      var key := WatchKey(w);
      var prior := Prior(knownConnections, key);
      current := {};
      found := [];
      for i := 0 to |conns|
        invariant current == IdSet(conns[..i])
        invariant found == ScanIds(prior, w, conns[..i]).found
        invariant knownConnections - {key} == old(knownConnections) - {key}
        invariant key in knownConnections <==> key in old(knownConnections) || i > 0
        invariant Prior(knownConnections, key) == ScanIds(prior, w, conns[..i]).ids
        invariant seenEvents == old(seenEvents) && events == old(events) && lastCheck == old(lastCheck)
      {
        assert conns[..i + 1][..i] == conns[..i];
        var c := conns[i];
        var id := ConnId(c);
        ghost var s := ScanIds(prior, w, conns[..i]);
        assert ScanIds(prior, w, conns[..i + 1])
            == if id in s.ids then s else Step(s.ids + [id], s.found + [Render(w, c)]);
        assert IdSet(conns[..i + 1]) == IdSet(conns[..i]) + {id};
        current := current + {id};
        var added := Remember(key, id);
        if added {
          found := found + [Render(w, c)];
        }
      }
      assert conns[..|conns|] == conns;
    }

    /**
     * One connection's id against the list under `key`: the list is created
     * empty when missing, and the id is appended unless already listed.
     */
    method Remember(key: string, id: string) returns (added: bool)
      modifies this
      ensures knownConnections - {key} == old(knownConnections) - {key}
      ensures key in knownConnections
      ensures added <==> id !in Prior(old(knownConnections), key)
      ensures knownConnections[key] == Prior(old(knownConnections), key) + (if added then [id] else [])
      ensures seenEvents == old(seenEvents) && events == old(events) && lastCheck == old(lastCheck)
    {
      if key !in knownConnections {
        knownConnections := knownConnections[key := []];
      }
      added := id !in knownConnections[key];
      if added {
        knownConnections := knownConnections[key := knownConnections[key] + [id]];
      }
    }

    /** `parse_port_events`: one poll per configured port, in order, when port monitoring is on. */
    method ParsePortEvents(cfg: Config, lsof: nat -> seq<string>) returns (found: seq<PluginEvent>)
      modifies this
      ensures cfg.monitorPorts ==> Scan(knownConnections, found) == PortsPass(old(knownConnections), cfg.portsToMonitor, lsof)
      ensures !cfg.monitorPorts ==> found == [] && knownConnections == old(knownConnections)
      ensures seenEvents == old(seenEvents) && events == old(events) && lastCheck == old(lastCheck)
    {
      found := [];
      if !cfg.monitorPorts {
        return;
      }
      var ports := cfg.portsToMonitor;
      for i := 0 to |ports|
        invariant Scan(knownConnections, found) == PortsPass(old(knownConnections), ports[..i], lsof)
        invariant seenEvents == old(seenEvents) && events == old(events) && lastCheck == old(lastCheck)
      {
        assert ports[..i + 1][..i] == ports[..i];
        var conns := GetPortConnections(lsof(ports[i]), ports[i]);
        var more := DiffConnections(PortWatch(ports[i]), conns);
        found := found + more;
      }
      assert ports[..|ports|] == ports;
    }

    /** `parse_vnc_events`: one poll of the `vnc_5900` watch when VNC monitoring is on. */
    method ParseVncEvents(cfg: Config, lsof: nat -> seq<string>) returns (found: seq<PluginEvent>)
      modifies this
      ensures cfg.monitorVnc ==> Scan(knownConnections, found) == PortDiff(old(knownConnections), VncWatch, VncConns(lsof))
      ensures !cfg.monitorVnc ==> found == [] && knownConnections == old(knownConnections)
      ensures seenEvents == old(seenEvents) && events == old(events) && lastCheck == old(lastCheck)
    {
      found := [];
      if cfg.monitorVnc {
        var conns := GetPortConnections(lsof(5900), 5900);
        found := DiffConnections(VncWatch, conns);
      }
    }

    /** The log-based half of `collect_all_events`: SSH, sudo and port scans when switched on, FTP always. */
    method CollectLogs(cfg: Config, src: Sources) returns (found: seq<PluginEvent>)
      modifies this
      ensures Outcome(found, seenEvents, knownConnections) == LogStages(cfg, src, Outcome([], old(seenEvents), old(knownConnections)))
      ensures events == old(events) && lastCheck == old(lastCheck)
    {
      found := [];
      ghost var o := Outcome([], seenEvents, knownConnections);
      if cfg.monitorSsh {
        var more := CollectLog(Collector(SshLog), src.ssh);
        found := found + more;
      }
      assert Outcome(found, seenEvents, knownConnections) == LogStage(cfg.monitorSsh, SshLog, src.ssh, o);
      o := Outcome(found, seenEvents, knownConnections);
      if cfg.monitorSudo {
        var more := CollectLog(Collector(SudoLog), src.sudo);
        found := found + more;
      }
      assert Outcome(found, seenEvents, knownConnections) == LogStage(cfg.monitorSudo, SudoLog, src.sudo, o);
      o := Outcome(found, seenEvents, knownConnections);
      if cfg.monitorPortscan {
        var more := CollectLog(Collector(PortscanLog), src.portscan);
        found := found + more;
      }
      assert Outcome(found, seenEvents, knownConnections) == LogStage(cfg.monitorPortscan, PortscanLog, src.portscan, o);
      o := Outcome(found, seenEvents, knownConnections);
      var ftp := CollectLog(Collector(FtpLog), src.ftp);
      found := found + ftp;
    }

    /** `collect_all_events`: the log collectors, then the ports, then VNC, their events concatenated. */
    method CollectAllEvents(cfg: Config, src: Sources) returns (found: seq<PluginEvent>)
      modifies this
      ensures Outcome(found, seenEvents, knownConnections) == Poll(cfg, src, old(seenEvents), old(knownConnections))
      ensures events == old(events) && lastCheck == old(lastCheck)
    {
      found := CollectLogs(cfg, src);
      ghost var o := Outcome(found, seenEvents, knownConnections);
      var ports := ParsePortEvents(cfg, src.lsof);
      assert Outcome(found + ports, seenEvents, knownConnections) == PortStage(cfg, src.lsof, o);
      found := found + ports;
      o := Outcome(found, seenEvents, knownConnections);
      var vnc := ParseVncEvents(cfg, src.lsof);
      assert Outcome(found + vnc, seenEvents, knownConnections) == VncStage(cfg, src.lsof, o);
      found := found + vnc;
    }

    /**
     * The first loop of `format_xbar_output`: each new event is appended to
     * `state["events"]` and its line to the log file.
     */
    method RecordEvents(found: seq<PluginEvent>, clock: nat -> Stamp, log: LogFile)
      modifies this, log
      ensures events == old(events) + Stored(found, clock)
      ensures log.lines == AppendAll(old(log.lines), NewLines(found, LogTimes(clock)))
      ensures seenEvents == old(seenEvents) && knownConnections == old(knownConnections) && lastCheck == old(lastCheck)
    {
      for i := 0 to |found|
        invariant events == old(events) + Stored(found[..i], clock)
        invariant log.lines == AppendAll(old(log.lines), NewLines(found[..i], LogTimes(clock)))
        invariant seenEvents == old(seenEvents) && knownConnections == old(knownConnections) && lastCheck == old(lastCheck)
      {
        StoredStep(found, clock, i);
        AppendNextLine(old(log.lines), found, LogTimes(clock), i);
        ghost var entry := StoredEvent(found[i].kind, found[i].title, found[i].body, clock(i).time, clock(i).date);
        AppendAssoc(old(events), Stored(found[..i], clock), [entry]);
        RecordEvent(found[i], clock(i), log);
      }
      assert found[..|found|] == found;
    }

    /** One turn of that loop: store the event with its clock readings, then `log_event`. */
    method RecordEvent(e: PluginEvent, stamp: Stamp, log: LogFile)
      modifies this, log
      ensures events == old(events) + [StoredEvent(e.kind, e.title, e.body, stamp.time, stamp.date)]
      ensures log.lines == Tail(old(log.lines) + [LogLine(e.kind, stamp.logTime, e.title, e.body)], MaxLogLines)
      ensures seenEvents == old(seenEvents) && knownConnections == old(knownConnections) && lastCheck == old(lastCheck)
    {
      events := events + [StoredEvent(e.kind, e.title, e.body, stamp.time, stamp.date)];
      log.Append(LogLine(e.kind, stamp.logTime, e.title, e.body));
    }

    /** `save_state`'s trimming: the newest `MAX_EVENTS` events and the newest 500 seen ids. */
    method Save()
      modifies this
      ensures events == Tail(old(events), MaxEvents) && seenEvents == Tail(old(seenEvents), MaxSeenIds)
      ensures knownConnections == old(knownConnections) && lastCheck == old(lastCheck)
    {
      if |events| > MaxEvents {
        events := events[|events| - MaxEvents..];
      }
      if |seenEvents| > MaxSeenIds {
        seenEvents := seenEvents[|seenEvents| - MaxSeenIds..];
      }
    }

    /** `main`: collect, stamp the check time, record and log the events, then trim for saving. */
    method Run(cfg: Config, src: Sources, now: string, clock: nat -> Stamp, log: LogFile)
      modifies this, log
      ensures seenEvents == Tail(Poll(cfg, src, old(seenEvents), old(knownConnections)).seen, MaxSeenIds)
      ensures knownConnections == Poll(cfg, src, old(seenEvents), old(knownConnections)).known
      ensures events == Tail(old(events) + Stored(Poll(cfg, src, old(seenEvents), old(knownConnections)).found, clock), MaxEvents)
      ensures lastCheck == Some(now)
      ensures log.lines == AppendAll(old(log.lines), NewLines(Poll(cfg, src, old(seenEvents), old(knownConnections)).found, LogTimes(clock)))
    {
      var found := CollectAllEvents(cfg, src);
      lastCheck := Some(now);
      RecordEvents(found, clock, log);
      Save();
    }
  }
}

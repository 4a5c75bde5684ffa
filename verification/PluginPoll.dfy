/**
 * One run of `collect_all_events` as a function of its inputs: the four log
 * collectors (each switched by its monitor flag, FTP always on), then the
 * configured ports, then VNC. The log entries and the `lsof` output are the
 * inputs the shell-outs would have produced.
 */
module PluginPoll {
  import opened Text
  import opened PluginConfig
  import opened PluginClassify
  import opened PluginLsof
  import opened PluginDedup
  import opened PluginDiff

  /** The verdict of one collector's classification rule. */
  function Collector(kind: LogKind): (classify: Classifier)
  {
    m => Classify(kind, m)
  }

  /** The entries each log query returns, and the lines `lsof` prints for each port, before the command's `grep -v` filters. */
  datatype Sources = Sources(ssh: seq<Entry>, sudo: seq<Entry>, portscan: seq<Entry>, ftp: seq<Entry>,
                             lsof: nat -> seq<string>)

  /** The events found so far and the two persisted bookkeeping structures. */
  datatype Outcome = Outcome(found: seq<PluginEvent>, seen: seq<string>, known: Known)

  /** One log collector: nothing when its monitor is off, else its loop over its entries. */
  function LogStage(on: bool, kind: LogKind, entries: seq<Entry>, o: Outcome): (r: Outcome)
    ensures r.known == o.known && o.seen <= r.seen && o.found <= r.found
    ensures !on ==> r == o
  {
    if !on then o
    else
      var p := LogPass(Collector(kind), o.seen, entries);
      Outcome(o.found + p.found, p.seen, o.known)
  }

  /** `parse_port_events`: nothing when port monitoring is off, else the loop over the configured ports. */
  function PortStage(cfg: Config, lsof: nat -> seq<string>, o: Outcome): (r: Outcome)
    ensures r.seen == o.seen && o.found <= r.found
    ensures !cfg.monitorPorts ==> r == o
  {
    if !cfg.monitorPorts then o
    else
      var s := PortsPass(o.known, cfg.portsToMonitor, lsof);
      Outcome(o.found + s.found, o.seen, s.known)
  }

  /** The VNC connections: those read from the filtered `lsof` lines for port 5900. */
  function VncConns(lsof: nat -> seq<string>): (conns: seq<LsofConn>)
    ensures forall k :: 0 <= k < |conns| ==> conns[k].port == 5900
  {
    Conns(lsof, 5900)
  }

  /** `parse_vnc_events`: nothing when VNC monitoring is off, else one poll of the `vnc_5900` watch. */
  function VncStage(cfg: Config, lsof: nat -> seq<string>, o: Outcome): (r: Outcome)
    ensures r.seen == o.seen && o.found <= r.found
    ensures !cfg.monitorVnc ==> r == o
  {
    if !cfg.monitorVnc then o
    else
      var d := PortDiff(o.known, VncWatch, VncConns(lsof));
      Outcome(o.found + d.found, o.seen, d.known)
  }

  /** The log collectors in the order `collect_all_events` calls them. */
  function LogStages(cfg: Config, src: Sources, o: Outcome): (r: Outcome)
    ensures r.known == o.known && o.seen <= r.seen && o.found <= r.found
  {
    var o1 := LogStage(cfg.monitorSsh, SshLog, src.ssh, o);
    var o2 := LogStage(cfg.monitorSudo, SudoLog, src.sudo, o1);
    var o3 := LogStage(cfg.monitorPortscan, PortscanLog, src.portscan, o2);
    LogStage(true, FtpLog, src.ftp, o3)
  }

  /** `collect_all_events`, starting from the saved `seen_events` and `known_connections`. */
  function Poll(cfg: Config, src: Sources, seen: seq<string>, known: Known): (r: Outcome)
    ensures seen <= r.seen
  {
    VncStage(cfg, src.lsof, PortStage(cfg, src.lsof, LogStages(cfg, src, Outcome([], seen, known))))
  }

  /**
   * Everything the inputs hold has been accounted for: each enabled
   * collector's entries are seen or give nothing, and each enabled watch
   * lists exactly its current connections.
   */
  ghost predicate Quiet(cfg: Config, src: Sources, seen: seq<string>, known: Known)
  {
    && (cfg.monitorSsh ==> Covered(Collector(SshLog), seen, src.ssh))
    && (cfg.monitorSudo ==> Covered(Collector(SudoLog), seen, src.sudo))
    && (cfg.monitorPortscan ==> Covered(Collector(PortscanLog), seen, src.portscan))
    && Covered(Collector(FtpLog), seen, src.ftp)
    && (cfg.monitorPorts ==> forall p :: p in cfg.portsToMonitor ==> Settled(known, PortWatch(p), Conns(src.lsof, p)))
    && (cfg.monitorVnc ==> Settled(known, VncWatch, VncConns(src.lsof)))
  }

  /** A collector whose entries are covered finds nothing. */
  lemma CoveredStageIsSilent(on: bool, kind: LogKind, entries: seq<Entry>, o: Outcome)
    requires on ==> Covered(Collector(kind), o.seen, entries)
    ensures LogStage(on, kind, entries, o) == o
  {
    if on {
      CoveredPassIsSilent(Collector(kind), o.seen, entries);
    }
  }

  /** A poll over inputs that are already accounted for emits nothing and changes nothing. */
  lemma QuietPollIsSilent(cfg: Config, src: Sources, seen: seq<string>, known: Known)
    requires Quiet(cfg, src, seen, known)
    ensures Poll(cfg, src, seen, known) == Outcome([], seen, known)
  {
    var o := Outcome([], seen, known);
    CoveredStageIsSilent(cfg.monitorSsh, SshLog, src.ssh, o);
    CoveredStageIsSilent(cfg.monitorSudo, SudoLog, src.sudo, o);
    CoveredStageIsSilent(cfg.monitorPortscan, PortscanLog, src.portscan, o);
    CoveredStageIsSilent(true, FtpLog, src.ftp, o);
    assert LogStages(cfg, src, o) == o;
    if cfg.monitorPorts {
      SettledPortsAreSilent(known, cfg.portsToMonitor, src.lsof);
    }
    assert PortStage(cfg, src.lsof, o) == o;
    if cfg.monitorVnc {
      SettledIsFixpoint(known, VncWatch, VncConns(src.lsof));
    }
  }

  /** After an enabled collector has run, its entries are covered by any later, longer `seen_events`. */
  lemma StageCovers(on: bool, kind: LogKind, entries: seq<Entry>, o: Outcome, later: seq<string>)
    requires LogStage(on, kind, entries, o).seen <= later
    ensures on ==> Covered(Collector(kind), later, entries)
  {
    if on {
      LogPassCovers(Collector(kind), o.seen, entries);
      CoveredGrows(Collector(kind), LogStage(on, kind, entries, o).seen, later, entries);
    }
  }

  /** After the log collectors, each enabled collector's entries are covered by any later, longer `seen_events`. */
  lemma LogStagesCover(cfg: Config, src: Sources, o: Outcome, later: seq<string>)
    requires LogStages(cfg, src, o).seen <= later
    ensures cfg.monitorSsh ==> Covered(Collector(SshLog), later, src.ssh)
    ensures cfg.monitorSudo ==> Covered(Collector(SudoLog), later, src.sudo)
    ensures cfg.monitorPortscan ==> Covered(Collector(PortscanLog), later, src.portscan)
    ensures Covered(Collector(FtpLog), later, src.ftp)
  {
    var o1 := LogStage(cfg.monitorSsh, SshLog, src.ssh, o);
    var o2 := LogStage(cfg.monitorSudo, SudoLog, src.sudo, o1);
    var o3 := LogStage(cfg.monitorPortscan, PortscanLog, src.portscan, o2);
    var o4 := LogStage(true, FtpLog, src.ftp, o3);
    assert o4.seen <= later;
    assert o3.seen <= later;
    assert o2.seen <= later;
    assert o1.seen <= later;
    StageCovers(cfg.monitorSsh, SshLog, src.ssh, o, later);
    StageCovers(cfg.monitorSudo, SudoLog, src.sudo, o1, later);
    StageCovers(cfg.monitorPortscan, PortscanLog, src.portscan, o2, later);
    StageCovers(true, FtpLog, src.ftp, o3, later);
  }

  /** After a poll, everything its inputs hold has been accounted for. */
  lemma PollQuiets(cfg: Config, src: Sources, seen: seq<string>, known: Known)
    ensures Quiet(cfg, src, Poll(cfg, src, seen, known).seen, Poll(cfg, src, seen, known).known)
  {
    var o4 := LogStages(cfg, src, Outcome([], seen, known));
    var o5 := PortStage(cfg, src.lsof, o4);
    var r := VncStage(cfg, src.lsof, o5);
    LogStagesCover(cfg, src, Outcome([], seen, known), r.seen);
    if cfg.monitorPorts {
      PortsPassSettles(o4.known, cfg.portsToMonitor, src.lsof);
      if cfg.monitorVnc {
        forall p | p in cfg.portsToMonitor
          ensures Settled(r.known, PortWatch(p), Conns(src.lsof, p))
        {
          DiffKeepsOthersSettled(o5.known, VncWatch, VncConns(src.lsof), PortWatch(p), Conns(src.lsof, p));
        }
      }
    }
    if cfg.monitorVnc {
      DiffSettles(o5.known, VncWatch, VncConns(src.lsof));
    }
  }

  /**
   * A second poll over the same log entries and the same `lsof` output emits
   * nothing and leaves `seen_events` and `known_connections` as the first
   * poll left them.
   */
  lemma SecondPollIsSilent(cfg: Config, src: Sources, seen: seq<string>, known: Known)
    ensures Poll(cfg, src, Poll(cfg, src, seen, known).seen, Poll(cfg, src, seen, known).known)
         == Outcome([], Poll(cfg, src, seen, known).seen, Poll(cfg, src, seen, known).known)
  {
    PollQuiets(cfg, src, seen, known);
    QuietPollIsSilent(cfg, src, Poll(cfg, src, seen, known).seen, Poll(cfg, src, seen, known).known);
  }

  /**
   * `main` saves only the last 500 seen ids. A second poll over the same
   * inputs from the saved state changes no connection list, and every id it
   * records was seen by the first poll and trimmed by the save: the events
   * it emits, one per recorded id, repeat exactly the trimmed entries.
   */
  lemma SavedStateRepeatsOnlyTrimmed(cfg: Config, src: Sources, seen: seq<string>, known: Known)
    ensures var p := Poll(cfg, src, seen, known);
      var saved := Tail(p.seen, MaxSeenIds);
      var q := Poll(cfg, src, saved, p.known);
      && q.known == p.known
      && |q.found| == |q.seen| - |saved|
      && forall k :: |saved| <= k < |q.seen| ==> q.seen[k] in p.seen && q.seen[k] !in saved
  {
    var p := Poll(cfg, src, seen, known);
    PollQuiets(cfg, src, seen, known);
    var saved := Tail(p.seen, MaxSeenIds);
    var o0 := Outcome([], saved, p.known);
    var o1 := LogStage(cfg.monitorSsh, SshLog, src.ssh, o0);
    var o2 := LogStage(cfg.monitorSudo, SudoLog, src.sudo, o1);
    var o3 := LogStage(cfg.monitorPortscan, PortscanLog, src.portscan, o2);
    var o4 := LogStage(true, FtpLog, src.ftp, o3);
    StageRepeatsOnly(cfg.monitorSsh, SshLog, src.ssh, o0, saved, p.seen);
    StageRepeatsOnly(cfg.monitorSudo, SudoLog, src.sudo, o1, saved, p.seen);
    StageRepeatsOnly(cfg.monitorPortscan, PortscanLog, src.portscan, o2, saved, p.seen);
    StageRepeatsOnly(true, FtpLog, src.ftp, o3, saved, p.seen);
    assert LogStages(cfg, src, o0) == o4;
    if cfg.monitorPorts {
      SettledPortsAreSilent(p.known, cfg.portsToMonitor, src.lsof);
    }
    assert PortStage(cfg, src.lsof, o4) == o4;
    if cfg.monitorVnc {
      SettledIsFixpoint(p.known, VncWatch, VncConns(src.lsof));
    }
    assert Poll(cfg, src, saved, p.known) == o4;
  }

  /** From position `|base|` on, `seen` holds only ids of `full` that are not in `base`. */
  ghost predicate RecordsOnly(seen: seq<string>, base: seq<string>, full: seq<string>)
  {
    base <= seen && forall k :: |base| <= k < |seen| ==> seen[k] in full && seen[k] !in base
  }

  /**
   * A collector whose entries `full` covers records only ids of `full` it
   * has not seen, one per event, so it keeps `RecordsOnly` and the count.
   */
  lemma StageRepeatsOnly(on: bool, kind: LogKind, entries: seq<Entry>, o: Outcome, base: seq<string>, full: seq<string>)
    requires on ==> Covered(Collector(kind), full, entries)
    requires RecordsOnly(o.seen, base, full) && |o.found| == |o.seen| - |base|
    ensures RecordsOnly(LogStage(on, kind, entries, o).seen, base, full)
    ensures |LogStage(on, kind, entries, o).found| == |LogStage(on, kind, entries, o).seen| - |base|
  {
    if on {
      var r := LogStage(on, kind, entries, o);
      LogPassFresh(Collector(kind), o.seen, entries);
      RecordsCovered(Collector(kind), o.seen, full, entries);
      assert r.seen == LogPass(Collector(kind), o.seen, entries).seen;
      forall k | |base| <= k < |r.seen|
        ensures r.seen[k] in full && r.seen[k] !in base
      {
        if k < |o.seen| {
          assert r.seen[k] == o.seen[k];
        }
      }
    }
  }

  /** The ids a poll adds to `seen_events` are new, and a list without repeats keeps none. */
  lemma PollRecordsFreshIds(cfg: Config, src: Sources, seen: seq<string>, known: Known)
    requires Distinct(seen)
    ensures Distinct(Poll(cfg, src, seen, known).seen)
  {
    var o0 := Outcome([], seen, known);
    var o1 := LogStage(cfg.monitorSsh, SshLog, src.ssh, o0);
    var o2 := LogStage(cfg.monitorSudo, SudoLog, src.sudo, o1);
    var o3 := LogStage(cfg.monitorPortscan, PortscanLog, src.portscan, o2);
    StageDistinct(cfg.monitorSsh, SshLog, src.ssh, o0);
    StageDistinct(cfg.monitorSudo, SudoLog, src.sudo, o1);
    StageDistinct(cfg.monitorPortscan, PortscanLog, src.portscan, o2);
    StageDistinct(true, FtpLog, src.ftp, o3);
  }

  /** One collector keeps `seen_events` free of repeats. */
  lemma StageDistinct(on: bool, kind: LogKind, entries: seq<Entry>, o: Outcome)
    requires Distinct(o.seen)
    ensures Distinct(LogStage(on, kind, entries, o).seen)
  {
    if on {
      LogPassDistinct(Collector(kind), o.seen, entries);
    }
  }
}

/**
 * The plugin's reading of `lsof +c 0 -i:<port>` output
 * (`get_port_connections` in `security-growler.30s.py`), the identifier it
 * gives each connection and the events it renders for new ones.
 */
module PluginLsof {
  import opened Text
  import opened Events
  import opened PluginClassify
  import PluginConfig

  /** The dictionary built for one `lsof` line. */
  datatype LsofConn = LsofConn(process: string, pid: string, user: string, name: string,
                               port: nat, local: string, remote: string)

  /**
   * One output line: dropped unless it has at least nine whitespace-separated
   * columns; the last column is the connection name, split at the first `->`
   * into local and remote ends.
   */
  function ParseLsofLine(line: string, port: nat): (r: Option<LsofConn>)
    ensures r.Some? <==> |Words(line)| >= 9
    ensures r.Some? ==>
      var ws := Words(line);
      var c := r.value;
      && c.process == ws[0] && c.pid == ws[1] && c.user == ws[2] && c.port == port
      && c.name == ws[|ws| - 1]
      && (Contains(c.name, "->") ==>
            c.local + "->" + c.remote == c.name && !Contains(c.local, "->"))
      && (!Contains(c.name, "->") ==> c.local == c.name && c.remote == "")
  {
    var parts := Words(line);
    if |parts| < 9 then None
    else
      var name := parts[|parts| - 1];
      if Contains(name, "->") then
        BeforeFirstFree(name, "->");
        SplitFirstJoin(name, "->");
        Some(LsofConn(parts[0], parts[1], parts[2], name, port, BeforeFirst(name, "->"), AfterFirst(name, "->")))
      else
        Some(LsofConn(parts[0], parts[1], parts[2], name, port, name, ""))
  }

  /** The connections read from the output lines, in order. */
  function LsofConnections(lines: seq<string>, port: nat): (conns: seq<LsofConn>)
    ensures |conns| <= |lines|
    ensures forall k :: 0 <= k < |conns| ==> conns[k].port == port
    decreases |lines|
  {
    if |lines| == 0 then []
    else
      var conns := LsofConnections(lines[..|lines| - 1], port);
      match ParseLsofLine(lines[|lines| - 1], port)
      case None => conns
      case Some(c) => conns + [c]
  }

  /**
   * Every connection comes from an output line, in order, and a line with
   * nine or more columns is never lost.
   */
  lemma {:induction false} LsofConnectionsFromLines(lines: seq<string>, port: nat)
    ensures forall k :: 0 <= k < |LsofConnections(lines, port)| ==>
      exists i :: 0 <= i < |lines| && ParseLsofLine(lines[i], port) == Some(LsofConnections(lines, port)[k])
    ensures (forall i :: 0 <= i < |lines| ==> |Words(lines[i])| >= 9) ==> |LsofConnections(lines, port)| == |lines|
    ensures (forall i :: 0 <= i < |lines| ==> |Words(lines[i])| < 9) ==> LsofConnections(lines, port) == []
    decreases |lines|
  {
    if |lines| > 0 {
      var n := |lines|;
      var init := lines[..n - 1];
      LsofConnectionsFromLines(init, port);
      var prev := LsofConnections(init, port);
      var conns := LsofConnections(lines, port);
      var last := ParseLsofLine(lines[n - 1], port);
      assert last.None? ==> conns == prev;
      assert last.Some? ==> conns == prev + [last.value];
      forall k | 0 <= k < |conns|
        ensures exists i :: 0 <= i < |lines| && ParseLsofLine(lines[i], port) == Some(conns[k])
      {
        if k < |prev| {
          var i :| 0 <= i < |init| && ParseLsofLine(init[i], port) == Some(prev[k]);
          assert lines[i] == init[i];
          assert ParseLsofLine(lines[i], port) == Some(conns[k]);
        } else {
          assert ParseLsofLine(lines[n - 1], port) == Some(conns[k]);
        }
      }
      assert forall i :: 0 <= i < |init| ==> init[i] == lines[i];
      assert forall k :: 0 <= k < |LsofConnections(lines, port)| ==>
        exists i :: 0 <= i < |lines| && ParseLsofLine(lines[i], port) == Some(LsofConnections(lines, port)[k]);
    } else {
      assert LsofConnections(lines, port) == [];
    }
  }

  /**
   * The two filters the command pipes `lsof`'s output through,
   * `grep -v '^COMMAND'` and `grep -v '^launchd '`: a line survives unless it
   * starts with `COMMAND` (the column header) or with `launchd `.
   */
  predicate GrepKeeps(line: string)
  {
    !("COMMAND" <= line) && !("launchd " <= line)
  }

  /** The output lines left after both filters, in order. */
  function GrepLsof(lines: seq<string>): (kept: seq<string>)
    ensures |kept| <= |lines|
    ensures forall k :: 0 <= k < |kept| ==> GrepKeeps(kept[k])
  {
    if |lines| == 0 then []
    else (if GrepKeeps(lines[0]) then [lines[0]] else []) + GrepLsof(lines[1..])
  }

  /** Filtering a concatenation filters each part. */
  lemma {:induction false} GrepLsofConcat(a: seq<string>, b: seq<string>)
    ensures GrepLsof(a + b) == GrepLsof(a) + GrepLsof(b)
  {
    if |a| > 0 {
      assert (a + b)[0] == a[0];
      assert (a + b)[1..] == a[1..] + b;
      GrepLsofConcat(a[1..], b);
    } else {
      assert a + b == b;
    }
  }

  /** A line is kept exactly when it is one of the output lines and neither filter drops it. */
  lemma {:induction false} GrepLsofMembers(lines: seq<string>)
    ensures forall line :: line in GrepLsof(lines) <==> line in lines && GrepKeeps(line)
  {
    if |lines| > 0 {
      GrepLsofMembers(lines[1..]);
      assert lines == [lines[0]] + lines[1..];
    }
  }

  /** `lsof`'s column header; it has the nine columns of a connection line. */
  const LsofHeader: string := "COMMAND" + " PID USER FD TYPE DEVICE SIZE/OFF NODE NAME"

  /** The header line is dropped by the first filter. */
  lemma HeaderDropped()
    ensures !GrepKeeps(LsofHeader)
  {
    PrefixOfConcat("COMMAND", " PID USER FD TYPE DEVICE SIZE/OFF NODE NAME");
  }

  /** Any line that starts with `launchd ` is dropped by the second filter. */
  lemma LaunchdDropped(rest: string)
    ensures !GrepKeeps("launchd " + rest)
  {
    PrefixOfConcat("launchd ", rest);
  }

  lemma PrefixOfConcat(p: string, x: string)
    ensures p <= p + x
  {
    assert (p + x)[..|p|] == p;
  }

  /** The connections `get_port_connections` reads from the output of `lsof` for one port. */
  function PortConnections(lines: seq<string>, port: nat): (conns: seq<LsofConn>)
    ensures |conns| <= |lines|
    ensures forall k :: 0 <= k < |conns| ==> conns[k].port == port
  {
    LsofConnections(GrepLsof(lines), port)
  }

  /** Every connection read for a port comes from an output line that both filters keep. */
  lemma PortConnectionsOrigins(lines: seq<string>, port: nat)
    ensures forall k :: 0 <= k < |PortConnections(lines, port)| ==>
      exists i :: 0 <= i < |lines| && GrepKeeps(lines[i]) && ParseLsofLine(lines[i], port) == Some(PortConnections(lines, port)[k])
  {
    var kept := GrepLsof(lines);
    var conns := PortConnections(lines, port);
    LsofConnectionsFromLines(kept, port);
    GrepLsofMembers(lines);
    forall k | 0 <= k < |conns|
      ensures exists i :: 0 <= i < |lines| && GrepKeeps(lines[i]) && ParseLsofLine(lines[i], port) == Some(conns[k])
    {
      var j :| 0 <= j < |kept| && ParseLsofLine(kept[j], port) == Some(conns[k]);
      assert kept[j] in lines;
      var i :| 0 <= i < |lines| && lines[i] == kept[j];
      assert GrepKeeps(lines[i]);
    }
  }

  /** A line either filter drops, such as the header or a `launchd ` line, contributes nothing wherever it stands. */
  lemma DroppedLineIgnored(a: seq<string>, line: string, b: seq<string>, port: nat)
    requires !GrepKeeps(line)
    ensures PortConnections(a + [line] + b, port) == PortConnections(a + b, port)
  {
    GrepLsofConcat(a + [line], b);
    GrepLsofConcat(a, [line]);
    GrepLsofConcat(a, b);
    assert [line][0] == line && [line][1..] == [];
    assert GrepLsof([line]) == [];
    assert GrepLsof(a + [line]) == GrepLsof(a);
  }

  /**
   * `get_port_connections` after its command: for each line the filters
   * keep, `parts = line.split(); if len(parts) >= 9: ... connections.append(conn)`.
   */
  method GetPortConnections(lines: seq<string>, port: nat) returns (conns: seq<LsofConn>)
    ensures conns == PortConnections(lines, port)
  {
    var kept := GrepLsof(lines);
    conns := [];
    var i := 0;
    while i < |kept|
      invariant 0 <= i <= |kept|
      invariant conns == LsofConnections(kept[..i], port)
    {
      assert kept[..i + 1][..i] == kept[..i];
      var parsed := ParseLsofLine(kept[i], port);
      if parsed.Some? {
        conns := conns + [parsed.value];
      }
      i := i + 1;
    }
    assert kept[..i] == kept;
  }

  /** `f"{conn['process']}:{conn['pid']}:{conn.get('remote', '')}"`. */
  function ConnId(c: LsofConn): (id: string)
    ensures |id| == |c.process| + |c.pid| + |c.remote| + 2
    ensures id[|c.process|] == ':' && id[|c.process| + 1 + |c.pid|] == ':'
  {
    c.process + ":" + c.pid + ":" + c.remote
  }

  /** Two texts joined by a colon, the first part colon-free, split back uniquely. */
  lemma ColonSplit(x: string, y: string, u: string, v: string)
    requires ':' !in x && ':' !in u && x + ":" + y == u + ":" + v
    ensures x == u && y == v
  {
    var s := x + ":" + y;
    assert s[|x|] == ':' && (u + ":" + v)[|u|] == ':';
    assert forall i :: 0 <= i < |x| ==> s[i] == x[i];
    assert forall i :: 0 <= i < |u| ==> s[i] == u[i];
    assert |x| == |u|;
    assert x == s[..|x|] && u == s[..|u|];
    assert y == s[|x| + 1..] && v == s[|u| + 1..];
  }

  /** Connections whose process names and pids hold no colon have equal ids exactly when they agree on process, pid and remote end. */
  lemma ConnIdDistinguishes(a: LsofConn, b: LsofConn)
    requires ':' !in a.process && ':' !in b.process && ':' !in a.pid && ':' !in b.pid
    ensures ConnId(a) == ConnId(b) <==> a.process == b.process && a.pid == b.pid && a.remote == b.remote
  {
    if ConnId(a) == ConnId(b) {
      assert ConnId(a) == a.process + ":" + (a.pid + ":" + a.remote);
      assert ConnId(b) == b.process + ":" + (b.pid + ":" + b.remote);
      ColonSplit(a.process, a.pid + ":" + a.remote, b.process, b.pid + ":" + b.remote);
      ColonSplit(a.pid, a.remote, b.pid, b.remote);
    }
  }

  /** What a connection list is watched for: a configured port, or VNC on 5900. */
  datatype Watch = PortWatch(number: nat) | VncWatch

  /** `port_key`: `str(port)` for a configured port, `vnc_5900` for VNC. */
  function WatchKey(w: Watch): (key: string)
    ensures w.PortWatch? ==> IsDecimal(key)
    ensures w.VncWatch? ==> key == "vnc_5900"
  {
    match w
    case PortWatch(p) => NatToString(p)
    case VncWatch => "vnc_5900"
  }

  /** Different watches keep their connections under different keys. */
  lemma WatchKeysDiffer(v: Watch, w: Watch)
    requires v != w
    ensures WatchKey(v) != WatchKey(w)
  {
    if v.PortWatch? && w.PortWatch? {
      if WatchKey(v) == WatchKey(w) {
        NatToStringInjective(v.number, w.number);
      }
    } else if v.PortWatch? {
      assert !IsDigit(WatchKey(w)[0]);
    } else if w.PortWatch? {
      assert !IsDigit(WatchKey(v)[0]);
    }
  }

  /** The port `lsof` is asked about. */
  function WatchPort(w: Watch): (port: nat)
    ensures w.VncWatch? ==> port == 5900
  {
    match w
    case PortWatch(p) => p
    case VncWatch => 5900
  }

  /**
   * The event for a new connection: a notification `PORT <n> (<name>)` for a
   * configured port, an alert `VNC CONNECTION` for VNC; the body names user,
   * process and pid, followed by the remote end when there is one.
   */
  function Render(w: Watch, c: LsofConn): (e: PluginEvent)
    ensures e.kind == Alert <==> w.VncWatch?
    ensures w.PortWatch? ==> e.title == "PORT " + NatToString(w.number) + " (" + PluginConfig.PortName(w.number) + ")"
    ensures w.VncWatch? ==> e.title == "VNC CONNECTION"
    ensures var who := c.user + " " + c.process + " (PID " + c.pid + ")";
      && (c.remote == "" ==> e.body == who)
      && (c.remote != "" ==> e.body == who + (if w.VncWatch? then " from " else " <- ") + c.remote)
  {
    var body := c.user + " " + c.process + " (PID " + c.pid + ")";
    match w
    case PortWatch(p) =>
      PluginEvent(Notify, "PORT " + NatToString(p) + " (" + PluginConfig.PortName(p) + ")",
                  if c.remote != "" then body + " <- " + c.remote else body)
    case VncWatch =>
      PluginEvent(Alert, "VNC CONNECTION", if c.remote != "" then body + " from " + c.remote else body)
  }
}

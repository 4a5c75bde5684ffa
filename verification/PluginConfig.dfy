/**
 * The xbar plugin's configuration: its size limits, the `true`/`false`
 * switches read from the environment, the list of watched ports and their
 * display names.
 */
module PluginConfig {
  import opened Text
  import opened Events

  /** `MAX_EVENTS`: events kept in the saved state. */
  const MaxEvents: nat := 50
  /** `MAX_LOG_LINES`: lines kept in the log file. */
  const MaxLogLines: nat := 1000
  /** Event ids kept in the saved state's `seen_events`. */
  const MaxSeenIds: nat := 500

  /** `os.environ.get(name, "true").lower() == "true"`, given the variable's value if it is set. */
  function EnvFlag(value: Option<string>): (on: bool)
    ensures value == None ==> on
  {
    var text := match value case None => "true" case Some(v) => v;
    LowerAscii(text) == "true"
  }

  /** Sample values: `TRUE`, `True` and `true` turn a monitor on; `false`, an empty value and `1` turn it off. */
  lemma EnvFlagMeaning()
    ensures EnvFlag(Some("TRUE")) && EnvFlag(Some("True")) && EnvFlag(Some("true"))
    ensures !EnvFlag(Some("false")) && !EnvFlag(Some("")) && !EnvFlag(Some("1"))
  {
    LowerTrue("TRUE");
    LowerTrue("True");
    LowerTrue("true");
    assert LowerAscii("false")[0] == 'f';
    assert |LowerAscii("1")| == 1;
  }

  /** A set variable turns a monitor on exactly when it spells `true` in any mix of letter cases. */
  lemma EnvFlagExactly(v: string)
    ensures EnvFlag(Some(v)) <==> |v| == 4 && v[0] in "Tt" && v[1] in "Rr" && v[2] in "Uu" && v[3] in "Ee"
  {
    if |v| == 4 && v[0] in "Tt" && v[1] in "Rr" && v[2] in "Uu" && v[3] in "Ee" {
      LowerTrue(v);
    }
    if EnvFlag(Some(v)) {
      var l := LowerAscii(v);
      assert l == "true";
      assert LowerChar(v[0]) == 't' && LowerChar(v[1]) == 'r' && LowerChar(v[2]) == 'u' && LowerChar(v[3]) == 'e';
    }
  }

  /** Each letter of `true` in either case lowers to `true`. */
  lemma LowerTrue(v: string)
    requires |v| == 4 && v[0] in "Tt" && v[1] in "Rr" && v[2] in "Uu" && v[3] in "Ee"
    ensures LowerAscii(v) == "true"
  {
    var l := LowerAscii(v);
    assert l[0] == 't' && l[1] == 'r' && l[2] == 'u' && l[3] == 'e';
  }

  /** The settings the plugin reads from its environment. */
  datatype Config = Config(
    monitorSsh: bool, monitorSudo: bool, monitorPortscan: bool, monitorVnc: bool, monitorPorts: bool,
    portsToMonitor: seq<nat>)

  /** `MONITORED_PORTS` when the variable is not set. */
  const DefaultMonitoredPorts: string := "21,445,548,3306,3689,5432"

  /** `[int(p.strip()) for p in parts if p.strip().isdigit()]`. */
  function PortsOf(parts: seq<string>): (ports: seq<nat>)
    ensures |ports| <= |parts|
  {
    if |parts| == 0 then []
    else
      var p := Strip(parts[0]);
      (if IsDecimal(p) then [DecimalValue(p)] else []) + PortsOf(parts[1..])
  }

  /** `PORTS_TO_MONITOR`, computed from the value of `MONITORED_PORTS`. */
  function PortsToMonitor(monitored: string): (ports: seq<nat>)
    ensures |ports| <= |SplitAll(monitored, ",")|
  {
    PortsOf(SplitAll(monitored, ","))
  }

  /** Every comma-separated field that is a number once stripped becomes a port, in order; the rest are skipped. */
  lemma {:induction false} PortsOfFields(parts: seq<string>, k: nat)
    requires k < |parts|
    ensures IsDecimal(Strip(parts[k])) ==> PortsOf(parts[k..])[0] == DecimalValue(Strip(parts[k]))
    ensures !IsDecimal(Strip(parts[k])) ==> PortsOf(parts[k..]) == PortsOf(parts[k + 1..])
  {
    assert parts[k..][1..] == parts[k + 1..];
  }

  /**
   * A `MONITORED_PORTS` value written as the decimal port numbers joined by
   * commas watches exactly those ports, in that order.
   */
  lemma PortsToMonitorRendered(ports: seq<nat>, fields: seq<string>)
    requires |ports| > 0 && |fields| == |ports|
    requires forall k :: 0 <= k < |ports| ==> fields[k] == NatToString(ports[k])
    ensures PortsToMonitor(Join(fields, ",")) == ports
  {
    forall k | 0 <= k < |fields|
      ensures ',' !in fields[k]
    {
      assert IsDecimal(fields[k]);
    }
    SplitFields(fields);
    PortsOfRendered(ports, fields);
  }

  /** The default setting watches FTP, SMB, AFP, MySQL, iTunes sharing and PostgreSQL. */
  lemma DefaultPorts(monitored: string)
    requires monitored == DefaultMonitoredPorts
    ensures PortsToMonitor(monitored) == [21, 445, 548, 3306, 3689, 5432]
  {
    DefaultFields(monitored);
    DefaultFieldPorts();
  }

  lemma DefaultFieldPorts()
    ensures PortsOf(["21", "445", "548", "3306", "3689", "5432"]) == [21, 445, 548, 3306, 3689, 5432]
  {
    var ports := [21, 445, 548, 3306, 3689, 5432];
    var fields := ["21", "445", "548", "3306", "3689", "5432"];
    assert forall k :: 0 <= k < |ports| ==> fields[k] == NatToString(ports[k]) by {
      DefaultRenderings();
    }
    PortsOfRendered(ports, fields);
  }

  /** The decimal renderings of the default ports. */
  lemma DefaultRenderings()
    ensures NatToString(21) == "21" && NatToString(445) == "445" && NatToString(548) == "548"
    ensures NatToString(3306) == "3306" && NatToString(3689) == "3689" && NatToString(5432) == "5432"
  {
    ShortRenderings();
  }

  lemma ShortRenderings()
    ensures NatToString(21) == "21" && NatToString(445) == "445" && NatToString(548) == "548"
  {
  }

  /** Fields that are the decimal renderings of some ports give back exactly those ports. */
  lemma {:induction false} PortsOfRendered(ports: seq<nat>, fields: seq<string>)
    requires |fields| == |ports| && forall k :: 0 <= k < |ports| ==> fields[k] == NatToString(ports[k])
    ensures PortsOf(fields) == ports
    decreases |ports|
  {
    if |ports| > 0 {
      PortsOfRendered(ports[1..], fields[1..]);
      PortField(fields[0], ports[0], fields[1..]);
      assert fields == [fields[0]] + fields[1..];
      assert ports == [ports[0]] + ports[1..];
    }
  }

  /** The default value splits into its six fields. */
  lemma DefaultFields(monitored: string)
    requires monitored == DefaultMonitoredPorts
    ensures SplitAll(monitored, ",") == ["21", "445", "548", "3306", "3689", "5432"]
  {
    var fields := ["21", "445", "548", "3306", "3689", "5432"];
    DefaultJoined();
    assert forall k :: 0 <= k < |fields| ==> ',' !in fields[k];
    SplitFields(fields);
  }

  /** The default value is its six fields joined by commas. */
  lemma DefaultJoined()
    ensures Join(["21", "445", "548", "3306", "3689", "5432"], ",") == DefaultMonitoredPorts
  {
    JoinedTail();
    JoinCons("21", ["445", "548", "3306", "3689", "5432"], "445,548,3306,3689,5432");
    assert ["21"] + ["445", "548", "3306", "3689", "5432"] == ["21", "445", "548", "3306", "3689", "5432"];
    assert "21" + "," + "445,548,3306,3689,5432" == DefaultMonitoredPorts;
  }

  /** The last five default fields joined by commas. */
  lemma JoinedTail()
    ensures Join(["445", "548", "3306", "3689", "5432"], ",") == "445,548,3306,3689,5432"
  {
    JoinedLastThree();
    JoinCons("548", ["3306", "3689", "5432"], "3306,3689,5432");
    assert ["548"] + ["3306", "3689", "5432"] == ["548", "3306", "3689", "5432"];
    assert "548" + "," + "3306,3689,5432" == "548,3306,3689,5432";
    JoinCons("445", ["548", "3306", "3689", "5432"], "548,3306,3689,5432");
    assert ["445"] + ["548", "3306", "3689", "5432"] == ["445", "548", "3306", "3689", "5432"];
    assert "445" + "," + "548,3306,3689,5432" == "445,548,3306,3689,5432";
  }

  /** The last three default fields joined by commas. */
  lemma JoinedLastThree()
    ensures Join(["3306", "3689", "5432"], ",") == "3306,3689,5432"
  {
    JoinCons("3689", ["5432"], "5432");
    assert ["3689"] + ["5432"] == ["3689", "5432"];
    assert "3689" + "," + "5432" == "3689,5432";
    JoinCons("3306", ["3689", "5432"], "3689,5432");
    assert ["3306"] + ["3689", "5432"] == ["3306", "3689", "5432"];
    assert "3306" + "," + "3689,5432" == "3306,3689,5432";
  }

  /** Joining one more field in front. */
  lemma JoinCons(a: string, rest: seq<string>, tail: string)
    requires |rest| > 0 && Join(rest, ",") == tail
    ensures Join([a] + rest, ",") == a + "," + tail
  {
    assert ([a] + rest)[1..] == rest;
  }

  /** Fields without a comma, joined by commas, split back into themselves. */
  lemma {:induction false} SplitFields(fields: seq<string>)
    requires |fields| > 0 && forall k :: 0 <= k < |fields| ==> ',' !in fields[k]
    ensures SplitAll(Join(fields, ","), ",") == fields
    decreases |fields|
  {
    if |fields| == 1 {
      NotContainsByChar(fields[0], ",", 0);
      SplitNone(fields[0], ",", 0);
    } else {
      SplitFields(fields[1..]);
      SplitAllPast(fields[0], ",", Join(fields[1..], ","), 0);
    }
  }

  /** A field of plain digits contributes its value. */
  lemma PortField(field: string, value: nat, rest: seq<string>)
    requires field == NatToString(value)
    ensures PortsOf([field] + rest) == [value] + PortsOf(rest)
  {
    DecimalOfNatToString(value);
    StripNoop(field);
    assert ([field] + rest)[1..] == rest;
  }

  /** `PORT_NAMES`. */
  const PortNames: map<nat, string> := map[
    21 := "FTP", 22 := "SSH", 445 := "SMB", 548 := "AFP",
    3306 := "MySQL", 3689 := "iTunes", 5432 := "PostgreSQL", 5900 := "VNC"]

  /** `PORT_NAMES.get(port, str(port))`. */
  function PortName(port: nat): (name: string)
    ensures port !in PortNames ==> name == NatToString(port)
    ensures port in PortNames ==> name == PortNames[port]
  {
    if port in PortNames then PortNames[port] else NatToString(port)
  }

  /** The names `PORT_NAMES` gives the well-known ports. */
  lemma WellKnownPortNames()
    ensures PortName(21) == "FTP" && PortName(22) == "SSH" && PortName(445) == "SMB" && PortName(548) == "AFP"
    ensures PortName(3306) == "MySQL" && PortName(3689) == "iTunes" && PortName(5432) == "PostgreSQL"
    ensures PortName(5900) == "VNC"
  {
  }
}

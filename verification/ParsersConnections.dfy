/**
 * `parsers/connections.py`: read one line of `lsof -i` output into a
 * connection record and report it as a `PORT` notification.
 */
module ParsersConnections {
  import opened Text
  import opened Events

  /** `port or ''` rendered by `str.format`: empty for a falsy source, digits for a port. */
  function SourceText(src: Source): (t: string)
    ensures Falsy(src) ==> t == ""
    ensures src.Port? && src.number > 0 ==> IsDecimal(t) && DecimalValue(t) == src.number
    ensures src.Path? ==> t == src.name
  {
    match src
    case NoSource => ""
    case Port(n) =>
      if n == 0 then "" else DecimalOfNatToString(n); NatToString(n)
    case Path(p) => p
  }

  /** The dictionary `parse_connection` returns. */
  datatype Connection = Connection(
    tcpVersion: string, port: string, state: string, user: string,
    process: string, pid: string, source: string, target: string)

  /**
   * `parse_connection(line, port)`: `None` when `line.split()[:10]` does not
   * have ten items; otherwise the fields named by token position, the
   * ninth token split on `->` into target and source.
   */
  function ParseConnection(line: string, port: Source): (r: Option<Connection>)
    ensures r.Some? <==> |Words(line)| >= 10
  {
    var words := Words(line);
    if |words| < 10 then None
    else
      var details := words[..10];
      var addrs := SplitAll(details[8], "->");
      var target := addrs[0];
      var source := if |addrs| == 2 then addrs[1] else "*";
      Some(Connection(details[4], SourceText(port), DropEnds(details[9]), details[2],
                      details[0], details[1], source, target))
  }

  /** Fixed token roles: process, pid, user, TCP version, and the state without its parentheses. */
  lemma ConnectionTokens(line: string, port: Source)
    requires |Words(line)| >= 10
    ensures var c := ParseConnection(line, port).value; var ws := Words(line);
      c.process == ws[0] && c.pid == ws[1] && c.user == ws[2] && c.tcpVersion == ws[4] &&
      c.state == DropEnds(ws[9]) && c.port == SourceText(port)
  {
  }

  /** Only the first ten tokens matter. */
  lemma FirstTenTokens(line: string, other: string, port: Source)
    requires |Words(line)| >= 10 && |Words(other)| >= 10
    requires Words(line)[..10] == Words(other)[..10]
    ensures ParseConnection(line, port) == ParseConnection(other, port)
  {
    assert Words(line)[8] == Words(line)[..10][8] == Words(other)[8];
    assert Words(line)[9] == Words(line)[..10][9] == Words(other)[9];
    assert forall k :: 0 <= k < 5 ==> Words(line)[k] == Words(line)[..10][k] == Words(other)[k];
  }

  /**
   * The ninth token with exactly one `->` is `target->source`; with none the
   * target is the whole token and the source `*`; with more, the target is
   * the text before the first `->` and the source `*`.
   */
  lemma Addresses(line: string, port: Source)
    requires |Words(line)| >= 10
    ensures var c := ParseConnection(line, port).value; var addrs := Words(line)[8];
      && (|SplitAll(addrs, "->")| == 2 ==>
            c.target + "->" + c.source == addrs && !Contains(c.target, "->") && !Contains(c.source, "->"))
      && (!Contains(addrs, "->") ==> c.target == addrs && c.source == "*")
      && (|SplitAll(addrs, "->")| != 2 ==> c.source == "*" && c.target == BeforeFirst(addrs, "->"))
  {
    var addrs := Words(line)[8];
    var parts := SplitAll(addrs, "->");
    SplitAllPiecesFree(addrs, "->");
    JoinSplitAll(addrs, "->");
    if Contains(addrs, "->") {
      SplitStep(addrs, "->", 0);
      if |parts| == 2 {
        assert Join(parts, "->") == parts[0] + "->" + Join(parts[1..], "->");
        assert Join(parts[1..], "->") == parts[1];
      }
    } else {
      SplitNone(addrs, "->", 0);
    }
  }

  /** `parse(line, source)`. */
  function Parse(line: string, port: Source): (r: Classified)
    ensures r.severity == Some(Notify) <==> |Words(line)| >= 10
    ensures r.title != "" <==> |Words(line)| >= 10
    ensures |Words(line)| < 10 ==> r == Unmatched
  {
    match ParseConnection(line, port)
    case None => Unmatched
    case Some(c) =>
      Classified(Some(Notify), "PORT " + c.port + " <- " + c.source,
                 c.user + " " + c.process + " (" + c.pid + ") @ " + c.target)
  }

  /**
   * A line with ten tokens is reported under its source port and the
   * connection's source, with the user, process, pid and target in the body.
   */
  lemma ParseReport(line: string, port: Source)
    requires |Words(line)| >= 10
    ensures var c := ParseConnection(line, port).value; var ws := Words(line);
      Parse(line, port) == Classified(Some(Notify), "PORT " + SourceText(port) + " <- " + c.source,
                                      ws[2] + " " + ws[0] + " (" + ws[1] + ") @ " + c.target)
  {
    ConnectionTokens(line, port);
  }
}

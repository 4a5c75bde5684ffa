/**
 * `parsers/vnc.py`: report an `lsof` line for the VNC port as a
 * `VNC CONNECTED` alert, reusing the connection parser.
 */
module ParsersVnc {
  import opened Text
  import opened Events
  import ParsersConnections

  /** `parse(line, source)`. */
  function Parse(line: string, port: Source): (r: Classified)
    ensures r.title != "" <==> ParsersConnections.ParseConnection(line, port).Some?
    ensures r.severity == Some(Alert) <==> ParsersConnections.ParseConnection(line, port).Some?
    ensures ParsersConnections.ParseConnection(line, port).None? ==> r == Unmatched
  {
    match ParsersConnections.ParseConnection(line, port)
    case None => Unmatched
    case Some(c) =>
      Classified(Some(Alert), "VNC CONNECTED " + c.source,
                 "To: " + c.user + " " + c.process + " (" + c.pid + ") -> " + c.target)
  }

  /** A VNC line is reported exactly when the port classifier would report it, but as an alert. */
  lemma SameLinesAsPorts(line: string, port: Source)
    ensures Parse(line, port).title != "" <==> ParsersConnections.Parse(line, port).title != ""
    ensures Parse(line, port).title != "" ==>
      Parse(line, port).severity == Some(Alert) && ParsersConnections.Parse(line, port).severity == Some(Notify)
  {
  }

  /** A line with ten tokens is reported under the connection's source, with the user, process, pid and target. */
  lemma ParseReport(line: string, port: Source)
    requires |Words(line)| >= 10
    ensures var c := ParsersConnections.ParseConnection(line, port).value; var ws := Words(line);
      Parse(line, port) == Classified(Some(Alert), "VNC CONNECTED " + c.source,
                                      "To: " + ws[2] + " " + ws[0] + " (" + ws[1] + ") -> " + c.target)
  {
    ParsersConnections.ConnectionTokens(line, port);
  }
}

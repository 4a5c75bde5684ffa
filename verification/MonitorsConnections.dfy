/**
 * `monitors/connections.py`: the older connection classifier. Its
 * `parse_connection` is the same function as in `parsers/connections.py`
 * (modelled once, as `ParsersConnections.ParseConnection`); its `parse`
 * fills the templates by field name.
 */
module MonitorsConnections {
  import opened Text
  import opened Events
  import ParsersConnections

  /** `TITLE.format(**conn)`: `PORT {port} <- {source}`. */
  function Title(c: ParsersConnections.Connection): (t: string)
    ensures "PORT " <= t
  {
    "PORT " + c.port + " <- " + c.source
  }

  /** `BODY.format(**conn)`: `{user} {process} ({pid}) @ {target}`. */
  function Body(c: ParsersConnections.Connection): string
  {
    c.user + " " + c.process + " (" + c.pid + ") @ " + c.target
  }

  /** `parse(line, source)`. */
  function Parse(line: string, port: Source): (r: Classified)
    ensures r.severity == Some(Notify) <==> |Words(line)| >= 10
    ensures |Words(line)| < 10 ==> r == Unmatched
  {
    match ParsersConnections.ParseConnection(line, port)
    case None => Unmatched
    case Some(c) => Classified(Some(Notify), Title(c), Body(c))
  }

  /** On every line and port the older classifier gives the same triple as `parsers/connections.py`. */
  lemma SameAsParsers(line: string, port: Source)
    ensures Parse(line, port) == ParsersConnections.Parse(line, port)
  {
  }
}

/**
 * The values every classifier shares: the `(severity, title, body)` triple a
 * parser returns, the optional severity, the port or path a connection
 * watcher is given, and the Python exceptions a parser can raise.
 */
module Events {

  datatype Option<T> = None | Some(value: T)

  /** The errors the classifiers can raise instead of returning. */
  datatype PyError = ValueError | IndexError | AttributeError

  datatype Result<T> = Ok(value: T) | Err(error: PyError)

  /** `"notify"` or `"alert"`. */
  datatype Severity = Notify | Alert

  function SeverityName(s: Severity): (name: string)
    ensures name == "alert" <==> s == Alert
  {
    match s
    case Notify => "notify"
    case Alert => "alert"
  }

  /** What a parser returns: `(severity, title, body)`. */
  datatype Classified = Classified(severity: Option<Severity>, title: string, body: string)

  /** `(None, '', '')`: the line is not one the parser reports. */
  const Unmatched := Classified(None, "", "")

  /**
   * The `port` argument of the connection parsers: a port number, a path
   * (a watched file), or nothing (`None`).
   */
  datatype Source = NoSource | Port(number: nat) | Path(name: string)

  /** Python falsiness of the source: `None`, `0` and `''`. */
  predicate Falsy(src: Source)
  {
    src == NoSource || src == Port(0) || src == Path("")
  }
}

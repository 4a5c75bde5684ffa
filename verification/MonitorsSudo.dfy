/**
 * `monitors/sudo.py`: the older sudo classifier. It shares the field
 * extraction of `parsers/sudo.py` but skips only the lines holding an
 * excluded pattern, does not ask for `COMMAND`, and always removes
 * `/Users/` from the directory.
 */
module MonitorsSudo {
  import opened Text
  import opened Events
  import ParsersSudo

  /** `EXCLUDE_LINES`. */
  const ExcludeLines: seq<string> := ["/usr/sbin/lsof +c 0"]

  /** `any(pattern in line for pattern in EXCLUDE_LINES)`. */
  predicate Excluded(line: string)
  {
    exists k :: 0 <= k < |ExcludeLines| && Contains(line, ExcludeLines[k])
  }

  /** The one excluded pattern is the plugin's own `lsof` call. */
  lemma ExcludedMeaning(line: string)
    ensures Excluded(line) <==> Contains(line, "/usr/sbin/lsof +c 0")
  {
    assert ExcludeLines[0] == "/usr/sbin/lsof +c 0";
  }

  /** The line is reported: it mentions `sudo` and none of the excluded patterns. */
  predicate Selected(line: string)
  {
    Contains(line, "sudo") && !Excluded(line)
  }

  /** `parse(line)`. */
  function Parse(line: string): (r: Result<Classified>)
    ensures !Selected(line) ==> r == Ok(Unmatched)
    ensures Selected(line) ==> (r.Err? <==> |SplitAll(line, " ; ")| < 4)
    ensures r.Ok? && r.value.title != "" ==> Selected(line) && r.value.severity == Some(Alert)
  {
    if Selected(line) then
      match ParsersSudo.ParseRecord(line, "/Users/")
      case Err(e) => Err(e)
      case Ok(rec) => Ok(ParsersSudo.Report(rec))
    else Ok(Unmatched)
  }

  /**
   * On lines that mention `COMMAND` the two generations agree when
   * `parsers/sudo.py` strips `/Users/`; this one also reports lines without
   * `COMMAND`.
   */
  lemma AgreesWithParsers(line: string)
    ensures Contains(line, "COMMAND") ==> Parse(line) == ParsersSudo.Parse(line, "/Users/")
    ensures Selected(line) && !Contains(line, "COMMAND") ==> ParsersSudo.Parse(line, "/Users/") == Ok(Unmatched)
  {
    assert Excluded(line) <==> Contains(line, "/usr/sbin/lsof +c 0") by {
      assert ExcludeLines[0] == "/usr/sbin/lsof +c 0";
    }
  }
}

/**
 * `parsers/portscan.py`: the kernel's RST rate-limiting message, reported
 * as an incoming port scan.
 */
module ParsersPortscan {
  import opened Text
  import opened Events
  import opened Patterns

  /** `PORTSCAN_EVENT_FILTER`: `kernel[<pid>]: Limiting closed port RST response`. */
  predicate Selected(line: string)
  {
    HasPidTag(line, "kernel", ": Limiting closed port RST response")
  }

  /**
   * `PORTSCAN_EVENT_FILTER` matches every line holding
   * `kernel[<digits>]: Limiting closed port RST response`, and only lines
   * holding both `kernel[` and `]: Limiting closed port RST response`.
   */
  lemma SelectedShape(line: string, a: string, pid: string, b: string)
    ensures IsDecimal(pid) ==> Selected(a + "kernel" + "[" + pid + "]" + ": Limiting closed port RST response" + b)
    ensures Selected(line) ==> Contains(line, "kernel" + "[") && Contains(line, "]" + ": Limiting closed port RST response")
  {
    if IsDecimal(pid) {
      PidTagIntro(a, "kernel", pid, ": Limiting closed port RST response", b);
    }
    if Selected(line) {
      PidTagParts(line, "kernel", ": Limiting closed port RST response");
    }
  }

  /** `parse(line)`. */
  function Parse(line: string): (r: Classified)
    ensures r.title != "" <==> Selected(line)
    ensures Selected(line) ==> r.severity == Some(Alert) && r.title == "Incoming Portscan Detected"
    ensures !Selected(line) ==> r == Unmatched
  {
    if Selected(line) then
      Classified(Some(Alert), "Incoming Portscan Detected", "Limiting " + AfterFirst(line, "port RST response "))
    else Unmatched
  }

  /**
   * The body is `Limiting ` and the text after the first `port RST response `
   * (with its trailing space); when that is absent, `Limiting ` and the
   * whole line.
   */
  lemma ParseBody(line: string)
    requires Selected(line)
    ensures var body := Parse(line).body;
      && "Limiting " <= body
      && (Contains(line, "port RST response ") ==>
            line == BeforeFirst(line, "port RST response ") + "port RST response " + body[9..]
            && !Contains(BeforeFirst(line, "port RST response "), "port RST response "))
      && (!Contains(line, "port RST response ") ==> body == "Limiting " + line)
  {
    var sep := "port RST response ";
    var body := Parse(line).body;
    assert body == "Limiting " + AfterFirst(line, sep);
    assert body[9..] == AfterFirst(line, sep);
    if Contains(line, sep) {
      SplitFirstJoin(line, sep);
      BeforeFirstFree(line, sep);
    }
  }
}

/**
 * `log_event`: the line written for an event and the log file that keeps at
 * most `MAX_LOG_LINES` of them, the newest last.
 */
module PluginLog {
  import opened Text
  import opened Events
  import opened PluginConfig
  import opened PluginClassify

  /** `!!` for an alert, `>>` for everything else. */
  function Marker(kind: Severity): (mark: string)
    ensures |mark| == 2 && (mark == "!!" <==> kind == Alert)
  {
    if kind == Alert then "!!" else ">>"
  }

  /** The part of a log line up to the colon after the title. */
  function LineHead(kind: Severity, stamp: string, title: string): (head: string)
    ensures |head| > 0 && head[0] == '[' && head[|head| - 1] == ':'
  {
    "[" + stamp + "] " + Marker(kind) + " " + title + ":"
  }

  /**
   * `f"[{timestamp}] {prefix} {title}: {body}\n".strip()`: the head is kept
   * whole; the body loses its trailing whitespace and follows the head after
   * a space, unless nothing of it is left, when the space goes too.
   */
  function LogLine(kind: Severity, stamp: string, title: string, body: string): (line: string)
    ensures line == LineHead(kind, stamp, title) + (if TrimEnd(body) == [] then [] else " " + TrimEnd(body))
    ensures |body| > 0 && !IsSpace(body[|body| - 1]) ==> line == LineHead(kind, stamp, title) + " " + body
    ensures (forall i :: 0 <= i < |body| ==> IsSpace(body[i])) ==> line == LineHead(kind, stamp, title)
  {
    var head := LineHead(kind, stamp, title);
    LogLineShape(head, body);
    Strip(head + (" " + body + "\n"))
  }

  /** `strip()` of a line that starts with `[` and whose head ends in a colon. */
  lemma LogLineShape(head: string, body: string)
    requires |head| > 0 && head[0] == '[' && head[|head| - 1] == ':'
    ensures Strip(head + (" " + body + "\n")) == head + (if TrimEnd(body) == [] then [] else " " + TrimEnd(body))
    ensures |body| > 0 && !IsSpace(body[|body| - 1]) ==> Strip(head + (" " + body + "\n")) == head + " " + body
    ensures (forall i :: 0 <= i < |body| ==> IsSpace(body[i])) ==> Strip(head + (" " + body + "\n")) == head
  {
    StripLine(head, body);
    if forall i :: 0 <= i < |body| ==> IsSpace(body[i]) {
      TrimEndDrops(body);
    }
  }

  lemma StripLine(head: string, body: string)
    requires |head| > 0 && head[0] == '[' && head[|head| - 1] == ':'
    ensures Strip(head + (" " + body + "\n")) == head + (if TrimEnd(body) == [] then [] else " " + TrimEnd(body))
  {
    StripAfterHead(head, " " + body + "\n");
    TrimEndNewline(" " + body);
    TrimEndConcat(" ", body);
    TrimEndSpace();
  }

  /** The log file, as the list of its lines. */
  class LogFile {
    var lines: seq<string>

    /** A log file holding `existing`. */
    constructor (existing: seq<string>)
      ensures lines == existing
    {
      lines := existing;
    }

    /** Append one line and keep the last `MAX_LOG_LINES`. */
    method Append(line: string)
      modifies this
      ensures lines == Tail(old(lines) + [line], MaxLogLines)
      ensures |lines| <= MaxLogLines && lines[|lines| - 1] == line
    {
      var existing := lines + [line];
      lines := if |existing| <= MaxLogLines then existing else existing[|existing| - MaxLogLines..];
    }
  }

  /** The lines logged for some events, one per event, stamped by the clock at each position. */
  function NewLines(events: seq<PluginEvent>, stamps: nat -> string): (lines: seq<string>)
    ensures |lines| == |events|
    decreases |events|
  {
    if |events| == 0 then []
    else
      var n := |events| - 1;
      NewLines(events[..n], stamps) + [LogLine(events[n].kind, stamps(n), events[n].title, events[n].body)]
  }

  /** The log after appending some lines one at a time, trimming after each. */
  function AppendAll(lines: seq<string>, added: seq<string>): (r: seq<string>)
    ensures |added| > 0 ==> |r| <= MaxLogLines
    decreases |added|
  {
    if |added| == 0 then lines
    else Tail(AppendAll(lines, added[..|added| - 1]) + [added[|added| - 1]], MaxLogLines)
  }

  /** Logging one more event appends its line and trims. */
  lemma AppendNextLine(lines: seq<string>, events: seq<PluginEvent>, stamps: nat -> string, i: nat)
    requires i < |events|
    ensures AppendAll(lines, NewLines(events[..i + 1], stamps))
         == Tail(AppendAll(lines, NewLines(events[..i], stamps)) + [LogLine(events[i].kind, stamps(i), events[i].title, events[i].body)],
                 MaxLogLines)
  {
    assert events[..i + 1][..i] == events[..i];
    var added := NewLines(events[..i + 1], stamps);
    assert added[..|added| - 1] == NewLines(events[..i], stamps);
  }

  /**
   * Appending line by line and trimming each time keeps the same lines as
   * appending them all and trimming once: the newest `MAX_LOG_LINES` lines
   * of the old log followed by the new ones.
   */
  lemma {:induction false} AppendAllIsTail(lines: seq<string>, added: seq<string>)
    requires |added| > 0
    ensures AppendAll(lines, added) == Tail(lines + added, MaxLogLines)
    decreases |added|
  {
    var n := |added| - 1;
    var init := added[..n];
    assert lines + init + [added[n]] == lines + added;
    if n == 0 {
      assert AppendAll(lines, init) == lines;
    } else {
      AppendAllIsTail(lines, init);
      TailTail(lines + init, [added[n]], MaxLogLines);
    }
    assert AppendAll(lines, added) == Tail(AppendAll(lines, init) + [added[n]], MaxLogLines);
  }

  /** The newest lines of the log are the added lines, in order, when there are at most `MAX_LOG_LINES` of them. */
  lemma AppendAllEndsWithAdded(lines: seq<string>, added: seq<string>)
    requires 0 < |added| <= MaxLogLines
    ensures |added| <= |AppendAll(lines, added)|
    ensures AppendAll(lines, added)[|AppendAll(lines, added)| - |added|..] == added
  {
    AppendAllIsTail(lines, added);
    var all := lines + added;
    var r := Tail(all, MaxLogLines);
    assert r[|r| - |added|..] == all[|all| - |added|..];
    assert all[|all| - |added|..] == added;
  }
}

/**
 * `monitors/ssh.py`: the older sshd classifier. `word_after`,
 * `parse_summary` and `parse_line` are the same functions as in
 * `parsers/ssh.py` (modelled once, in `ParsersSsh`); the filters are
 * stricter and the login method is read from the line.
 */
module MonitorsSsh {
  import opened Text
  import opened Events
  import opened Patterns
  import ParsersSsh

  /** `KEYAUTH_EVENT_FILTER`: ` sshd[<pid>]: Accepted publickey for `, with the leading space. */
  predicate KeyauthEvent(line: string)
  {
    HasPidTag(line, " sshd", ": Accepted publickey for ")
  }

  /** `PASSWORD_EVENT_FILTER`: ` sshd[<pid>]: Accepted keyboard`; no `password` alternative, the pid is required. */
  predicate PasswordEvent(line: string)
  {
    HasPidTag(line, " sshd", ": Accepted keyboard")
  }

  /** `FAIL_EVENT_FILTER`, the same as in `parsers/ssh.py`. */
  predicate FailEvent(line: string)
  {
    ParsersSsh.FailEvent(line)
  }

  /**
   * This module's `KEYAUTH_EVENT_FILTER` matches every line holding
   * ` sshd[<digits>]: Accepted publickey for `, and only lines holding both
   * ` sshd[` and `]: Accepted publickey for `.
   */
  lemma KeyauthEventShape(line: string, a: string, pid: string, b: string)
    ensures IsDecimal(pid) ==> KeyauthEvent(a + " sshd" + "[" + pid + "]" + ": Accepted publickey for " + b)
    ensures KeyauthEvent(line) ==> Contains(line, " sshd" + "[") && Contains(line, "]" + ": Accepted publickey for ")
  {
    if IsDecimal(pid) {
      PidTagIntro(a, " sshd", pid, ": Accepted publickey for ", b);
    }
    if KeyauthEvent(line) {
      PidTagParts(line, " sshd", ": Accepted publickey for ");
    }
  }

  /**
   * This module's `PASSWORD_EVENT_FILTER` matches every line holding
   * ` sshd[<digits>]: Accepted keyboard`, and only lines holding both
   * ` sshd[` and `]: Accepted keyboard`.
   */
  lemma PasswordEventShape(line: string, a: string, pid: string, b: string)
    ensures IsDecimal(pid) ==> PasswordEvent(a + " sshd" + "[" + pid + "]" + ": Accepted keyboard" + b)
    ensures PasswordEvent(line) ==> Contains(line, " sshd" + "[") && Contains(line, "]" + ": Accepted keyboard")
  {
    if IsDecimal(pid) {
      PidTagIntro(a, " sshd", pid, ": Accepted keyboard", b);
    }
    if PasswordEvent(line) {
      PidTagParts(line, " sshd", ": Accepted keyboard");
    }
  }

  /** `'Password' if ' keyboard' in line else 'Public Key'`. */
  function LoginMethod(line: string): (m: string)
    ensures m == "Password" <==> Contains(line, " keyboard")
    ensures m == "Password" || m == "Public Key"
  {
    if Contains(line, " keyboard") then "Password" else "Public Key"
  }

  /** `parse(line)`. */
  function Parse(line: string): (r: Classified)
    ensures r.severity == Some(Alert) <==> r.title != ""
    ensures r.title != "" <==> KeyauthEvent(line) || PasswordEvent(line) || FailEvent(line)
    ensures r.title == "" ==> r == Unmatched
  {
    if KeyauthEvent(line) || PasswordEvent(line) then
      var login := ParsersSsh.ParseLine(line);
      Classified(Some(Alert), "SSH LOGIN SUCCESS: " + login.user, "from: " + login.src + " using a " + LoginMethod(line))
    else if FailEvent(line) then
      var login := ParsersSsh.ParseLine(line);
      Classified(Some(Alert), "SSH EVENT: " + login.user, "from: " + login.src + " | " + ParsersSsh.ParseSummary(line))
    else
      Unmatched
  }

  /** A login this classifier accepts is also accepted by `parsers/ssh.py`, under the same title. */
  lemma StricterThanParsers(line: string)
    ensures KeyauthEvent(line) ==> ParsersSsh.KeyauthEvent(line)
    ensures PasswordEvent(line) ==> ParsersSsh.PasswordEvent(line)
    ensures KeyauthEvent(line) || PasswordEvent(line) ==> ParsersSsh.Parse(line).title == Parse(line).title
  {
    assert [' '] + "sshd" == " sshd";
    if KeyauthEvent(line) {
      PidTagDropLead(line, ' ', "sshd", ": Accepted publickey for ");
    }
    if PasswordEvent(line) {
      PidTagDropLead(line, ' ', "sshd", ": Accepted keyboard");
    }
  }


  /**
   * A login success is titled with the user after ` for `; a line through
   * the keyboard-interactive filter is always a password login, and a line
   * that never says ` keyboard` is a public-key login.
   */
  lemma LoginReport(line: string)
    requires KeyauthEvent(line) || PasswordEvent(line)
    ensures Parse(line).title == "SSH LOGIN SUCCESS: " + ParsersSsh.ParseLine(line).user
    ensures PasswordEvent(line) ==> Parse(line).body == "from: " + ParsersSsh.ParseLine(line).src + " using a " + "Password"
    ensures !Contains(line, " keyboard") ==> Parse(line).body == "from: " + ParsersSsh.ParseLine(line).src + " using a " + "Public Key"
  {
    var src := ParsersSsh.ParseLine(line).src;
    assert Parse(line).body == "from: " + src + " using a " + LoginMethod(line);
    if !Contains(line, " keyboard") {
      assert LoginMethod(line) == "Public Key";
    }
    if PasswordEvent(line) {
      PidTagParts(line, " sshd", ": Accepted keyboard");
      KeyboardFilterTail();
      ContainsWithin(line, "]: Accepted", " keyboard");
    }
  }

  /**
   * Any other sshd event is titled `SSH EVENT: ` and the user, and its body
   * carries the source and the summary; the title is never empty.
   */
  lemma OtherEventReport(line: string)
    requires !(KeyauthEvent(line) || PasswordEvent(line)) && FailEvent(line)
    ensures Parse(line) == Classified(Some(Alert), "SSH EVENT: " + ParsersSsh.ParseLine(line).user,
                                      "from: " + ParsersSsh.ParseLine(line).src + " | " + ParsersSsh.ParseSummary(line))
    ensures "SSH EVENT: " <= Parse(line).title && Parse(line).title != ""
  {
  }

  /** The keyboard-interactive filter's text after the pid ends in ` keyboard`. */
  lemma KeyboardFilterTail()
    ensures "]" + ": Accepted keyboard" == "]: Accepted" + " keyboard"
  {
  }
}

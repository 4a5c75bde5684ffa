/**
 * `parsers/ssh.py`: classify an sshd log line as a login success, another
 * sshd event, or nothing, and pull the user and the connection source out
 * of it.
 */
module ParsersSsh {
  import opened Text
  import opened Events
  import opened Patterns

  /** `KEYAUTH_EVENT_FILTER`: `sshd[<pid>]: Accepted publickey for `. */
  predicate KeyauthEvent(line: string)
  {
    HasPidTag(line, "sshd", ": Accepted publickey for ")
  }

  /** `PASSWORD_EVENT_FILTER`: `sshd`, an optional `[<pid>]`, then `: Accepted keyboard` or `: Accepted password`. */
  predicate PasswordEvent(line: string)
  {
    HasOptionalPidTag(line, "sshd", ": Accepted keyboard") || HasOptionalPidTag(line, "sshd", ": Accepted password")
  }

  /** `FAIL_EVENT_FILTER`: ` sshd[<pid>]: `. */
  predicate FailEvent(line: string)
  {
    HasPidTag(line, " sshd", ": ")
  }

  /**
   * `KEYAUTH_EVENT_FILTER` matches every line holding
   * `sshd[<digits>]: Accepted publickey for `, and only lines holding both
   * `sshd[` and `]: Accepted publickey for `.
   */
  lemma KeyauthEventShape(line: string, a: string, pid: string, b: string)
    ensures IsDecimal(pid) ==> KeyauthEvent(a + "sshd" + "[" + pid + "]" + ": Accepted publickey for " + b)
    ensures KeyauthEvent(line) ==> Contains(line, "sshd" + "[") && Contains(line, "]" + ": Accepted publickey for ")
  {
    if IsDecimal(pid) {
      PidTagIntro(a, "sshd", pid, ": Accepted publickey for ", b);
    }
    if KeyauthEvent(line) {
      PidTagParts(line, "sshd", ": Accepted publickey for ");
    }
  }

  /**
   * `PASSWORD_EVENT_FILTER` matches `sshd: Accepted keyboard` and
   * `sshd: Accepted password`, with or without a bracketed pid after
   * `sshd`, and only lines holding one of the two phrases.
   */
  lemma PasswordEventShape(line: string, a: string, pid: string, b: string)
    ensures PasswordEvent(a + "sshd" + ": Accepted keyboard" + b)
    ensures PasswordEvent(a + "sshd" + ": Accepted password" + b)
    ensures IsDecimal(pid) ==> PasswordEvent(a + "sshd" + "[" + pid + "]" + ": Accepted keyboard" + b)
    ensures IsDecimal(pid) ==> PasswordEvent(a + "sshd" + "[" + pid + "]" + ": Accepted password" + b)
    ensures PasswordEvent(line) ==> Contains(line, ": Accepted keyboard") || Contains(line, ": Accepted password")
  {
    OptionalPidTagPlain(a, "sshd", ": Accepted keyboard", b);
    OptionalPidTagPlain(a, "sshd", ": Accepted password", b);
    if IsDecimal(pid) {
      PidTagIntro(a, "sshd", pid, ": Accepted keyboard", b);
      PidTagIntro(a, "sshd", pid, ": Accepted password", b);
    }
    if HasOptionalPidTag(line, "sshd", ": Accepted keyboard") {
      OptionalPidTagParts(line, "sshd", ": Accepted keyboard");
    }
    if HasOptionalPidTag(line, "sshd", ": Accepted password") {
      OptionalPidTagParts(line, "sshd", ": Accepted password");
    }
  }

  /**
   * `FAIL_EVENT_FILTER` matches every line holding ` sshd[<digits>]: `, and
   * only lines holding both ` sshd[` and `]: `.
   */
  lemma FailEventShape(line: string, a: string, pid: string, b: string)
    ensures IsDecimal(pid) ==> FailEvent(a + " sshd" + "[" + pid + "]" + ": " + b)
    ensures FailEvent(line) ==> Contains(line, " sshd" + "[") && Contains(line, "]" + ": ")
  {
    if IsDecimal(pid) {
      PidTagIntro(a, " sshd", pid, ": ", b);
    }
    if FailEvent(line) {
      PidTagParts(line, " sshd", ": ");
    }
  }

  /** `word_after(line, word)`: the text after the first `word`, up to the next space. */
  function WordAfter(line: string, word: string): (r: string)
    requires |word| > 0
    ensures ' ' !in r
  {
    var after := AfterFirst(line, word);
    BeforeFirstFree(after, " ");
    ContainsChar(BeforeFirst(after, " "), ' ');
    BeforeFirst(after, " ")
  }

  /**
   * With `word` present, the result is exactly what follows its first
   * occurrence, stopping at a space or at the end of the line. Without it,
   * the result is the line's first space-delimited token.
   */
  lemma WordAfterMeaning(line: string, word: string)
    requires |word| > 0
    ensures Contains(line, word) ==>
      var p := BeforeFirst(line, word) + word + WordAfter(line, word);
      p <= line && (|p| == |line| || line[|p|] == ' ') && !Contains(BeforeFirst(line, word), word)
    ensures !Contains(line, word) ==> WordAfter(line, word) == BeforeFirst(line, " ")
  {
    if Contains(line, word) {
      var before, after := BeforeFirst(line, word), AfterFirst(line, word);
      SplitFirstJoin(line, word);
      BeforeFirstFree(line, word);
      if Contains(after, " ") {
        SplitFirstJoin(after, " ");
        var w := BeforeFirst(after, " ");
        assert line == (before + word + w) + " " + AfterFirst(after, " ");
      } else {
        assert line == before + word + after;
      }
    }
  }

  /** A word after the first `word`, ended by a space or the end of the line, is what `word_after` returns. */
  lemma WordAfterAt(a: string, word: string, w: string, rest: string, m: nat)
    requires m < |word| && word[m] !in a && word[m] !in word[..m]
    requires ' ' !in w && (rest == "" || rest[0] == ' ')
    ensures Contains(a + word + w + rest, word) && WordAfter(a + word + w + rest, word) == w
  {
    assert a + word + w + rest == a + word + (w + rest);
    SplitFirstPast(a, word, w + rest, m);
    FirstWord(w, rest);
  }

  /** As `WordAfterAt`, when no occurrence of `word` starts inside `a`. */
  lemma WordAfterFirst(a: string, word: string, w: string, rest: string)
    requires |word| > 0 && NoOccurrenceIn(a + word + w + rest, word, 0, |a|)
    requires ' ' !in w && (rest == "" || rest[0] == ' ')
    ensures Contains(a + word + w + rest, word) && WordAfter(a + word + w + rest, word) == w
  {
    assert a + word + w + rest == a + word + (w + rest);
    SplitFirstAt(a, word, w + rest);
    FirstWord(w, rest);
  }

  /** The text before the first space of a word followed by a space or nothing. */
  lemma FirstWord(w: string, rest: string)
    requires ' ' !in w && (rest == "" || rest[0] == ' ')
    ensures BeforeFirst(w + rest, " ") == w
  {
    if rest == "" {
      assert w + rest == w;
      NotContainsByChar(w, " ", 0);
    } else {
      assert w + rest == w + " " + rest[1..];
      SplitFirstAtChar(w, " ", rest[1..]);
    }
  }

  /** The docstring promises `'sheep'` for `word_after('a black sheep', 'black')`; the code gives `''`. */
  lemma WordAfterDocstringExample()
    ensures WordAfter("a black sheep", "black") == ""
  {
    assert "a black sheep" == "a " + "black" + "" + " sheep";
    WordAfterAt("a ", "black", "", " sheep", 0);
  }

  /** `parse_summary(line)`: at most 40 characters of the event text, then `...`. */
  function ParseSummary(line: string): (r: string)
    ensures 3 <= |r| <= 43 && r[|r| - 3..] == "..."
  {
    Take(AfterFirst(AfterFirst(line, " sshd["), " "), 40) + "..."
  }

  /** The `(user, src)` pair `parse_line` returns. */
  datatype Login = Login(user: string, src: string)

  /** `parse_line(line)`: the user after ` for ` and the source after ` from ` or ` by `. */
  function ParseLine(line: string): (r: Login)
    ensures r.user == " " <==> !Contains(line, " for ")
    ensures ' ' !in r.src
    ensures !Contains(line, " from ") && !Contains(line, " by ") ==> r.src == ""
  {
    var user := if Contains(line, " for ") then WordAfter(line, " for ") else " ";
    var src :=
      if Contains(line, " from ") then WordAfter(line, " from ")
      else if Contains(line, " by ") then WordAfter(line, " by ")
      else "";
    Login(user, src)
  }

  /** The user and the source, each taken from the first occurrence of its keyword. */
  lemma ParseLineFields(line: string)
    ensures Contains(line, " for ") ==> ParseLine(line).user == WordAfter(line, " for ")
    ensures Contains(line, " from ") ==> ParseLine(line).src == WordAfter(line, " from ")
    ensures !Contains(line, " from ") && Contains(line, " by ") ==> ParseLine(line).src == WordAfter(line, " by ")
  {
  }

  /**
   * The login method `parse` reports. As written the test is
   * `' keyboard' or (' password' in line)`, and a non-empty string literal is
   * always true.
   */
  function LoginMethod(line: string): string
  {
    var keyboardLiteral := " keyboard";
    if |keyboardLiteral| > 0 || Contains(line, " password") then "Password" else "Public Key"
  }

  /** Every login, public-key ones included, is reported as a password login. */
  lemma LoginMethodAlwaysPassword(line: string)
    ensures LoginMethod(line) == "Password"
  {
  }

  /** The evident intent: a password login only when the line says ` keyboard` or ` password`. */
  function IntendedLoginMethod(line: string): (m: string)
    ensures m == "Password" <==> Contains(line, " keyboard") || Contains(line, " password")
    ensures m == "Password" || m == "Public Key"
  {
    if Contains(line, " keyboard") || Contains(line, " password") then "Password" else "Public Key"
  }

  /** `parse(line)`: `(severity, title, body)`. */
  function Parse(line: string): (r: Classified)
    ensures r.severity == Some(Alert) <==> r.title != ""
    ensures r.title != "" <==> KeyauthEvent(line) || PasswordEvent(line) || FailEvent(line)
    ensures r.title == "" ==> r == Unmatched
  {
    if KeyauthEvent(line) || PasswordEvent(line) then
      var login := ParseLine(line);
      Classified(Some(Alert), "SSH LOGIN SUCCESS: " + login.user, "from: " + login.src + " using a " + LoginMethod(line))
    else if FailEvent(line) then
      var login := ParseLine(line);
      var summary := ParseSummary(line);
      Classified(Some(Alert), "SSH EVENT: " + login.user, "from: " + login.src + " | " + summary)
    else
      Unmatched
  }

  /** A login success is reported with the user and source of `parse_line`, always as a password login. */
  lemma ParseSuccess(line: string)
    requires KeyauthEvent(line) || PasswordEvent(line)
    ensures Parse(line) == Classified(Some(Alert), "SSH LOGIN SUCCESS: " + ParseLine(line).user,
                                      "from: " + ParseLine(line).src + " using a " + "Password")
  {
    LoginMethodAlwaysPassword(line);
  }

  /** Any other sshd event is reported with its summary; the title is never empty, so its fallback is unreachable. */
  lemma ParseOtherEvent(line: string)
    requires !(KeyauthEvent(line) || PasswordEvent(line)) && FailEvent(line)
    ensures Parse(line) == Classified(Some(Alert), "SSH EVENT: " + ParseLine(line).user,
                                      "from: " + ParseLine(line).src + " | " + ParseSummary(line))
    ensures "SSH EVENT: " <= Parse(line).title && Parse(line).title != ""
  {
  }
}

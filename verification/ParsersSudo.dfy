/**
 * `parsers/sudo.py`: turn a sudo log line into a `SUDO EVENT` alert naming
 * the user, the terminal, the command and the working directory.
 */
module ParsersSudo {
  import opened Text
  import opened Events

  /**
   * `pwd_split`, as the module computes it from `sys.platform`: `/Users/`
   * only when the platform name is exactly `Darwin`.
   */
  function HomePrefix(platform: string): (prefix: string)
    ensures prefix == "/Users/" <==> platform == "Darwin"
    ensures prefix == "/Users/" || prefix == "/home/"
  {
    if platform == "Darwin" then "/Users/" else "/home/"
  }

  /** Python reports macOS as `darwin`, so the `/Users/` branch is never taken there. */
  lemma HomePrefixOnMacOS()
    ensures HomePrefix("darwin") == "/home/"
  {
  }

  /** The evident intent: `/Users/` on macOS, whose platform name is `darwin`. */
  function IntendedHomePrefix(platform: string): (prefix: string)
    ensures prefix == "/Users/" <==> platform == "darwin"
    ensures prefix == "/Users/" || prefix == "/home/"
  {
    if platform == "darwin" then "/Users/" else "/home/"
  }

  /** `SUDO_EVENT_FILTER.findall(line)` and the other two tests of `parse`. */
  predicate Selected(line: string)
  {
    Contains(line, "sudo") && !Contains(line, "/usr/sbin/lsof +c 0") && Contains(line, "COMMAND")
  }

  /** The fields `parse` pulls out of a sudo line. */
  datatype SudoRecord = SudoRecord(user: string, tty: string, command: string, pwd: string)

  /**
   * `pre, pwd, _, command = line.split(' ; ', 3)` and the four field
   * extractions after it; `ValueError` when the line has fewer than three
   * ` ; ` separators. `home` is the prefix removed from the directory.
   */
  function ParseRecord(line: string, home: string): (r: Result<SudoRecord>)
    requires |home| > 0
    ensures r.Err? <==> |SplitAll(line, " ; ")| < 4
    ensures r.Err? ==> r.error == ValueError
    ensures r.Ok? ==> ' ' !in r.value.user
  {
    var parts := SplitN(line, " ; ", 3);
    SplitNCount(line, " ; ", 3);
    if |parts| != 4 then Err(ValueError)
    else
      var pre, pwd, command := parts[0], parts[1], parts[3];
      var user := AfterLast(BeforeFirst(pre, " : "), " ");
      var tty := Strip(AfterFirst(pre, "TTY="));
      var dir := AfterFirst(AfterFirst(pwd, "PWD="), home);
      AfterLastFree(BeforeFirst(pre, " : "), " ");
      ContainsChar(user, ' ');
      Ok(SudoRecord(user, tty, AfterFirst(command, "COMMAND="), dir))
  }

  /**
   * For a line whose first three ` ; ` separators close the fields `pre`,
   * `pwd` and `other` (no ` ; ` starts inside one of them): the user is the
   * last space-separated word before the first ` : `, the terminal the
   * stripped text after `TTY=`, the command everything after `COMMAND=` in
   * the rest of the line (further ` ; ` included), and the directory the
   * text after `PWD=` with everything through the first `home` removed.
   */
  lemma ParseRecordFields(pre: string, pwd: string, other: string, command: string, home: string)
    requires |home| > 0
    requires FirstSepAfter(pre, " ; ") && FirstSepAfter(pwd, " ; ") && FirstSepAfter(other, " ; ")
    ensures ParseRecord(pre + " ; " + pwd + " ; " + other + " ; " + command, home)
         == Ok(SudoRecord(AfterLast(BeforeFirst(pre, " : "), " "), Strip(AfterFirst(pre, "TTY=")),
                          AfterFirst(command, "COMMAND="), AfterFirst(AfterFirst(pwd, "PWD="), home)))
  {
    FourFields(pre, pwd, other, command);
  }

  /** `split(' ; ', 3)` gives back the four fields when the first three separators are the ones between them. */
  lemma FourFields(pre: string, pwd: string, other: string, command: string)
    requires FirstSepAfter(pre, " ; ") && FirstSepAfter(pwd, " ; ") && FirstSepAfter(other, " ; ")
    ensures SplitN(pre + " ; " + pwd + " ; " + other + " ; " + command, " ; ", 3) == [pre, pwd, other, command]
  {
    var sep := " ; ";
    JoinedFour(pre, pwd, other, command, sep);
    ThreeFields(pwd, other, command);
    SplitNFirst(pre, sep, pwd + sep + (other + sep + command), 3);
  }

  /** `split(' ; ', 2)` of the last three fields. */
  lemma ThreeFields(pwd: string, other: string, command: string)
    requires FirstSepAfter(pwd, " ; ") && FirstSepAfter(other, " ; ")
    ensures SplitN(pwd + " ; " + (other + " ; " + command), " ; ", 2) == [pwd, other, command]
  {
    var sep := " ; ";
    SplitNFirst(other, sep, command, 1);
    assert SplitN(command, sep, 0) == [command];
    SplitNFirst(pwd, sep, other + sep + command, 2);
  }

  /** The four fields joined by `sep`, grouped from the right. */
  lemma JoinedFour(pre: string, pwd: string, other: string, command: string, sep: string)
    ensures pre + sep + pwd + sep + other + sep + command == pre + sep + (pwd + sep + (other + sep + command))
  {
  }

  /**
   * Every line `parse` can unpack has that shape: it is four fields joined
   * by ` ; `, the first three holding no separator of their own.
   */
  lemma RecordShape(line: string)
    requires |SplitAll(line, " ; ")| >= 4
    ensures exists pre, pwd, other, command ::
      && FirstSepAfter(pre, " ; ") && FirstSepAfter(pwd, " ; ") && FirstSepAfter(other, " ; ")
      && line == pre + " ; " + pwd + " ; " + other + " ; " + command
  {
    var sep := " ; ";
    var a1 := SepRest(line);
    var a2 := SepRest(a1);
    var a3 := SepRest(a2);
    var pre, pwd, other, command := BeforeFirst(line, sep), BeforeFirst(a1, sep), BeforeFirst(a2, sep), a3;
    JoinedFour(pre, pwd, other, command, sep);
  }

  /**
   * A line with at least two pieces holds a separator: its first piece is
   * closed by the first ` ; `, and the rest has one piece fewer.
   */
  lemma SepRest(s: string) returns (rest: string)
    requires |SplitAll(s, " ; ")| >= 2
    ensures FirstSepAfter(BeforeFirst(s, " ; "), " ; ")
    ensures s == BeforeFirst(s, " ; ") + " ; " + rest
    ensures |SplitAll(rest, " ; ")| == |SplitAll(s, " ; ")| - 1
  {
    var sep := " ; ";
    if !Contains(s, sep) {
      SplitNone(s, sep, 0);
    }
    SplitStep(s, sep, 0);
    SplitFirstJoin(s, sep);
    BeforeFirstIsFirst(s, sep);
    rest := AfterFirst(s, sep);
  }

  /**
   * On macOS (`darwin`) a record with `PWD=/Users/squash` reports the whole
   * path as written, and only the user's directory name with the intended
   * prefix.
   */
  lemma MacOSDirectory(pre: string, other: string, command: string)
    requires FirstSepAfter(pre, " ; ") && FirstSepAfter(other, " ; ")
    ensures ParseRecord(pre + " ; " + "PWD=/Users/squash" + " ; " + other + " ; " + command, HomePrefix("darwin")).Ok?
    ensures ParseRecord(pre + " ; " + "PWD=/Users/squash" + " ; " + other + " ; " + command, HomePrefix("darwin")).value.pwd
         == "/Users/squash"
    ensures ParseRecord(pre + " ; " + "PWD=/Users/squash" + " ; " + other + " ; " + command, IntendedHomePrefix("darwin")).value.pwd
         == "squash"
  {
    var pwd := "PWD=/Users/squash";
    SquashPwd();
    ParseRecordFields(pre, pwd, other, command, HomePrefix("darwin"));
    ParseRecordFields(pre, pwd, other, command, IntendedHomePrefix("darwin"));
  }

  /** The directory pieces of `PWD=/Users/squash`, under each prefix. */
  lemma SquashPwd()
    ensures FirstSepAfter("PWD=/Users/squash", " ; ")
    ensures AfterFirst(AfterFirst("PWD=/Users/squash", "PWD="), "/home/") == "/Users/squash"
    ensures AfterFirst(AfterFirst("PWD=/Users/squash", "PWD="), "/Users/") == "squash"
  {
    SquashPwdClosed();
    SquashPwdPath();
    SquashUnderHome();
    SquashUnderUsers();
  }

  /** No ` ; ` starts inside `PWD=/Users/squash`. */
  lemma SquashPwdClosed()
    ensures FirstSepAfter("PWD=/Users/squash", " ; ")
  {
    FirstSepAfterByChar("PWD=/Users/squash", " ; ", 1);
  }

  /** The path after `PWD=`. */
  lemma SquashPwdPath()
    ensures AfterFirst("PWD=/Users/squash", "PWD=") == "/Users/squash"
  {
    assert "PWD=/Users/squash" == "PWD=" + "/Users/squash";
    AfterLeadingSep("PWD=", "/Users/squash");
  }

  /** `/home/` is not in the path, so nothing is removed. */
  lemma SquashUnderHome()
    ensures AfterFirst("/Users/squash", "/home/") == "/Users/squash"
  {
    NotContainedByChar("/Users/squash", "/home/", 2);
  }

  /** `/Users/` starts the path, so the user's name remains. */
  lemma SquashUnderUsers()
    ensures AfterFirst("/Users/squash", "/Users/") == "squash"
  {
    assert "/Users/squash" == "/Users/" + "squash";
    AfterLeadingSep("/Users/", "squash");
  }

  /** The `(severity, title, body)` for a parsed record: `TITLE.format(user, tty)` and `BODY.format(command, pwd)`. */
  function Report(r: SudoRecord): (c: Classified)
    ensures c.severity == Some(Alert) && c.title != ""
  {
    Classified(Some(Alert), "SUDO EVENT: " + r.user + " [" + r.tty + "]", r.command + "\n@ " + r.pwd)
  }

  /** `parse(line)` with `pwd_split` given as `home`. */
  function Parse(line: string, home: string): (r: Result<Classified>)
    requires |home| > 0
    ensures !Selected(line) ==> r == Ok(Unmatched)
    ensures Selected(line) ==> (r.Err? <==> |SplitAll(line, " ; ")| < 4)
    ensures r.Ok? && r.value.title != "" ==> Selected(line) && r.value.severity == Some(Alert)
  {
    if Selected(line) then
      match ParseRecord(line, home)
      case Err(e) => Err(e)
      case Ok(rec) => Ok(Report(rec))
    else Ok(Unmatched)
  }

  /**
   * A selected line with three ` ; ` separators reports the user and the
   * terminal in the title and the command and the directory in the body.
   */
  lemma ParseFields(pre: string, pwd: string, other: string, command: string, home: string)
    requires |home| > 0
    requires FirstSepAfter(pre, " ; ") && FirstSepAfter(pwd, " ; ") && FirstSepAfter(other, " ; ")
    requires Selected(pre + " ; " + pwd + " ; " + other + " ; " + command)
    ensures Parse(pre + " ; " + pwd + " ; " + other + " ; " + command, home)
         == Ok(Classified(Some(Alert),
                          "SUDO EVENT: " + AfterLast(BeforeFirst(pre, " : "), " ") + " [" + Strip(AfterFirst(pre, "TTY=")) + "]",
                          AfterFirst(command, "COMMAND=") + "\n@ " + AfterFirst(AfterFirst(pwd, "PWD="), home)))
  {
    ParseRecordFields(pre, pwd, other, command, home);
  }
}

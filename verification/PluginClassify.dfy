/**
 * The per-entry classifiers of the xbar plugin `security-growler.30s.py`:
 * each turns the `eventMessage` of one unified-log entry into at most one
 * `(type, title, body)` event. Which entries are skipped as already seen is
 * the business of `PluginDedup`.
 */
module PluginClassify {
  import opened Text
  import opened Events
  import ParsersSsh

  /**
   * One decoded unified-log entry: the `eventID` and `traceID` fields when
   * present, `eventMessage` when present, and `str(entry)`.
   */
  datatype Entry = Entry(eventId: Option<string>, traceId: Option<string>, eventMessage: Option<string>, text: string)

  /** `entry.get("eventID", entry.get("traceID", str(entry)))`. */
  function EntryId(e: Entry): (id: string)
    ensures e.eventId.Some? ==> id == e.eventId.value
    ensures e.eventId.None? && e.traceId.Some? ==> id == e.traceId.value
    ensures e.eventId.None? && e.traceId.None? ==> id == e.text
  {
    match e.eventId
    case Some(i) => i
    case None => match e.traceId case Some(t) => t case None => e.text
  }

  /** `entry.get("eventMessage", "")`. */
  function Message(e: Entry): (m: string)
    ensures e.eventMessage.None? ==> m == ""
    ensures e.eventMessage.Some? ==> m == e.eventMessage.value
  {
    match e.eventMessage case Some(m) => m case None => ""
  }

  /** An event tuple `(type, title, body)`; `type` is `"alert"` or `"notify"`. */
  datatype PluginEvent = PluginEvent(kind: Severity, title: string, body: string)

  /**
   * `message.split(word, 1)[-1].split(" ", 1)[0]` guarded by `word in
   * message`, else `""`: the text right after the first `word`, up to the
   * next space or the end of the message.
   */
  function WordAfterMarker(m: string, word: string): (w: string)
    requires |word| > 0
    ensures ' ' !in w
    ensures !Contains(m, word) ==> w == ""
    ensures Contains(m, word) ==>
      var p := BeforeFirst(m, word) + word + w;
      p <= m && (|p| == |m| || m[|p|] == ' ')
  {
    if Contains(m, word) then
      ParsersSsh.WordAfterMeaning(m, word);
      ParsersSsh.WordAfter(m, word)
    else ""
  }

  // SSH (security-growler.30s.py, parse_ssh_events)

  /** A successful login: `Accepted publickey` or `Accepted keyboard`. */
  predicate SshLogin(m: string)
  {
    Contains(m, "Accepted publickey") || Contains(m, "Accepted keyboard")
  }

  /** A failure or error: `Failed`, or `error` in any letter case. */
  predicate SshTrouble(m: string)
  {
    Contains(m, "Failed") || Contains(LowerAscii(m), "error")
  }

  /** The login method: `Public Key` exactly when the message mentions `publickey`. */
  function SshMethod(m: string): (how: string)
    ensures how == "Public Key" <==> Contains(m, "publickey")
    ensures how == "Password" <==> !Contains(m, "publickey")
  {
    if Contains(m, "publickey") then "Public Key" else "Password"
  }

  /** The user of a failed attempt: the word after ` for `, or `unknown` when there is none. */
  function TroubleUser(m: string): (user: string)
    ensures user != ""
    ensures WordAfterMarker(m, " for ") != "" ==> user == WordAfterMarker(m, " for ")
    ensures WordAfterMarker(m, " for ") == "" ==> user == "unknown"
  {
    var word := WordAfterMarker(m, " for ");
    if word == "" then "unknown" else word
  }

  /** The source of a failed attempt: the word after ` from `, else after ` by `, else nothing. */
  function TroubleSource(m: string): (src: string)
    ensures ' ' !in src
    ensures Contains(m, " from ") ==> src == WordAfterMarker(m, " from ")
    ensures !Contains(m, " from ") ==> src == WordAfterMarker(m, " by ")
  {
    if Contains(m, " from ") then WordAfterMarker(m, " from ")
    else if Contains(m, " by ") then WordAfterMarker(m, " by ")
    else ""
  }

  /**
   * The SSH branch of the loop body. A login is reported before a failure is
   * considered; the failure title falls back to `unknown` when no user was
   * found, and its body carries the message cut to 50 characters plus `...`.
   */
  function ClassifySsh(m: string): (r: Option<PluginEvent>)
    ensures r.Some? <==> SshLogin(m) || SshTrouble(m)
    ensures r.Some? ==> r.value.kind == Alert
  {
    if SshLogin(m) then
      var user := WordAfterMarker(m, " for ");
      var src := WordAfterMarker(m, " from ");
      Some(PluginEvent(Alert, "SSH LOGIN: " + user, "from " + src + " via " + SshMethod(m)))
    else if SshTrouble(m) then
      Some(PluginEvent(Alert, "SSH EVENT: " + TroubleUser(m), "from " + TroubleSource(m) + ": " + Truncate(m, 50)))
    else None
  }

  /** A login names the user after ` for `, and the source after ` from ` and the method in the body. */
  lemma ClassifySshLogin(m: string)
    requires SshLogin(m)
    ensures ClassifySsh(m) == Some(PluginEvent(Alert, "SSH LOGIN: " + WordAfterMarker(m, " for "),
                                              "from " + WordAfterMarker(m, " from ") + " via " + SshMethod(m)))
  {
  }

  /** A failure or error that is not a login is reported with its user, its source and the message cut to 50 characters. */
  lemma ClassifySshTrouble(m: string)
    requires !SshLogin(m) && SshTrouble(m)
    ensures ClassifySsh(m) == Some(PluginEvent(Alert, "SSH EVENT: " + TroubleUser(m),
                                              "from " + TroubleSource(m) + ": " + Truncate(m, 50)))
  {
  }

  // sudo (security-growler.30s.py, parse_sudo_events)

  /** `exclude_patterns`: the plugin's own `lsof` and `log show` calls and its own name. */
  const SudoExcludes: seq<string> := ["/usr/sbin/lsof", "/usr/bin/log show", "security-growler"]

  predicate SudoExcluded(m: string)
  {
    exists k :: 0 <= k < |SudoExcludes| && Contains(m, SudoExcludes[k])
  }

  /** A message is excluded exactly when it mentions one of the three patterns. */
  lemma SudoExcludedMeaning(m: string)
    ensures SudoExcluded(m) <==>
      Contains(m, "/usr/sbin/lsof") || Contains(m, "/usr/bin/log show") || Contains(m, "security-growler")
  {
    assert SudoExcludes[0] == "/usr/sbin/lsof";
    assert SudoExcludes[1] == "/usr/bin/log show";
    assert SudoExcludes[2] == "security-growler";
  }

  /**
   * `user_part.split(":")[-1].strip().split()[-1] if user_part else
   * "unknown"`: the last word after the last colon; `IndexError` when
   * nothing but whitespace follows that colon.
   */
  function SudoUser(userPart: string): (r: Result<string>)
    ensures userPart == "" ==> r == Ok("unknown")
    ensures r.Err? <==> userPart != "" && Words(Strip(AfterLast(userPart, ":"))) == []
    ensures r.Err? ==> r.error == IndexError
    ensures userPart != "" && r.Ok? ==> |r.value| > 0 && NoSpace(r.value)
  {
    if userPart == "" then Ok("unknown")
    else
      var ws := Words(Strip(AfterLast(userPart, ":")));
      if |ws| == 0 then Err(IndexError)
      else
        WordsShape(Strip(AfterLast(userPart, ":")));
        Ok(ws[|ws| - 1])
  }

  /**
   * As written, the user of a standard sudo line is the field after its
   * colon: in `user : TTY=ttys001` the last `:` is the one before `TTY=`, so
   * the reported user is `TTY=ttys001`.
   */
  lemma SudoUserIsTtyField(user: string, field: string)
    requires |field| > 0 && NoSpace(field) && ':' !in field
    ensures SudoUser(user + " : " + field) == Ok(field)
  {
    var part := user + " : " + field;
    assert part == (user + " ") + ":" + (" " + field);
    assert ':' !in " " + field;
    AfterLastChar(user + " ", ":", " " + field);
    assert (" " + field)[1..] == field;
    assert TrimStart(" " + field) == field;
    StripNoop(field);
    WordsSingle(field);
  }

  /** The comment's sample line reports `TTY=ttys001` as the user. */
  lemma SudoUserSample()
    ensures SudoUser("squash : TTY=ttys001") == Ok("TTY=ttys001")
  {
    var field := "TTY=ttys001";
    assert NoSpace(field) && ':' !in field;
    assert "squash : TTY=ttys001" == "squash" + " : " + field;
    SudoUserIsTtyField("squash", field);
  }

  /**
   * The evident intent: the last word before the first colon, which is the
   * user in `user : TTY=...`.
   */
  function IntendedSudoUser(userPart: string): (r: Result<string>)
    ensures userPart == "" ==> r == Ok("unknown")
    ensures r.Err? ==> r.error == IndexError
  {
    if userPart == "" then Ok("unknown")
    else
      var ws := Words(Strip(BeforeFirst(userPart, ":")));
      if |ws| == 0 then Err(IndexError) else Ok(ws[|ws| - 1])
  }

  /** With the intended rule, `user : ...` reports `user`. */
  lemma IntendedSudoUserNamesUser(user: string, rest: string)
    requires |user| > 0 && NoSpace(user) && ':' !in user
    ensures IntendedSudoUser(user + " : " + rest) == Ok(user)
  {
    var part := user + " : " + rest;
    assert part == (user + " ") + ":" + (" " + rest);
    assert ':' !in user + " ";
    SplitFirstPast(user + " ", ":", " " + rest, 0);
    assert TrimStart(user + " ") == user + " ";
    TrimEndKeeps(user, " ");
    WordsSingle(user);
  }

  /** The `tty`, `pwd` and `command` the loop over the ` ; ` parts leaves behind. */
  datatype SudoFields = SudoFields(tty: string, pwd: string, command: string)

  /** A part the `elif` chain reads as the command: `COMMAND=` without `TTY=` or `PWD=`. */
  predicate CommandPart(part: string)
  {
    !Contains(part, "TTY=") && !Contains(part, "PWD=") && Contains(part, "COMMAND=")
  }

  /**
   * The fields after the loop has seen `parts`: each part sets the first of
   * `TTY=`, `PWD=`, `COMMAND=` it mentions to the stripped text after it,
   * and a later part overwrites an earlier one.
   */
  function ScanFields(parts: seq<string>): (f: SudoFields)
    ensures |parts| == 0 ==> f == SudoFields("", "", "")
    ensures f.command == "" || exists j :: 0 <= j < |parts| && CommandPart(parts[j])
    decreases |parts|
  {
    if |parts| == 0 then SudoFields("", "", "")
    else
      var f := ScanFields(parts[..|parts| - 1]);
      var part := parts[|parts| - 1];
      if Contains(part, "TTY=") then f.(tty := Strip(AfterFirst(part, "TTY=")))
      else if Contains(part, "PWD=") then f.(pwd := Strip(AfterFirst(part, "PWD=")))
      else if Contains(part, "COMMAND=") then f.(command := Strip(AfterFirst(part, "COMMAND=")))
      else f
  }

  /**
   * The command is read from the last part that the `elif` chain gives to
   * `COMMAND=`, and is empty when there is no such part.
   */
  lemma {:induction false} ScanFieldsCommand(parts: seq<string>, j: nat)
    requires j < |parts| && CommandPart(parts[j])
    requires forall i :: j < i < |parts| ==> !CommandPart(parts[i])
    ensures ScanFields(parts).command == Strip(AfterFirst(parts[j], "COMMAND="))
    decreases |parts|
  {
    var n := |parts|;
    var init := parts[..n - 1];
    if j < n - 1 {
      forall i | j < i < |init|
        ensures !CommandPart(init[i])
      {
        assert init[i] == parts[i];
      }
      assert init[j] == parts[j];
      ScanFieldsCommand(init, j);
      assert !CommandPart(parts[n - 1]);
    }
  }

  /**
   * `for part in parts: ...` with its `if`/`elif` chain, the variables
   * starting empty.
   */
  method ScanSudoParts(parts: seq<string>) returns (tty: string, pwd: string, command: string)
    ensures SudoFields(tty, pwd, command) == ScanFields(parts)
  {
    tty, pwd, command := "", "", "";
    var i := 0;
    while i < |parts|
      invariant 0 <= i <= |parts|
      invariant SudoFields(tty, pwd, command) == ScanFields(parts[..i])
    {
      var part := parts[i];
      assert parts[..i + 1][..i] == parts[..i];
      if Contains(part, "TTY=") {
        tty := Strip(AfterFirst(part, "TTY="));
      } else if Contains(part, "PWD=") {
        pwd := Strip(AfterFirst(part, "PWD="));
      } else if Contains(part, "COMMAND=") {
        command := Strip(AfterFirst(part, "COMMAND="));
      }
      i := i + 1;
    }
    assert parts[..i] == parts;
  }

  /**
   * The sudo branch of the loop body: excluded messages and messages without
   * ` ; ` give nothing; a failing user lookup raises `IndexError` (caught
   * by the loop, which skips the entry); otherwise an alert `SUDO: <user>`
   * carrying the command cut to 60 characters plus `...`, when there is a
   * command.
   */
  function ClassifySudo(m: string): (r: Result<Option<PluginEvent>>)
    ensures SudoExcluded(m) || !Contains(m, " ; ") ==> r == Ok(None)
    ensures r.Err? ==> r.error == IndexError
    ensures !SudoExcluded(m) && Contains(m, " ; ") ==>
      var parts := SplitAll(m, " ; ");
      var user := SudoUser(parts[0]);
      var command := ScanFields(parts).command;
      && (r.Err? <==> user.Err?)
      && (user.Ok? ==> (r.value.Some? <==> command != ""))
      && (r.Ok? && r.value.Some? ==>
            r.value.value == PluginEvent(Alert, "SUDO: " + user.value, Truncate(command, 60)))
  {
    if SudoExcluded(m) then Ok(None)
    else if !Contains(m, " ; ") then Ok(None)
    else
      var parts := SplitAll(m, " ; ");
      match SudoUser(parts[0])
      case Err(e) => Err(e)
      case Ok(user) =>
        var command := ScanFields(parts).command;
        if command != "" then Ok(Some(PluginEvent(Alert, "SUDO: " + user, Truncate(command, 60))))
        else Ok(None)
  }

  // port scans and FTP (security-growler.30s.py, parse_portscan_events and parse_ftp_events)

  /**
   * The port-scan branch: only `Limiting closed port RST response` is
   * reported, and the body is `Limiting ` followed by what comes after the
   * first `response `.
   */
  function ClassifyPortscan(m: string): (r: Option<PluginEvent>)
    ensures r.Some? <==> Contains(m, "Limiting closed port RST response")
    ensures r.Some? ==> r.value == PluginEvent(Alert, "PORT SCAN DETECTED", "Limiting " + AfterFirst(m, "response "))
  {
    if Contains(m, "Limiting closed port RST response") then
      var rateInfo := if Contains(m, "response ") then AfterFirst(m, "response ") else m;
      Some(PluginEvent(Alert, "PORT SCAN DETECTED", "Limiting " + rateInfo))
    else None
  }

  /** The FTP branch: every non-empty message, cut to 80 characters plus `...`. */
  function ClassifyFtp(m: string): (r: Option<PluginEvent>)
    ensures r.Some? <==> m != ""
    ensures r.Some? ==> r.value.kind == Notify && r.value.title == "FTP Access"
    ensures r.Some? && |m| <= 80 ==> r.value.body == m
    ensures r.Some? && |m| > 80 ==> r.value.body == m[..80] + "..."
  {
    if m != "" then Some(PluginEvent(Notify, "FTP Access", Truncate(m, 80))) else None
  }

  /** The four log collectors. */
  datatype LogKind = SshLog | SudoLog | PortscanLog | FtpLog

  /**
   * One collector's verdict on a message: an event to emit, nothing, or the
   * exception its loop catches.
   */
  function Classify(kind: LogKind, m: string): (r: Result<Option<PluginEvent>>)
    ensures kind != SudoLog ==> r.Ok?
    ensures kind == FtpLog ==> (r.value.Some? <==> m != "")
  {
    match kind
    case SshLog => Ok(ClassifySsh(m))
    case SudoLog => ClassifySudo(m)
    case PortscanLog => Ok(ClassifyPortscan(m))
    case FtpLog => Ok(ClassifyFtp(m))
  }
}

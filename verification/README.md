# security-growler in Dafny

Security Growler watches a Mac for security-relevant activity and announces
it. The activity it watches:

- SSH logins and failures;
- `sudo` commands;
- kernel port-scan rate limiting;
- FTP access;
- new connections on watched TCP ports and on VNC.

This project models the part of it that decides what to announce. There are
three generations of per-line classifiers:

- the `parsers/` package;
- the older copies in `monitors/`;
- the original `parse(line, log_type)` router in `growler.py`.

It also models the bookkeeping of the xbar plugin `security-growler.30s.py`:

- classifying unified-log entries and skipping ids already in `seen_events`;
- diffing the `lsof` connection snapshots kept in `known_connections`;
- building and trimming the log file's lines;
- trimming the saved state to its last 50 events and 500 seen ids.

Python's string operations (`find`, `in`, `split` with and without a limit,
`split()` on whitespace, `strip`, slices, ASCII `lower`, `isdigit`, `int`,
`str`) are written out in `Text.dfy`. The fixed-shape filters such as
`sshd\[\d+\]: ` are explicit predicates in `Patterns.dfy`. Each classifier
returns the `(severity, title, body)` triple of `Events.dfy`, and `Unmatched`
stands for `(None, '', '')`. A Python exception that a classifier can raise
is an `Err` of `Result`.

The plugin's state is the class `PluginState.State`. Its fields are
`seen_events`, `known_connections`, `events` and `last_check`, and its methods
update them in place with loops. Each method is proved against a function of
`PluginDedup`, `PluginDiff` or `PluginPoll`, and the properties are proved
about those functions:

- at most one event per id while that id is among the newest 500 seen ids (the save trims older ids, and an entry whose id was trimmed is announced again if a later log query returns it);
- vanished connections are forgotten;
- a second identical poll emits nothing;
- trimming keeps the newest items in order.

The output of the shell-outs is an input to the model:

- the entries each `log show` query returns;
- the lines `lsof` prints for each port, before the two `grep -v` filters of the command, which the model applies itself.

The clock readings are parameters too.

## Model

| member | source | states |
|---|---|---|
| `Growler.Parse` | growler.py:42-59 | `secure` passes a line iff it contains `sshd[`, or both `sudo` and `failed`. `ftp` passes it iff it contains `ftpd[`. Any other type, `None` included, passes it unchanged. `apache` gives `None` without `GET`; with `GET` it gives the address match, or `AttributeError` when nothing matches. |
| `MonitorsConnections.Parse` | monitors/connections.py:25-32 | A notification exactly when the line has ten tokens; otherwise `(None, '', '')`. |
| `MonitorsConnections.SameAsParsers` | monitors/connections.py:4-32 | On every line and port, the result equals that of `parsers/connections.py`. |
| `MonitorsSsh.PasswordEventShape` | monitors/ssh.py:40 | This module's `PASSWORD_EVENT_FILTER` matches every line holding ` sshd[<digits>]: Accepted keyboard`, and only lines holding both ` sshd[` and `]: Accepted keyboard`. |
| `MonitorsSsh.KeyauthEventShape` | monitors/ssh.py:43 | This module's `KEYAUTH_EVENT_FILTER` matches every line holding ` sshd[<digits>]: Accepted publickey for `, and only lines holding both ` sshd[` and `]: Accepted publickey for `. |
| `MonitorsSsh.LoginMethod` | monitors/ssh.py:88 | `Password` iff the line contains ` keyboard`, else `Public Key`. |
| `MonitorsSsh.Parse` | monitors/ssh.py:81-98 | The severity is `alert` iff the title is non-empty. The title is non-empty iff one of the three filters matches; otherwise `(None, '', '')`. |
| `MonitorsSsh.StricterThanParsers` | monitors/ssh.py:40-43 | Each login filter of this module, with its leading space and required pid, implies the one of `parsers/ssh.py`. Both give the same title on such a line. |
| `MonitorsSsh.LoginReport` | monitors/ssh.py:85-89 | A login is titled with the user after ` for `. A keyboard-interactive match always reports `Password`. A line without ` keyboard` reports `Public Key`. |
| `MonitorsSsh.OtherEventReport` | monitors/ssh.py:92-96 | A non-login sshd event gives exactly `SSH EVENT: <user>` / `from: <src> \| <summary>`. Its title is never empty. |
| `MonitorsSudo.ExcludedMeaning` | monitors/sudo.py:10-14 | A line is excluded exactly when it contains `/usr/sbin/lsof +c 0`, the one pattern of `EXCLUDE_LINES`. |
| `MonitorsSudo.Parse` | monitors/sudo.py:13-26 | A line is handled iff it mentions `sudo` and no excluded pattern, with no `COMMAND` test. It raises `ValueError` iff there are fewer than three ` ; `. A non-empty title is an alert. |
| `MonitorsSudo.AgreesWithParsers` | monitors/sudo.py:14-20 | On lines with `COMMAND`, it agrees with `parsers/sudo.py` using `/Users/`. On lines without `COMMAND`, only this module reports. |
| `ParsersConnections.SourceText` | parsers/connections.py:17 | `port or ''`: empty for `None`, `0` and `''`. A positive port gives its decimal digits. |
| `ParsersConnections.ParseConnection` | parsers/connections.py:6-24 | `None` exactly when the line has fewer than ten tokens. |
| `ParsersConnections.ConnectionTokens` | parsers/connections.py:9-23 | Tokens 1, 2, 3 and 5 are process, pid, user and TCP version. The state is token 10 without its ends. The port is `port or ''`. |
| `ParsersConnections.FirstTenTokens` | parsers/connections.py:7 | Lines that agree on their first ten tokens give the same connection. |
| `ParsersConnections.Addresses` | parsers/connections.py:12-13 | One `->` in token 9 gives `target->source`. No arrow gives the whole token as target and `*` as source. More arrows give the text before the first one as target and `*`. |
| `ParsersConnections.Parse` | parsers/connections.py:27-39 | A notification exactly when the line has ten tokens; otherwise `(None, '', '')`. |
| `ParsersConnections.ParseReport` | parsers/connections.py:28-38 | Exactly `PORT <port> <- <source>` / `<user> <process> (<pid>) @ <target>`, filled from the tokens. |
| `ParsersPortscan.SelectedShape` | parsers/portscan.py:4 | `PORTSCAN_EVENT_FILTER` matches every line holding `kernel[<digits>]: Limiting closed port RST response`, and only lines holding both `kernel[` and `]: Limiting closed port RST response`. |
| `ParsersPortscan.Parse` | parsers/portscan.py:6-11 | Matches iff the line has `kernel[<digits>]: Limiting closed port RST response`. A match is an alert titled `Incoming Portscan Detected`; any other line gives `(None, '', '')`. |
| `ParsersPortscan.ParseBody` | parsers/portscan.py:10 | The body is `Limiting ` and the text after the first `port RST response `. When that is absent, it is `Limiting ` and the whole line. |
| `ParsersSsh.PasswordEventShape` | parsers/ssh.py:4 | `PASSWORD_EVENT_FILTER` matches `sshd` followed by `: Accepted keyboard` or `: Accepted password`, with or without `[<digits>]` between them. It matches only lines holding one of the two phrases. |
| `ParsersSsh.KeyauthEventShape` | parsers/ssh.py:7 | `KEYAUTH_EVENT_FILTER` matches every line holding `sshd[<digits>]: Accepted publickey for `, and only lines holding both `sshd[` and `]: Accepted publickey for `. |
| `ParsersSsh.FailEventShape` | parsers/ssh.py:12 | `FAIL_EVENT_FILTER` matches every line holding ` sshd[<digits>]: `, and only lines holding both ` sshd[` and `]: `. The same filter is at monitors/ssh.py:48. |
| `ParsersSsh.WordAfter` | parsers/ssh.py:15-17 | The result never contains a space. |
| `ParsersSsh.WordAfterMeaning` | parsers/ssh.py:15-17 | With `word` present, the result is the text after its first occurrence up to a space or the end. Without it, the result is the line's first space-delimited token. |
| `ParsersSsh.WordAfterAt` | parsers/ssh.py:15-17 | A space-free word that follows the first `word` and is ended by a space or the end of the line is the result. |
| `ParsersSsh.WordAfterDocstringExample` | parsers/ssh.py:16 | `word_after('a black sheep', 'black')` is `''`, not the `'sheep'` the docstring promises. |
| `ParsersSsh.ParseSummary` | parsers/ssh.py:19-21 | At most 43 characters, always ending in `...`. |
| `ParsersSsh.ParseLine` | parsers/ssh.py:23-34 | The user is `" "` iff there is no ` for `. The source has no space, and is empty without ` from ` and ` by `. |
| `ParsersSsh.ParseLineFields` | parsers/ssh.py:23-34 | The user is the word after ` for `. The source is the word after ` from `, else after ` by `. |
| `ParsersSsh.LoginMethodAlwaysPassword` | parsers/ssh.py:44 | As written, the method is `Password` on every line. |
| `ParsersSsh.IntendedLoginMethod` | parsers/ssh.py:44 | `Password` iff the line contains ` keyboard` or ` password`, else `Public Key`. |
| `ParsersSsh.Parse` | parsers/ssh.py:37-54 | The severity is `alert` iff the title is non-empty. The title is non-empty iff one of the three filters matches; otherwise `(None, '', '')`. The function is total: it never raises. |
| `ParsersSsh.ParseSuccess` | parsers/ssh.py:41-45 | A login (publickey, or password/keyboard) gives `SSH LOGIN SUCCESS: <user>` / `from: <src> using a Password`. |
| `ParsersSsh.ParseOtherEvent` | parsers/ssh.py:48-52 | Any other sshd event gives `SSH EVENT: <user>` / `from: <src> \| <summary>`. Its title is never empty, so the `or` fallback is unreachable. |
| `ParsersSudo.HomePrefix` | parsers/sudo.py:2-6 | `/Users/` iff the platform name is exactly `Darwin`, else `/home/`. |
| `ParsersSudo.HomePrefixOnMacOS` | parsers/sudo.py:3 | On macOS, whose platform name is `darwin`, the prefix is `/home/`. |
| `ParsersSudo.IntendedHomePrefix` | parsers/sudo.py:3-6 | `/Users/` iff the platform is `darwin`. |
| `ParsersSudo.ParseRecord` | parsers/sudo.py:17-22 | `ValueError` iff the line has fewer than three ` ; `. The user never contains a space. |
| `ParsersSudo.ParseRecordFields` | parsers/sudo.py:17-22 | For a line of four fields joined by ` ; `, where no ` ; ` starts inside the first three: the user is the last word before the first ` : `, and the terminal the stripped text after `TTY=`. The command is everything after `COMMAND=` in the rest of the line, further ` ; ` included. The directory is the text after `PWD=` with everything through the first home prefix removed. |
| `ParsersSudo.FourFields` | parsers/sudo.py:17 | `split(' ; ', 3)` of four fields joined by ` ; `, where no ` ; ` starts inside the first three, gives back the four fields. |
| `ParsersSudo.RecordShape` | parsers/sudo.py:17 | Every line with at least three ` ; ` is four such fields joined by ` ; `, so the two rows above cover every line `parse` can unpack. |
| `ParsersSudo.MacOSDirectory` | parsers/sudo.py:3-6 | On `darwin`, a record with `PWD=/Users/squash` reports `/Users/squash` as written, and `squash` with the intended prefix. |
| `ParsersSudo.Report` | parsers/sudo.py:12-13 | Always an alert with a non-empty title. |
| `ParsersSudo.Parse` | parsers/sudo.py:10-28 | A line is handled iff it has `sudo` and `COMMAND` and not `/usr/sbin/lsof +c 0`; otherwise `(None, '', '')`. A handled line raises `ValueError` iff it has fewer than three ` ; `. |
| `ParsersSudo.ParseFields` | parsers/sudo.py:15-26 | A handled line of four fields joined by ` ; `, where no ` ; ` starts inside the first three, gives exactly `SUDO EVENT: <user> [<tty>]` / `<command>\n@ <pwd>`, with the fields above. |
| `ParsersVnc.Parse` | parsers/vnc.py:6-13 | A result exactly when `parse_connection` gives one, always an alert; otherwise `(None, '', '')`. |
| `ParsersVnc.SameLinesAsPorts` | parsers/vnc.py:7-9 | Reports the same lines as the port classifier, as alerts instead of notifications. |
| `ParsersVnc.ParseReport` | parsers/vnc.py:9-12 | Exactly `VNC CONNECTED <source>` / `To: <user> <process> (<pid>) -> <target>`. |
| `PluginConfig.EnvFlag` | security-growler.30s.py:51-55 | An unset variable turns a monitor on. |
| `PluginConfig.EnvFlagMeaning` | security-growler.30s.py:51-55 | Samples: `TRUE`, `True` and `true` turn a monitor on; `false`, `''` and `1` turn it off. |
| `PluginConfig.EnvFlagExactly` | security-growler.30s.py:51-55 | A set variable turns a monitor on exactly when its value is `true` spelled in any mix of letter cases; every other value turns it off. |
| `PluginConfig.PortsOf` | security-growler.30s.py:59 | At most one port per comma-separated field. |
| `PluginConfig.PortsToMonitor` | security-growler.30s.py:59 | At most one port per comma-separated field of `MONITORED_PORTS`. |
| `PluginConfig.PortsOfFields` | security-growler.30s.py:59 | A field that is a number once stripped becomes that port, in order; any other field is skipped. |
| `PluginConfig.PortsToMonitorRendered` | security-growler.30s.py:59 | A `MONITORED_PORTS` value that is the decimal port numbers joined by commas watches exactly those ports, in order. |
| `PluginConfig.DefaultPorts` | security-growler.30s.py:56-59 | The default setting gives `[21, 445, 548, 3306, 3689, 5432]`. |
| `PluginConfig.PortName` | security-growler.30s.py:522 | The name in `PORT_NAMES`, else the port's decimal digits. |
| `PluginConfig.WellKnownPortNames` | security-growler.30s.py:62-71 | `PORT_NAMES` names 21 FTP, 22 SSH, 445 SMB, 548 AFP, 3306 MySQL, 3689 iTunes, 5432 PostgreSQL and 5900 VNC. |
| `PluginClassify.EntryId` | security-growler.30s.py:280 | `eventID`, else `traceID`, else `str(entry)`. |
| `PluginClassify.Message` | security-growler.30s.py:284 | `eventMessage`, else `""`. |
| `PluginClassify.WordAfterMarker` | security-growler.30s.py:291-294 | Empty without the marker. Otherwise the space-free text after the first marker, ended by a space or the end of the message. |
| `PluginClassify.SshMethod` | security-growler.30s.py:296 | `Public Key` iff the message contains `publickey`, else `Password`. |
| `PluginClassify.TroubleUser` | security-growler.30s.py:314 | The word after ` for `, or `unknown` when that is empty. |
| `PluginClassify.TroubleSource` | security-growler.30s.py:306-311 | The word after ` from `, else the word after ` by `. |
| `PluginClassify.ClassifySsh` | security-growler.30s.py:287-317 | An event iff the message is a login or a failure/error (any case of `error`). Every such event is an alert. |
| `PluginClassify.ClassifySshLogin` | security-growler.30s.py:287-299 | A login gives exactly `SSH LOGIN: <user>` / `from <src> via <method>`. |
| `PluginClassify.ClassifySshTrouble` | security-growler.30s.py:302-316 | A non-login failure gives exactly `SSH EVENT: <user or unknown>` / `from <src>: <message cut to 50 + ...>`. |
| `PluginClassify.SudoUser` | security-growler.30s.py:358 | `unknown` for an empty first part. `IndexError` iff only whitespace follows the last colon. Otherwise one non-empty, space-free word. |
| `PluginClassify.SudoUserIsTtyField` | security-growler.30s.py:358 | On `user : FIELD`, the reported user is `FIELD`, not `user`. |
| `PluginClassify.SudoUserSample` | security-growler.30s.py:353-358 | For the format in the comment, `squash : TTY=ttys001`, the user is `TTY=ttys001`. |
| `PluginClassify.IntendedSudoUser` | security-growler.30s.py:358 | `unknown` for an empty first part; `IndexError` is its only error. |
| `PluginClassify.IntendedSudoUserNamesUser` | security-growler.30s.py:358 | With the intended rule, `user : ...` reports `user`. |
| `PluginClassify.ScanFields` | security-growler.30s.py:360-370 | No parts leave all three fields empty. A non-empty command comes from a part that the `elif` chain gives to `COMMAND=`. |
| `PluginClassify.ScanFieldsCommand` | security-growler.30s.py:364-370 | The command is the stripped text after `COMMAND=` in the last part given to `COMMAND=`. |
| `PluginClassify.ScanSudoParts` | security-growler.30s.py:364-370 | The loop over the parts leaves the fields `ScanFields` describes. |
| `PluginClassify.SudoExcludedMeaning` | security-growler.30s.py:339-349 | A message is excluded exactly when it contains `/usr/sbin/lsof`, `/usr/bin/log show` or `security-growler`. |
| `PluginClassify.ClassifySudo` | security-growler.30s.py:349-378 | Excluded messages and messages without ` ; ` give nothing. `IndexError` iff the user lookup fails. Otherwise an event iff the command is non-empty, exactly `SUDO: <user>` / `<command cut to 60 + ...>`. |
| `PluginClassify.ClassifyPortscan` | security-growler.30s.py:408-413 | An event iff the message contains `Limiting closed port RST response`: `PORT SCAN DETECTED` / `Limiting <text after the first response >`. |
| `PluginClassify.ClassifyFtp` | security-growler.30s.py:439-442 | A notification `FTP Access` iff the message is non-empty. Its body is the message, cut to 80 characters plus `...` when longer. |
| `PluginClassify.Classify` | security-growler.30s.py:279-445 | Only the sudo rule can fail. FTP reports exactly the non-empty messages. |
| `PluginDedup.StepEntry` | security-growler.30s.py:280-300 | A seen id changes nothing. A new id whose message gives an event appends the event and the id. A message that gives none changes nothing. |
| `PluginDedup.LogPass` | security-growler.30s.py:279-319 | `seen_events` only grows, by exactly one id per event found. |
| `PluginDedup.LogPassFresh` | security-growler.30s.py:281-282 | The ids a pass records were not seen before, and none is recorded twice. |
| `PluginDedup.LogPassDistinct` | security-growler.30s.py:281-300 | A `seen_events` list without repeats stays without repeats. |
| `PluginDedup.RecordsCovered` | security-growler.30s.py:281-300 | Every id a pass records belongs to an entry that gave an event, so it lies in any list that covers the entries. |
| `PluginDedup.LogPassOrigins` | security-growler.30s.py:279-317 | Each event found is what some entry's message gave, and that entry's id is recorded at the same position. |
| `PluginDedup.LogPassCovers` | security-growler.30s.py:279-317 | After a pass every entry is seen or gives no event. |
| `PluginDedup.CoveredGrows` | security-growler.30s.py:281-282 | Recording more ids keeps entries covered. |
| `PluginDedup.CoveredPassIsSilent` | security-growler.30s.py:281-282 | A pass over covered entries finds nothing and records nothing. |
| `PluginDedup.RerunIsSilent` | security-growler.30s.py:279-317 | A second pass over the same entries emits nothing and records nothing. |
| `PluginDiff.Prior` | security-growler.30s.py:516-517 | The list under a key, or empty when the key is missing. |
| `PluginDiff.IdSet` | security-growler.30s.py:510-513 | Holds the id of every current connection. |
| `PluginDiff.IdSetMembers` | security-growler.30s.py:510-513 | Every id in the set is the id of a current connection. |
| `PluginDiff.ScanIds` | security-growler.30s.py:511-528 | The list only grows, by exactly one id per event. |
| `PluginDiff.KeepIn` | security-growler.30s.py:532 | Keeps exactly the listed ids that are current. |
| `PluginDiff.ScanIdsNew` | security-growler.30s.py:511-520 | Each appended id is new, and the list ends as the old ids plus this poll's ids. |
| `PluginDiff.ScanIdsOrigins` | security-growler.30s.py:519-528 | Each event renders a connection whose id is appended at the same position. |
| `PluginDiff.ScanOfKnownIds` | security-growler.30s.py:519 | Connections whose ids are all listed give nothing. |
| `PluginDiff.PortDiff` | security-growler.30s.py:510-532 | No other key is touched. The key exists afterwards iff it existed or there was a connection. The events are the scan's. |
| `PluginDiff.FreshIds` | security-growler.30s.py:519-520 | One new id per event. |
| `PluginDiff.DiffKeepsCurrent` | security-growler.30s.py:530-532 | After a poll, the list under the key holds exactly this poll's ids: vanished ids are forgotten. |
| `PluginDiff.DiffKeepsDistinct` | security-growler.30s.py:519-532 | The list under the key stays without repeats. |
| `PluginDiff.DiffFreshIds` | security-growler.30s.py:519-520 | The new ids are distinct, and are exactly this poll's ids that were not listed. |
| `PluginDiff.DiffEmitsFresh` | security-growler.30s.py:519-528 | Exactly one event per new id, rendering the connection that carries it. |
| `PluginDiff.DiffSettles` | security-growler.30s.py:530-532 | After a poll, the watch matches this poll's connections. |
| `PluginDiff.SettledIsFixpoint` | security-growler.30s.py:510-532 | Polling a settled watch emits nothing and changes nothing. |
| `PluginDiff.SecondDiffIsSilent` | security-growler.30s.py:510-532 | An identical second poll of a watch emits nothing and changes nothing. |
| `PluginDiff.DiffKeepsOthersSettled` | security-growler.30s.py:531-532 | Polling one watch leaves every other watch as settled as it was. |
| `PluginDiff.Conns` | security-growler.30s.py:507 | The connections read for a port from its filtered `lsof` lines; every one carries that port. |
| `PluginDiff.PortsPass` | security-growler.30s.py:505-534 | The ports loop touches no key other than the decimal port keys. |
| `PluginDiff.PortsPassSettles` | security-growler.30s.py:505-534 | After the loop, every configured port matches its current connections. |
| `PluginDiff.SettledPortsAreSilent` | security-growler.30s.py:505-534 | When every configured port is settled, the loop emits nothing and changes nothing. |
| `PluginLog.Marker` | security-growler.30s.py:116 | `!!` iff the event is an alert, else `>>`. |
| `PluginLog.LineHead` | security-growler.30s.py:117 | Starts with `[` and ends with the colon after the title. |
| `PluginLog.LogLine` | security-growler.30s.py:117-122 | The stored line is the head followed, when the body has any non-space, by a space and the body with its trailing whitespace removed; otherwise it is the head alone. |
| `PluginLog.LogLineShape` | security-growler.30s.py:122 | `strip()` keeps the head whole and removes only the trailing newline and the body's trailing whitespace, for every body. |
| `PluginLog.LogFile.constructor` | security-growler.30s.py:121 | The log file holds the existing lines. |
| `PluginLog.LogFile.Append` | security-growler.30s.py:122-123 | Appends the line and keeps the last 1000. The new line is last, and there are at most 1000. |
| `PluginLog.NewLines` | security-growler.30s.py:612-613 | One log line per event. |
| `PluginLog.AppendAll` | security-growler.30s.py:602-613 | Appending any lines leaves at most 1000. |
| `PluginLog.AppendNextLine` | security-growler.30s.py:613 | Logging one more event appends its line and trims. |
| `PluginLog.AppendAllIsTail` | security-growler.30s.py:122-123 | Trimming after each line equals trimming once: the newest 1000 of the old lines followed by the new ones. |
| `PluginLog.AppendAllEndsWithAdded` | security-growler.30s.py:123 | With at most 1000 new lines, the log ends with exactly them, in order. |
| `PluginLsof.ParseLsofLine` | security-growler.30s.py:466-487 | A connection iff the line has at least nine columns. Process, pid and user are columns 1-3, and the name is the last column. The name splits at its first `->` into local and remote, with remote `""` when there is no arrow. |
| `PluginLsof.LsofConnections` | security-growler.30s.py:466-491 | At most one connection per line, each carrying the port. |
| `PluginLsof.LsofConnectionsFromLines` | security-growler.30s.py:466-491 | Every connection comes from one of the filtered lines. No such line with nine columns is lost, and none without them is kept. |
| `PluginLsof.GetPortConnections` | security-growler.30s.py:452-491 | The loop over the lines the filters keep returns exactly `PortConnections` of the output. |
| `PluginLsof.GrepLsof` | security-growler.30s.py:454 | At most as many lines as the output, and every kept line passes both filters. |
| `PluginLsof.GrepLsofConcat` | security-growler.30s.py:454 | The filters act line by line: filtering a concatenation filters each part. |
| `PluginLsof.GrepLsofMembers` | security-growler.30s.py:454 | A line is kept iff it is an output line that starts with neither `COMMAND` nor `launchd `. |
| `PluginLsof.HeaderDropped` | security-growler.30s.py:454 | `lsof`'s nine-column header line is dropped. |
| `PluginLsof.LaunchdDropped` | security-growler.30s.py:454 | Every line starting with `launchd ` is dropped. |
| `PluginLsof.PortConnections` | security-growler.30s.py:452-491 | At most one connection per output line, each carrying the port. |
| `PluginLsof.PortConnectionsOrigins` | security-growler.30s.py:454-491 | Every connection comes from an output line that both filters keep. |
| `PluginLsof.DroppedLineIgnored` | security-growler.30s.py:454 | A line either filter drops changes nothing, wherever it stands in the output. |
| `PluginLsof.ConnId` | security-growler.30s.py:512 | `process:pid:remote`, with the two colons at their positions. |
| `PluginLsof.ConnIdDistinguishes` | security-growler.30s.py:512 | For colon-free process names and pids, ids are equal iff process, pid and remote agree. |
| `PluginLsof.WatchKey` | security-growler.30s.py:506 | A decimal key for a port, and `vnc_5900` for VNC. |
| `PluginLsof.WatchKeysDiffer` | security-growler.30s.py:546 | Different watches use different keys. |
| `PluginLsof.WatchPort` | security-growler.30s.py:545 | VNC is port 5900. |
| `PluginLsof.Render` | security-growler.30s.py:522-526 | An alert iff the watch is VNC. A port is titled `PORT <n> (<name>)` and VNC `VNC CONNECTION`. The body names user, process and pid, then ` <- remote` (ports) or ` from remote` (VNC) when the remote end is known. |
| `PluginPoll.LogStage` | security-growler.30s.py:269-270 | A collector that is off changes nothing. Otherwise it only adds events and seen ids. |
| `PluginPoll.PortStage` | security-growler.30s.py:499-500 | Off changes nothing; on only adds events and leaves `seen_events` alone. |
| `PluginPoll.VncConns` | security-growler.30s.py:545-548 | The connections read from the filtered `lsof` lines for port 5900; every one is on port 5900. |
| `PluginPoll.VncStage` | security-growler.30s.py:540-541 | Off changes nothing; on only adds events and leaves `seen_events` alone. |
| `PluginPoll.LogStages` | security-growler.30s.py:586-589 | The log collectors never touch `known_connections`. |
| `PluginPoll.Poll` | security-growler.30s.py:581-595 | `seen_events` only grows. |
| `PluginPoll.CoveredStageIsSilent` | security-growler.30s.py:281-282 | A collector whose entries are covered finds nothing. |
| `PluginPoll.QuietPollIsSilent` | security-growler.30s.py:581-595 | A poll over inputs that are already accounted for emits nothing and changes nothing. |
| `PluginPoll.StageCovers` | security-growler.30s.py:281-282 | After a collector, its entries stay covered by any longer `seen_events`. |
| `PluginPoll.LogStagesCover` | security-growler.30s.py:586-589 | After the log collectors, each enabled collector's entries are covered. |
| `PluginPoll.PollQuiets` | security-growler.30s.py:581-595 | After a poll, everything its inputs hold is accounted for. |
| `PluginPoll.SecondPollIsSilent` | security-growler.30s.py:581-595 | An identical second poll emits nothing and leaves both structures as the first left them. |
| `PluginPoll.SavedStateRepeatsOnlyTrimmed` | security-growler.30s.py:105-107 | Polling the same inputs again from the saved state (the last 500 seen ids) leaves `known_connections` as it was. Every id it records was seen by the first poll and trimmed by the save, and it emits exactly one event per such id. |
| `PluginPoll.StageRepeatsOnly` | security-growler.30s.py:281-300 | A collector whose entries a list `full` covers records only ids of `full` that it had not seen, one per event. |
| `PluginPoll.PollRecordsFreshIds` | security-growler.30s.py:581-595 | A `seen_events` list without repeats stays without repeats through a poll. |
| `PluginPoll.StageDistinct` | security-growler.30s.py:281-300 | One collector keeps `seen_events` without repeats. |
| `PluginState.Stored` | security-growler.30s.py:602-610 | One stored entry per event. |
| `PluginState.KeepCurrent` | security-growler.30s.py:532 | The loop keeps exactly what `KeepIn` keeps. |
| `PluginState.State.constructor` | security-growler.30s.py:94-99 | The state with no file yet: no check time and empty lists and map. |
| `PluginState.State.CollectLog` | security-growler.30s.py:279-317 | The loop updates `seen_events` and returns events exactly as `LogPass`, touching nothing else. |
| `PluginState.State.DiffConnections` | security-growler.30s.py:510-532 | The loop and the clean-up update `known_connections` and return events exactly as `PortDiff`. |
| `PluginState.State.ScanConnections` | security-growler.30s.py:510-528 | Returns the current ids and the scan's events. The key's list becomes the scan's list, and other keys are unchanged. |
| `PluginState.State.Remember` | security-growler.30s.py:516-520 | Creates the key's list when missing and appends the id iff it was not listed. |
| `PluginState.State.ParsePortEvents` | security-growler.30s.py:497-535 | Exactly `PortsPass` when port monitoring is on; nothing when it is off. |
| `PluginState.State.ParseVncEvents` | security-growler.30s.py:538-574 | Exactly `PortDiff` on `vnc_5900` when VNC monitoring is on; nothing when it is off. |
| `PluginState.State.CollectLogs` | security-growler.30s.py:586-589 | Exactly the four log collectors of `LogStages`. |
| `PluginState.State.CollectAllEvents` | security-growler.30s.py:581-595 | The new state and the events are exactly those of `Poll`. |
| `PluginState.State.RecordEvents` | security-growler.30s.py:602-613 | Appends one stored entry and one log line per event, in order. |
| `PluginState.State.RecordEvent` | security-growler.30s.py:603-613 | Stores the event with its clock readings, and appends its line to the log, keeping 1000 lines. |
| `PluginState.State.Save` | security-growler.30s.py:105-107 | Keeps the last 50 events and the last 500 seen ids, in order. |
| `PluginState.State.Run` | security-growler.30s.py:698-714 | Four results: `seen_events` and `known_connections` are those of `Poll` (seen ids trimmed to 500); the events gain the poll's new events and are trimmed to 50; the check time is `now`; the log gains one line per new event. |

## Left out

- Running `log show` and `lsof`, and decoding `log show`'s JSON, are not modelled: they are I/O. Their results are inputs, `Sources` in `PluginPoll`. A failing command, which gives an empty list, is the empty input.
- Entry ids are strings. `eventID` and `traceID` can be JSON numbers, and `str(entry)` of a dictionary is only an input string here.
- Notifications (`send_notification` and its back-ends), the xbar menu printing of `format_xbar_output` after its first loop, and the loggers are not modelled: they print or call foreign code.
- The state file's JSON reading and writing are not modelled. `load_state` is modelled only for a missing or unreadable file, and `IOError` in `log_event` is dropped.
- `main`'s exception handler is not modelled.
- Clock readings (`datetime.now()`) are parameters.
- `PluginLog.LogFile` holds the file's lines. The model does not cover `splitlines`, or writing them back joined with newlines.
- `Text.Tail(xs, n)` is `xs[-n:]` only for positive `n`. The plugin uses it only with 50, 500 and 1000.
- Python's `\d` and `isdigit` also accept non-ASCII decimal digits, and `lower()` also lowers non-ASCII letters. Only ASCII digits and ASCII lowering are modelled. In the menu-bar plugin, which is Python 3 code on `str`, whitespace for `split()` and `strip()` is the set of characters Python 3 treats as whitespace.
- `Growler.Parse`: the IP-address regular expression of the `apache` branch is the parameter `ipSearch`, not a regex engine. The Growl notifications and the file-tail loop of `growler.py` are left out.
- `MonitorsSsh.LoginReport`: the comment samples at monitors/ssh.py:39, 42 and 47 are not evaluated as literals. The verifier cannot decide character search on literals that long within its resource bound. The general lemmas that cover them are `LoginReport`, `OtherEventReport`, `ParsersSsh.ParseLineFields` and `ParsersSsh.WordAfterAt`.
- `ParsersPortscan.ParseBody`: the sample at parsers/portscan.py:3 is not evaluated as a literal, for the same reason. `ParseBody` states the rule for every line.
- `MonitorsSudo.AgreesWithParsers`: the sample at monitors/sudo.py:3 is not evaluated as a literal, for the same reason. `ParsersSudo.ParseRecordFields` and `ParsersSudo.ParseFields` state the fields for every line of that shape. `ParsersSudo.MacOSDirectory` evaluates its `PWD=/Users/squash` field under both prefixes.
- `monitors/ssh.py`'s `get_logs`, `get_monitors` and `main`, `monitors/logfile.py`, `sources/`, `loggers/`, `settings.py` and `test.py` are not part of this model. They are I/O loops, dynamic imports and constants.
- `word_after`, `parse_summary` and `parse_line` of `monitors/ssh.py` are textually the same as in `parsers/ssh.py`, and are modelled once, in `ParsersSsh`. Likewise `parse_connection` of `monitors/connections.py` is modelled once, in `ParsersConnections`.
- The older package (`growler.py`, `parsers/`, `monitors/`) is Python 2 code working on byte strings. It is modelled with Python 3 `str` semantics: `split()` and `strip()` use the Python 3 whitespace set rather than only space, tab, newline, vertical tab, form feed and carriage return, and slices such as `[:40]` in parsers/ssh.py:21 count characters rather than bytes. Input with non-ASCII whitespace or multi-byte characters can therefore split or cut differently than under Python 2.
- `PluginPoll.Sources`: the model reads one `lsof` output per port per run, so a port listed twice in `MONITORED_PORTS` sees the same lines both times, where the plugin runs `lsof` again and could see a different snapshot.

## Findings

The three behaviours below are what the program does, so the classifiers that
use them keep the as-written definitions. The corrected definitions stand
beside them, with the intended property proved.

| source | as written | input that shows it | evidently intended | confidence | as-written member | corrected member |
|---|---|---|---|---|---|---|
| parsers/ssh.py:44 | The method test is a non-empty string literal `or` a membership test, so it is always true | any public-key login, e.g. `x sshd[1]: Accepted publickey for root from ::1`, is reported `using a Password` | `Password` only when the line says ` keyboard` or ` password`, else `Public Key` | not executed | `ParsersSsh.LoginMethodAlwaysPassword` | `ParsersSsh.IntendedLoginMethod` |
| parsers/sudo.py:3-6 | The home prefix is `/Users/` only when `sys.platform == "Darwin"` | on macOS `sys.platform` is `darwin`, so `/home/` is used and `PWD=/Users/squash` is reported as `/Users/squash` (`ParsersSudo.MacOSDirectory` shows this and the intended `squash`) | `/Users/` on macOS | not executed | `ParsersSudo.HomePrefixOnMacOS` | `ParsersSudo.IntendedHomePrefix` |
| security-growler.30s.py:358 | The sudo user is the last word after the LAST colon of the first ` ; ` part | `squash : TTY=ttys001` reports the user `TTY=ttys001` | the word before the first ` : `, i.e. `squash` | not executed | `PluginClassify.SudoUserIsTtyField` | `PluginClassify.IntendedSudoUserNamesUser` |

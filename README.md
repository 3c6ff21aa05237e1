# Circle9 backend core in Dafny

Circle9 is a desktop file manager that moves files between a Windows machine
and a Linux host over SSH/SFTP. This project models the core of its Rust
backend and proves properties of the model:

- **copy agent**: the transfer queue, the table of active transfers, the
  chunked Windows-to-Linux copy, cancel and retry, and the limit of three
  concurrent transfers (`copy_agent.dfy`, a class over a `map` and a `seq`);
- **SSH client**: the registry of open connections, keyed by
  `user@host:port`, with the steps and error messages of opening a session
  (`ssh_client.dfy`, a class over a `map`);
- **Linux file operations**: listing, upload and download in 8192-byte
  chunks with progress events, deletion, and reading and setting
  permissions (`linux_files.dfy`);
- **case agent**: detecting names that differ only in letter case,
  generating `stem_N.ext` names, the conflict log and its counters
  (`case_agent.dfy`, a class);
- **permission agent**: Windows attributes ↔ the nine Unix permission bits
  ↔ the octal mode number (`permission_agent.dfy`);
- **audit log**: building entries, parsing operation names, reading back
  the JSON-lines log with a limit, and statistics (`audit_log.dfy`);
- **path validation** and the id newtypes (`utils.dfy`, `types.dfy`);
- supporting modules: `wrappers.dfy` (Option/Result), `digits.dfy`
  (decimal and octal rendering with its round trip), `strings.dfy`
  (lowercasing of the Latin-1 letters, last index), `paths.dfy` (path components as the
  Windows build reads them, file name, stem and extension), `errors.dfy` (the backend's error enum).

Whatever the backend receives from the outside world is a parameter of the
model: clocks (`now`), UUIDs, the current user, the outcome of each SSH/SFTP
call, the bytes read from a file, whether a path exists, and the JSON parser
of a log line. So each property holds for every outcome the outside world
can produce.

Paths are read the way the Windows build of the backend reads them:
`/` and `\` both separate components, and a leading drive letter (`C:`) is a
prefix, not a name. This holds for Windows paths and for the remote Linux
paths the backend handles, since both go through `std::path::Path` on the
Windows host.

The model follows the code as written, also where it behaves differently
from what its names and comments suggest:

- The transfer queue is served newest first. `create_transfer_task` and
  `retry_transfer` push onto the back, and `get_next_queued_task` pops from
  the back, so the queue is a stack. `CopyAgent.NewestQueuedFirst` proves it.
- `start_transfer` writes Completed or Failed over whatever status the task
  has when the copy ends. A transfer cancelled while it is copying is
  therefore reported as Completed (`CopyAgent.CancelDuringCopyIsOverwritten`).
- `read_entries(Some(0))` returns the first entry, not none: the limit is
  checked only after an entry has been pushed.
- Two lines of the Rust do not compile as written. The model follows their
  evident intent:
  - the return type at `copy_agent.rs:264` lacks its closing `>`;
  - `copy_from_linux` names the progress total `total_bytes` at
    `linux_files.rs:205`, which is the `total_size` read from the stat.

## Model

| member | source | states |
|---|---|---|
| CopyAgent.TransferOutcome | src-tauri/src/copy_agent.rs:147-154 | downloads always fail with "not implemented yet"; an upload succeeds iff none of its steps fails, and a failed upload's error is the message of the step that failed |
| CopyAgent.DirectionLabel | src-tauri/src/copy_agent.rs:280-283 | "upload" iff Windows-to-Linux, "download" iff Linux-to-Windows |
| CopyAgent.ParseDirection | src-tauri/src/copy_agent.rs:341-345 | accepts exactly the two direction names and maps each to its direction; anything else gives the invalid-direction error |
| CopyAgent.InProgressIds | src-tauri/src/copy_agent.rs:107-112 | an id is in the set iff the table holds a task under it whose status is InProgress |
| CopyAgent.StartedTask | src-tauri/src/copy_agent.rs:131-175 | a started task keeps its identity, size and creation time, gets its start time, and ends Completed (with completion time) iff the copy succeeded, else Failed with the copy's error; a download always fails; bytes transferred are the sum of the chunks read |
| CopyAgent.AfterStart | src-tauri/src/copy_agent.rs:131-175 | starting a transfer changes only that task's entry, keeps the key set, leaves an unknown id without effect and keeps every entry filed under its own id |
| CopyAgent.StartNeverAddsRunning | src-tauri/src/copy_agent.rs:107-118 | after a transfer has run, the set of running transfers is the old set minus that task, so the concurrency count never grows |
| CopyAgent.CopyAgent.constructor | src-tauri/src/copy_agent.rs:59-65 | empty table and queue, at most 3 concurrent transfers |
| CopyAgent.CopyAgent.CreateTransferTask | src-tauri/src/copy_agent.rs:68-102 | when the size can be read, a Pending task with zero progress is stored under its id and the id is pushed onto the queue; when it cannot, the error is returned and nothing changes |
| CopyAgent.CopyAgent.GetNextQueuedTask | src-tauri/src/copy_agent.rs:125-128 | an empty queue gives None; otherwise the last id is removed and returned |
| CopyAgent.CopyAgent.MarkInProgress | src-tauri/src/copy_agent.rs:137-144 | an unknown id changes nothing; otherwise the task becomes InProgress with its start time and a copy is returned |
| CopyAgent.CopyAgent.CopyWindowsToLinux | src-tauri/src/copy_agent.rs:178-248 | the result is the run's outcome; the task's bytes transferred become the running sum of the chunks read, and nothing else changes |
| CopyAgent.CopyAgent.FinishTransfer | src-tauri/src/copy_agent.rs:157-171 | success sets Completed and the completion time; failure sets Failed and the error message; an unknown id changes nothing |
| CopyAgent.CopyAgent.StartTransfer | src-tauri/src/copy_agent.rs:131-175 | always Ok; the table becomes `AfterStart` of the old one and the queue is untouched |
| CopyAgent.CopyAgent.ProcessQueueStep | src-tauri/src/copy_agent.rs:107-118 | with 3 or more transfers running, or an empty queue, nothing happens; otherwise the newest queued task is popped and run; the running count never grows |
| CopyAgent.CopyAgent.GetTransferProgress | src-tauri/src/copy_agent.rs:264-293 | None iff the task is unknown; otherwise the task's counters, its status, the file name of the source path (or "unknown") and the direction label |
| CopyAgent.CopyAgent.GetActiveTransfers | src-tauri/src/copy_agent.rs:296-299 | every task in the table exactly once, each equal to its entry |
| CopyAgent.CopyAgent.CancelTransfer | src-tauri/src/copy_agent.rs:302-308 | always Ok; a known task becomes Cancelled and nothing else changes |
| CopyAgent.CopyAgent.RetryTransfer | src-tauri/src/copy_agent.rs:311-325 | always Ok; a known task goes back to Pending with zero progress and no error; the id is pushed onto the queue even when unknown |
| CopyAgent.CreateTransferTaskCommand | src-tauri/src/copy_agent.rs:336-349 | an unknown direction is refused before anything changes; otherwise the agent's create-task operation runs with the parsed direction |
| CopyAgent.NewestQueuedFirst | src-tauri/src/copy_agent.rs:125-128 | of two tasks queued one after the other, the second is served first |
| CopyAgent.CancelDuringCopyIsOverwritten | src-tauri/src/copy_agent.rs:157-171 | a task cancelled while its upload runs ends as Completed |
| SshClient.ConnectionKey | src-tauri/src/ssh_client.rs:42 | the key is the `ConnectionId::new` text: the user name, then the host read back at its place, and the port in decimal after the last colon |
| SshClient.ChooseAuth | src-tauri/src/ssh_client.rs:64-73 | a key file when one is given, else the password, else the no-authentication-method error, and the error only then |
| SshClient.OpenSession | src-tauri/src/ssh_client.rs:53-81 | succeeds iff every step succeeds and an authentication method exists; the first failing step names the error; a failed authentication names the method tried |
| SshClient.Touch | src-tauri/src/ssh_client.rs:102-110 | same keys; only the touched entry's last activity changes |
| SshClient.SshClient.constructor | src-tauri/src/ssh_client.rs:34-39 | no connections; keepalive every 60 seconds |
| SshClient.SshClient.Connect | src-tauri/src/ssh_client.rs:41-100 | a registered key is answered as is; otherwise the session steps decide: on failure their error and no change, on success the connection is stored under its key |
| SshClient.SshClient.GetConnection | src-tauri/src/ssh_client.rs:102-110 | None iff the id is unknown; otherwise the entry's last activity is refreshed and the refreshed entry returned |
| SshClient.SshClient.Disconnect | src-tauri/src/ssh_client.rs:112-115 | the id is removed, whether it was there or not |
| SshClient.SshClient.IsConnected | src-tauri/src/ssh_client.rs:150-153 | true iff the id is registered |
| SshClient.SshClient.ListConnections | src-tauri/src/ssh_client.rs:155-158 | every registered id exactly once and nothing else |
| SshClient.ConnectIsIdempotent | src-tauri/src/ssh_client.rs:45-50 | after a successful connect, connecting again with the same configuration returns the same id whatever the second session would do |
| Ids.NewConnectionId | src-tauri/src/types.rs:8-10 | the id is the user name, `@`, the host, `:` and the decimal port, each read back at its place (length, slices); the text after the last colon is the port even for a host with colons |
| Ids.DecimalHasNoColon | src-tauri/src/types.rs:9 | a decimal port never contains a colon |
| Ids.PortReadBack | src-tauri/src/types.rs:8-10 | the port can be parsed back from the id, with no leading zeros |
| Ids.ConnectionIdFrom | src-tauri/src/types.rs:17-21 | the wrapped id reads back as the given text |
| Ids.TaskIdFrom | src-tauri/src/types.rs:36-40 | the wrapped id reads back as the given text |
| Utils.ValidatePath | src-tauri/src/utils.rs:28-40 | Ok iff there is no `..` component and canonicalisation succeeds, with the canonical path; a `..` component gives the traversal error; a canonicalisation failure is reported as an invalid path |
| Utils.RefusalIgnoresFilesystem | src-tauri/src/utils.rs:32-34 | a path with `..` is refused the same way whatever the filesystem would answer, with message "Invalid path: Path traversal detected" |
| Utils.ParentDirOfJoin | src-tauri/src/utils.rs:32 | joining two paths with `/` or `\` has a `..` component iff one of them has (the right one without a drive prefix) |
| Utils.SingleComponent | src-tauri/src/utils.rs:32 | a name without `/`, `\` or drive prefix is refused iff it is exactly `..` |
| Utils.DotNamesPass | src-tauri/src/utils.rs:32 | `.`, `...` and `a..b` have no parent-directory component and pass |
| Utils.ClimbFirst | src-tauri/src/utils.rs:32 | a path that starts with `..` and a separator (`../b`, `..\b`) is refused, whatever follows |
| Utils.ClimbLast | src-tauri/src/utils.rs:32 | a path that ends with a separator and `..` (`a/..`, `a\..`, `C:\..`) is refused, whatever precedes |
| Utils.ClimbBetween | src-tauri/src/utils.rs:32 | a path with `..` between two separators (`a/../b`, `a\..\b`) is refused |
| PermissionAgent.WindowsToLinux | src-tauri/src/permission_agent.rs:30-42 | the owner can always read, others can never write, and a read-only file has no write permission |
| PermissionAgent.LinuxToWindows | src-tauri/src/permission_agent.rs:45-52 | the archive flag is always set |
| PermissionAgent.LinuxToOctal | src-tauri/src/permission_agent.rs:55-71 | the mode uses only the nine permission bits |
| PermissionAgent.OctalToLinux | src-tauri/src/permission_agent.rs:74-86 | converting back gives the low nine bits of the mode |
| PermissionAgent.ArchiveIgnored | src-tauri/src/permission_agent.rs:30-42 | the archive flag does not affect the permissions |
| PermissionAgent.HighBitsIgnored | src-tauri/src/permission_agent.rs:74-86 | bits above 0o777 do not affect the permissions |
| PermissionAgent.BitPerPermission | src-tauri/src/permission_agent.rs:55-71 | each permission is granted iff its own bit (0o400 … 0o001) is set in the mode |
| PermissionAgent.PermissionsRoundTrip | src-tauri/src/permission_agent.rs:55-86 | permissions → mode → permissions is the identity |
| PermissionAgent.ReadOnlyHasNoWriteBits | src-tauri/src/permission_agent.rs:33-39 | a read-only file's mode has no bit of 0o222 |
| PermissionAgent.WindowsRoundTrip | src-tauri/src/permission_agent.rs:30-52 | Windows → Unix → Windows keeps read-only, sets hidden and system to "hidden or system", and sets archive |
| PermissionAgent.MapWindowsToLinuxAttrs | src-tauri/src/permission_agent.rs:167-185 | always Ok: the mode for the attributes, within 0o777, owner-readable, never other-writable, and without write bits when read-only |
| PermissionAgent.MapLinuxToWindowsAttrs | src-tauri/src/permission_agent.rs:187-193 | always Ok: archive set, read-only iff 0o200 is clear, hidden iff 0o004 is clear, system iff 0o001 is clear |
| CaseAgent.CountsBounded | src-tauri/src/case_agent.rs:137-150 | renamed plus prompted conflicts never exceed the number of conflicts |
| CaseAgent.CountersBounded | src-tauri/src/case_agent.rs:137-150 | in a log whose counters match its list, the auto-resolved and prompt counters add up to at most the total |
| CaseAgent.NormalizeFilename | src-tauri/src/case_agent.rs:186-188 | each character is the lowercase of the name's character at that place, for the Latin-1 letters (`A`–`Z`, `À`–`Þ`); no such capital is left, and normalising again changes nothing |
| CaseAgent.FilenamesEqualIgnoreCase | src-tauri/src/case_agent.rs:191-193 | true iff the names normalise to the same text, i.e. have equal length and agree character by character after lowercasing the Latin-1 letters |
| CaseAgent.AccentedLettersDifferOnlyInCase | src-tauri/src/case_agent.rs:63 | a name with an accented capital such as `É` and the same name with its small letter `é` differ only in case |
| CaseAgent.IgnoreCaseIsEquivalence | src-tauri/src/case_agent.rs:191-193 | comparing without case is reflexive, symmetric and transitive |
| CaseAgent.UniqueNameStem | src-tauri/src/case_agent.rs:112-114 | the path's file stem, "file" when the path has no file name; never empty |
| CaseAgent.UniqueNameSuffix | src-tauri/src/case_agent.rs:115-118 | "." plus the extension when there is one, else empty |
| CaseAgent.CaseAgent.constructor | src-tauri/src/case_agent.rs:37-47 | empty conflict log with zero counters; no recorded resolutions |
| CaseAgent.FirstFreeNotAllTaken | src-tauri/src/case_agent.rs:119-133 | a free numbered name among the 1000 attempts means the attempts are not all taken |
| CaseAgent.CaseAgent.GenerateUniqueName | src-tauri/src/case_agent.rs:110-134 | a returned name is free and is `stem_k.ext` for some k in 1..1000 with every smaller number taken; failure means all 1000 were taken |
| CaseAgent.Logged | src-tauri/src/case_agent.rs:137-150 | recording a conflict keeps a consistent log consistent |
| CaseAgent.CaseAgent.LogConflict | src-tauri/src/case_agent.rs:137-150 | appends the conflict, adds one to the total and one to the matching counter, and keeps the counters consistent with the list |
| CaseAgent.CaseAgent.CheckWindowsToLinuxConflict | src-tauri/src/case_agent.rs:50-77 | no conflict unless the file names differ only in case (lowercasing the Latin-1 letters); otherwise an auto-renamed conflict is logged and returned, whose new name is the first free `stem_k.ext` with k in 1..1000; it fails iff the names differ only in case and all 1000 names are taken, and then logs nothing |
| CaseAgent.CaseAgent.CheckLinuxToWindowsConflict | src-tauri/src/case_agent.rs:80-107 | no conflict when the Windows path does not exist; otherwise a user-prompt conflict between the two file names is logged and returned |
| CaseAgent.CaseAgent.GetResolvedName | src-tauri/src/case_agent.rs:153-155 | the recorded resolution of the name, if any |
| CaseAgent.CaseAgent.RecordResolution | src-tauri/src/case_agent.rs:158-160 | the name now resolves to the given one; other names and the log are unchanged |
| CaseAgent.CaseAgent.GetConflictLog | src-tauri/src/case_agent.rs:163-165 | the counters of the returned log are consistent: auto-resolved plus prompts at most the total, and the total is the list's length |
| CaseAgent.CaseAgent.ClearConflictLog | src-tauri/src/case_agent.rs:168-175 | the log is emptied with zero counters; resolutions are kept |
| CaseAgent.CheckCaseConflict | src-tauri/src/case_agent.rs:204-225 | an unknown direction is refused and nothing changes; each valid direction promises what its check promises: Linux-to-Windows logs and returns a user-prompt conflict iff the destination exists, Windows-to-Linux a conflict iff the names differ only in case (lowercasing the Latin-1 letters), with the first free name, and an error iff all 1000 names are taken; resolutions never change |
| AuditLog.ParseOperation | src-tauri/src/audit_log.rs:219-232 | an accepted name is the name of the operation returned; otherwise the invalid-operation error |
| AuditLog.ParseOperationName | src-tauri/src/audit_log.rs:219-231 | every operation's own name parses back to it |
| AuditLog.ParseOperationAccepts | src-tauri/src/audit_log.rs:219-232 | a name is accepted iff it is the name of some operation |
| AuditLog.OperationNameInjective | src-tauri/src/audit_log.rs:219-231 | different operations have different names |
| AuditLog.LogOperation | src-tauri/src/audit_log.rs:103-114 | the entry carries the given fields, the logger's user and session id, the fresh id and the current time |
| AuditLog.LogFileOperation | src-tauri/src/audit_log.rs:211-243 | an unknown operation name is refused; otherwise the write's error, or the entry for the parsed operation |
| AuditLog.NonBlankKeeps | src-tauri/src/audit_log.rs:134-137 | every non-blank line is kept, and only non-blank lines are |
| AuditLog.ParseAll | src-tauri/src/audit_log.rs:139-140 | on success, one entry per line |
| AuditLog.ParseAllDecodesEach | src-tauri/src/audit_log.rs:139-140 | on success, entry i is what line i decodes to |
| AuditLog.ParseAllFirstError | src-tauri/src/audit_log.rs:139 | a failure is the error of some line |
| AuditLog.TakeShape | src-tauri/src/audit_log.rs:142-146 | no limit keeps all lines; a limit n keeps the first max(n, 1) |
| AuditLog.ReadEntries | src-tauri/src/audit_log.rs:130-150 | a read failure is passed on; otherwise the result is parsing the first max(limit, 1) non-blank lines |
| AuditLog.ReadLines | src-tauri/src/audit_log.rs:134-149 | the loop skips blank lines, stops at the first line that fails to decode and stops once the limit is reached; its result is parsing the first max(limit, 1) non-blank lines |
| AuditLog.ReadSpecStopsAtError | src-tauri/src/audit_log.rs:139 | the first non-blank line within the limit that fails to parse decides the error |
| AuditLog.ReadSpecStopsAtLimit | src-tauri/src/audit_log.rs:142-146 | lines after the limit-th non-blank line are never parsed, so they cannot cause an error |
| AuditLog.ReadSpecShape | src-tauri/src/audit_log.rs:130-150 | a successful read has at most max(limit, 1) entries, or without a limit one per non-blank line; entry i is the parse of the i-th non-blank line |
| AuditLog.CountSuccessful | src-tauri/src/audit_log.rs:156 | at most the number of entries |
| AuditLog.GetStatistics | src-tauri/src/audit_log.rs:153-166 | the entries are all entries read; successful plus failed equals the total, which is the number of entries |
| LinuxFiles.Chunks | src-tauri/src/linux_files.rs:134 | the chunks concatenate to the data, each holds 1 to 8192 bytes, all but the last are full, and there are none only for empty data |
| LinuxFiles.ChunkAt | src-tauri/src/linux_files.rs:134 | chunk i is the bytes from i·8192 to the smaller of (i+1)·8192 and the length |
| LinuxFiles.ChunkPrefix | src-tauri/src/linux_files.rs:130-138 | the first k chunks are the first min(k·8192, length) bytes |
| LinuxFiles.UploadEvents | src-tauri/src/linux_files.rs:141-149 | one progress event per chunk written |
| LinuxFiles.UploadEventsShape | src-tauri/src/linux_files.rs:130-153 | a complete upload emits no event for an empty file; otherwise its counts strictly increase and the last one is the file size, with a fixed total, file name and direction |
| LinuxFiles.ChunksWritten | src-tauri/src/linux_files.rs:135-136 | fewer chunks than the file has are written iff a write fails at one of them, and then it is that chunk |
| LinuxFiles.WriteChunks | src-tauri/src/linux_files.rs:134-153 | the remote file holds exactly the prefix of the data in the chunks written, and one event is emitted per chunk written |
| LinuxFiles.RequireConnection | src-tauri/src/linux_files.rs:62-63 | the connection-not-found error iff the id is unknown; the lookup refreshes the connection's last activity |
| LinuxFiles.ConnectSsh | src-tauri/src/linux_files.rs:33-52 | a registered key is returned with the registry unchanged; a new session is stored under its key and nothing else changes; a failure leaves the registry as it was and is reported with "Failed to connect: " before its error |
| LinuxFiles.CopyToLinux | src-tauri/src/linux_files.rs:112-159 | each failure (no connection, local read, remote create, write, sync) gives its own message; on success the remote file is the local data and the events follow the chunks |
| LinuxFiles.FirstStop | src-tauri/src/linux_files.rs:189-198 | the index of the first read that ends the download (end of file, read error or write error) |
| LinuxFiles.BytesReadGrows | src-tauri/src/linux_files.rs:189-204 | before the download stops, the bytes read strictly increase |
| LinuxFiles.DownloadChunks | src-tauri/src/linux_files.rs:185-215 | the loop stops at the first read error, zero-byte read or failed write, with that error or Ok at end of file; one event per chunk before it, each with the running total |
| LinuxFiles.CopyFromLinux | src-tauri/src/linux_files.rs:162-221 | each failure (no connection, open, stat, local create, read, write, sync) gives its own message; the loop stops at the first read error, zero-byte read or failed write, one event per chunk before it with the running byte count against the stat size; success (after a good sync) only when it stops at a zero-byte read |
| LinuxFiles.DownloadEventsIncrease | src-tauri/src/linux_files.rs:200-211 | the download's progress counts strictly increase |
| LinuxFiles.DeleteLinuxFile | src-tauri/src/linux_files.rs:224-243 | a directory is removed with rmdir, anything else with unlink, each with its own error message; a failed stat is reported as such |
| LinuxFiles.FormatPermissions | src-tauri/src/linux_files.rs:284-287 | octal digits, no leading zero, parsing back to the mode |
| LinuxFiles.FormatPermissionsInjective | src-tauri/src/linux_files.rs:284-287 | different modes have different renderings |
| LinuxFiles.GetLinuxPermissions | src-tauri/src/linux_files.rs:246-254 | the octal rendering of the stat's mode, or the stat's error |
| LinuxFiles.SetLinuxPermissions | src-tauri/src/linux_files.rs:257-270 | the mode built from the given bits, or the default when those bits do not form valid permissions, is applied; a failed setstat has its own message |
| LinuxFiles.FileInfo | src-tauri/src/linux_files.rs:69-102 | name from the path, or "unknown"; a missing size is 0, a missing uid or gid "0", and a missing time the current one; permissions in octal |
| LinuxFiles.ListLinuxDir | src-tauri/src/linux_files.rs:61-109 | one record per directory entry, in order, each as `FileInfo` gives it with the wall clock as fallback time; the lookup records its own instant; a failed read gives its own message |
| LinuxFiles.FileInfos | src-tauri/src/linux_files.rs:69-103 | one record per entry, the i-th being `FileInfo` of the i-th entry |
| Digits.Decimal | src-tauri/src/types.rs:9 | decimal digits, no leading zero, parsing back to the number |
| Digits.Octal | src-tauri/src/linux_files.rs:286 | octal digits, no leading zero, parsing back to the number |
| Digits.ParseRender | src-tauri/src/linux_files.rs:286 | rendering in a base and parsing back gives the number |
| Digits.RenderInjective | src-tauri/src/linux_files.rs:286 | different numbers render differently |
| Paths.JoinSplit | src-tauri/src/utils.rs:32 | splitting a path at `/` and joining the pieces again gives the path |
| Paths.SplitAppend | src-tauri/src/utils.rs:32 | the components of a joined path are the components of its halves |
| Paths.Components | src-tauri/src/utils.rs:32 | no component contains `/` or `\` |
| Paths.ComponentsOfJoin | src-tauri/src/utils.rs:32 | joining at `/` or `\` gives the components of the two halves, when the right half has no drive prefix |
| Paths.FileName | src-tauri/src/copy_agent.rs:275-279 | a file name is never empty, `.` or `..`, and contains neither `/` nor `\` |
| Paths.LastName | src-tauri/src/copy_agent.rs:275-279 | the file name of `dir/name` or `dir\name` is `name`, whatever `dir` is (`C:\dir\File.txt` names `File.txt`) |
| Paths.BareDrive | src-tauri/src/copy_agent.rs:275-279 | a bare drive such as `C:` has no file name |
| Paths.FileNameOr | src-tauri/src/linux_files.rs:70-72 | the file name when there is one, else the default |
| Paths.StemAndExtension | src-tauri/src/case_agent.rs:112-118 | without an extension the stem is the whole name; with one, stem, `.` and extension make up the name, the stem is not empty and the extension has no `.` |
| Strings.ToLower | src-tauri/src/case_agent.rs:187 | same length; each Latin-1 capital becomes its small letter and every other character is kept |
| Strings.ToLowerIdempotent | src-tauri/src/case_agent.rs:187 | lowercasing twice is lowercasing once |

## Left out

- Concurrency is not modelled. Mutexes, `lock_or_error`, `with_timeout`, async tasks and the global singletons are left out; each operation runs atomically on its object.
- The keepalive task (`start_keepalive`) is left out. It is a background timer loop that sends keepalives until a send fails; the model keeps only its interval constant.
- `process_queue` is an infinite loop that sleeps between steps. The model proves one step of it (`CopyAgent.CopyAgent.ProcessQueueStep`).
- Floating-point progress is left out: the percentage, the speed, the ETA, `calculate_progress` and the commented-out progress emit of the copy agent. `TransferProgress` keeps the integer counters.
- Clocks, UUIDs, the current user name (`whoami`), the session id and the platform check `is_case_sensitive_system` are parameters or left out.
- The network and filesystem are parameters, each given as the outcome it produces. That covers every SSH, SFTP and local-file call, canonicalisation, `Path::exists`, and the bytes a file holds. Session and SFTP handles are not stored.
- A `write_all` that fails part-way may already have written some bytes. The model treats a failed chunk as writing nothing.
- JSON (de)serialisation and `content.lines()` are parameters: a per-line parser and the list of lines.
- `write_entry`, `clear_log`, `export_log`, `AuditLogger::new` and the log directory lookup are file I/O and are left out.
- `secure_storage.rs` and `main.rs` are not part of this model. Nor are the Windows-only attribute and timestamp functions of the permission agent, or the Tauri command wrappers that only forward to a modelled member (`is_ssh_connected`, `list_ssh_connections`, `disconnect_ssh`, `resolve_case_conflict`, the audit getters).
- Integer widths are not modelled: u64 and usize counters are unbounded naturals, so `checked_add` overflow of a file time is not modelled. The mode stays a 32-bit value.
- Strings.ToLower: lowercases only the Latin-1 letters (`A`–`Z`, `À`–`Þ`). Rust's `to_lowercase` also folds capitals beyond Latin-1 (`Ł`, Greek, Cyrillic), and it maps a few of them to two characters (`İ`) or by context (final `Σ`).
- CaseAgent.NormalizeFilename: lowercases with Strings.ToLower, so a capital beyond Latin-1 such as `Ł` stays as it is.
- CaseAgent.FilenamesEqualIgnoreCase: compares through Strings.ToLower, so `Ł` and `ł` compare unequal here and equal in Rust.
- CaseAgent.CaseAgent.CheckWindowsToLinuxConflict: compares names through Strings.ToLower. Names that differ only in a capital beyond Latin-1, such as `Łódź.txt` and `łódź.txt`, give no conflict here, where Rust auto-renames.
- CaseAgent.CheckCaseConflict: its windows_to_linux branch compares names as CaseAgent.CaseAgent.CheckWindowsToLinuxConflict does, with the same gap beyond Latin-1.
- Paths.Components: UNC (`\\server\share`) and verbatim (`\\?\`) prefixes are read as ordinary components, where Rust reads them as one prefix. The Unix build, where `\` is an ordinary character, is not modelled.
- Paths.FileName: inherits this from Paths.Components. `\\server\share` gets the name `share` here, where Rust reports none.
- Utils.ValidatePath: inherits it too. A server or share named `..` in a UNC prefix counts as a parent-directory component here, where Rust would not refuse it.
- CaseAgent.CaseAgent.CheckWindowsToLinuxConflict: also inherits it. For a bare UNC share the two file names come out of the share name, where Rust compares empty names.
- CaseAgent.CheckCaseConflict: takes the same file names as CaseAgent.CaseAgent.CheckWindowsToLinuxConflict, with the same UNC gap.
- CopyAgent.CopyAgent.GetTransferProgress: takes its file name from Paths.FileNameOr, with the same UNC gap.
- LinuxFiles.FileInfo: takes its name from Paths.FileNameOr, with the same UNC gap. So do the progress events of LinuxFiles.CopyToLinux and LinuxFiles.CopyFromLinux.
- LinuxFiles.CopyFromLinux: the script of read outcomes is finite and must end in a zero-byte read or a read error. A server that keeps delivering bytes forever is not modelled.
- LinuxFiles.SetLinuxPermissions: `Permissions::from_bits` is a parameter, so the mode it builds is not computed here.
- CaseAgent.CaseAgent.CheckWindowsToLinuxConflict: the Linux directory listing is a "taken" predicate, and "exists" is not re-read between attempts.

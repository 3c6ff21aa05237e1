/**
 * The audit log: operation names, entry construction, reading entries back
 * from the log's lines, and the success/failure statistics. The log file and
 * the JSON encoding of an entry are outside the model: the file is given as
 * its lines and decoding a line as a partial function.
 */
module AuditLog {
  import opened Wrappers
  import Strings

  datatype AuditOperation =
    | FileCopy
    | FileMove
    | FileDelete
    | DirectoryCreate
    | DirectoryDelete
    | PermissionChange
    | SshConnect
    | SshDisconnect
    | CaseConflictResolved
    | TransferStarted
    | TransferCompleted
    | TransferFailed

  type Timestamp = nat

  datatype AuditEntry = AuditEntry(
    id: string,
    timestamp: Timestamp,
    operation: AuditOperation,
    user: string,
    sourcePath: Option<string>,
    destPath: Option<string>,
    fileSize: Option<nat>,
    success: bool,
    errorMessage: Option<string>,
    sessionId: string)

  /** The statistics record; `last_updated` is the time it was computed. */
  datatype AuditSummary = AuditSummary(
    entries: seq<AuditEntry>,
    totalOperations: nat,
    successfulOperations: nat,
    failedOperations: nat,
    lastUpdated: Timestamp)

  /** The logger's identity for this run of the program. */
  datatype AuditLogger = AuditLogger(sessionId: string, currentUser: string)

  const InvalidOperation: string := "Invalid operation type"

  /** The operation names the `log_file_operation` command accepts. */
  function OperationName(op: AuditOperation): string
  {
    match op
    case FileCopy => "file_copy"
    case FileMove => "file_move"
    case FileDelete => "file_delete"
    case DirectoryCreate => "directory_create"
    case DirectoryDelete => "directory_delete"
    case PermissionChange => "permission_change"
    case SshConnect => "ssh_connect"
    case SshDisconnect => "ssh_disconnect"
    case CaseConflictResolved => "case_conflict_resolved"
    case TransferStarted => "transfer_started"
    case TransferCompleted => "transfer_completed"
    case TransferFailed => "transfer_failed"
  }

  /** The operation a name stands for; anything else is refused. */
  function ParseOperation(name: string): (r: Result<AuditOperation, string>)
    ensures r.Err? ==> r.error == InvalidOperation
    ensures r.Ok? ==> OperationName(r.value) == name
  {
    match name
    case "file_copy" => Ok(FileCopy)
    case "file_move" => Ok(FileMove)
    case "file_delete" => Ok(FileDelete)
    case "directory_create" => Ok(DirectoryCreate)
    case "directory_delete" => Ok(DirectoryDelete)
    case "permission_change" => Ok(PermissionChange)
    case "ssh_connect" => Ok(SshConnect)
    case "ssh_disconnect" => Ok(SshDisconnect)
    case "case_conflict_resolved" => Ok(CaseConflictResolved)
    case "transfer_started" => Ok(TransferStarted)
    case "transfer_completed" => Ok(TransferCompleted)
    case "transfer_failed" => Ok(TransferFailed)
    case _ => Err(InvalidOperation)
  }

  /** Every operation has a name that parses back to it. */
  lemma ParseOperationName(op: AuditOperation)
    ensures ParseOperation(OperationName(op)) == Ok(op)
  {
  }

  /** A name is accepted exactly when it is one of the twelve operation names. */
  lemma ParseOperationAccepts(name: string)
    ensures ParseOperation(name).Ok? <==> exists op :: OperationName(op) == name
  {
    if exists op :: OperationName(op) == name {
      var op :| OperationName(op) == name;
      ParseOperationName(op);
    }
  }

  /** Distinct operations have distinct names. */
  lemma OperationNameInjective(a: AuditOperation, b: AuditOperation)
    requires OperationName(a) == OperationName(b)
    ensures a == b
  {
    ParseOperationName(a);
    ParseOperationName(b);
  }

  /**
   * `log_operation`: the entry for one operation, stamped with a fresh id,
   * the time, and the logger's user and session.
   */
  function LogOperation(logger: AuditLogger, id: string, now: Timestamp, operation: AuditOperation,
                        sourcePath: Option<string>, destPath: Option<string>, fileSize: Option<nat>,
                        success: bool, errorMessage: Option<string>): (e: AuditEntry)
    ensures e.user == logger.currentUser && e.sessionId == logger.sessionId
    ensures e.id == id && e.timestamp == now && e.operation == operation
    ensures e.sourcePath == sourcePath && e.destPath == destPath && e.fileSize == fileSize
    ensures e.success == success && e.errorMessage == errorMessage
  {
    AuditEntry(id, now, operation, logger.currentUser, sourcePath, destPath, fileSize, success, errorMessage,
               logger.sessionId)
  }

  /**
   * The `log_file_operation` command: the entry it appends to the log, or
   * why it appended none (an unknown operation name, or the write failing).
   */
  function LogFileOperation(logger: AuditLogger, id: string, now: Timestamp, operation: string,
                            sourcePath: Option<string>, destPath: Option<string>, fileSize: Option<nat>,
                            success: bool, errorMessage: Option<string>, write: Result<(), string>)
    : (r: Result<AuditEntry, string>)
    ensures ParseOperation(operation).Err? ==> r == Err(InvalidOperation)
    ensures ParseOperation(operation).Ok? && write.Err? ==> r == Err(write.error)
    ensures r.Ok? <==> ParseOperation(operation).Ok? && write.Ok?
    ensures r.Ok? ==> OperationName(r.value.operation) == operation
    ensures r.Ok? ==> r.value == LogOperation(logger, id, now, r.value.operation, sourcePath, destPath, fileSize,
                                              success, errorMessage)
  {
    match ParseOperation(operation)
    case Err(e) => Err(e)
    case Ok(op) =>
      if write.Err? then Err(write.error)
      else Ok(LogOperation(logger, id, now, op, sourcePath, destPath, fileSize, success, errorMessage))
  }

  /** The lines that are not empty once surrounding whitespace is trimmed, in order. */
  function NonBlank(lines: seq<string>): (kept: seq<string>)
    ensures |kept| <= |lines|
  {
    if lines == [] then []
    else
      var last := lines[|lines| - 1];
      NonBlank(lines[..|lines| - 1]) + if Strings.IsBlank(last) then [] else [last]
  }

  /** Every non-blank line is kept, and only non-blank lines are. */
  lemma {:induction false} NonBlankKeeps(lines: seq<string>)
    ensures forall i :: 0 <= i < |NonBlank(lines)| ==> !Strings.IsBlank(NonBlank(lines)[i])
    ensures forall i :: 0 <= i < |lines| && !Strings.IsBlank(lines[i]) ==> lines[i] in NonBlank(lines)
  {
    if lines != [] {
      var init := lines[..|lines| - 1];
      NonBlankKeeps(init);
      forall i | 0 <= i < |lines| && !Strings.IsBlank(lines[i])
        ensures lines[i] in NonBlank(lines)
      {
        if i < |init| {
          assert lines[i] == init[i];
        }
      }
    }
  }

  /** Decode each line in turn; the first line that does not decode is the error. */
  function ParseAll(lines: seq<string>, parse: string -> Result<AuditEntry, string>)
    : (r: Result<seq<AuditEntry>, string>)
    ensures r.Ok? ==> |r.value| == |lines|
  {
    if lines == [] then Ok([])
    else
      match ParseAll(lines[..|lines| - 1], parse)
      case Err(e) => Err(e)
      case Ok(entries) =>
        match parse(lines[|lines| - 1])
        case Err(e) => Err(e)
        case Ok(entry) => Ok(entries + [entry])
  }

  /** On success, entry `i` is what line `i` decodes to. */
  lemma {:induction false} ParseAllDecodesEach(lines: seq<string>, parse: string -> Result<AuditEntry, string>)
    requires ParseAll(lines, parse).Ok?
    ensures forall i :: 0 <= i < |lines| ==> parse(lines[i]) == Ok(ParseAll(lines, parse).value[i])
  {
    if lines != [] {
      var init := lines[..|lines| - 1];
      ParseAllDecodesEach(init, parse);
      assert forall i :: 0 <= i < |init| ==> lines[i] == init[i];
    }
  }

  /** A failure is the error of the first line that does not decode. */
  lemma {:induction false} ParseAllFirstError(lines: seq<string>, parse: string -> Result<AuditEntry, string>)
    requires ParseAll(lines, parse).Err?
    ensures exists i :: 0 <= i < |lines| && parse(lines[i]) == Err(ParseAll(lines, parse).error)
                        && forall j :: 0 <= j < i ==> parse(lines[j]).Ok?
  {
    var init := lines[..|lines| - 1];
    if ParseAll(init, parse).Err? {
      ParseAllFirstError(init, parse);
      var i :| 0 <= i < |init| && parse(init[i]) == Err(ParseAll(init, parse).error)
               && forall j :: 0 <= j < i ==> parse(init[j]).Ok?;
      assert parse(lines[i]) == Err(ParseAll(lines, parse).error);
      assert forall j :: 0 <= j < i ==> lines[j] == init[j];
    } else {
      var k := |lines| - 1;
      ParseAllDecodesEach(init, parse);
      assert forall j :: 0 <= j < k ==> lines[j] == init[j];
      assert parse(lines[k]) == Err(ParseAll(lines, parse).error);
    }
  }

  /** The lines a limit lets through: at least one, however small the limit. */
  function Take(lines: seq<string>, limit: Option<nat>): seq<string>
  {
    if limit.None? || |lines| < Max(limit.value, 1) then lines else lines[..Max(limit.value, 1)]
  }

  /** Without a limit every line is taken; with a limit `n`, the first `max(n, 1)` of them. */
  lemma TakeShape(lines: seq<string>, limit: Option<nat>)
    ensures limit.None? ==> Take(lines, limit) == lines
    ensures limit.Some? ==> |Take(lines, limit)| == if |lines| < Max(limit.value, 1) then |lines| else Max(limit.value, 1)
    ensures Take(lines, limit) <= lines
  {
  }

  function Max(a: int, b: int): int
  {
    if a >= b then a else b
  }

  /** What `read_entries` returns for the log's lines. */
  function ReadSpec(lines: seq<string>, parse: string -> Result<AuditEntry, string>, limit: Option<nat>)
    : Result<seq<AuditEntry>, string>
  {
    ParseAll(Take(NonBlank(lines), limit), parse)
  }

  /** A prefix of the lines keeps a prefix of the non-blank lines. */
  lemma {:induction false} NonBlankPrefix(lines: seq<string>, i: nat)
    requires i <= |lines|
    ensures NonBlank(lines[..i]) <= NonBlank(lines)
    decreases |lines| - i
  {
    if i < |lines| {
      NonBlankPrefix(lines, i + 1);
      assert lines[..i + 1][..i] == lines[..i];
      assert NonBlank(lines[..i]) <= NonBlank(lines[..i + 1]);
    } else {
      assert lines[..i] == lines;
    }
  }

  /**
   * `read_entries`: skip blank lines, decode the others in order, stop at
   * the first that does not decode, and stop once the entries collected
   * reach the limit (the check comes after the push, so a limit of 0
   * still yields one entry). A log that cannot be read is an error.
   */
  method ReadEntries(content: Result<seq<string>, string>, parse: string -> Result<AuditEntry, string>,
                     limit: Option<nat>)
    returns (r: Result<seq<AuditEntry>, string>)
    ensures content.Err? ==> r == Err(content.error)
    ensures content.Ok? ==> r == ReadSpec(content.value, parse, limit)
  {
    if content.Err? {
      return Err(content.error);
    }
    r := ReadLines(content.value, parse, limit);
  }

  /** The loop of `read_entries` over the lines of a log that could be read. */
  method ReadLines(lines: seq<string>, parse: string -> Result<AuditEntry, string>, limit: Option<nat>)
    returns (r: Result<seq<AuditEntry>, string>)
    ensures r == ReadSpec(lines, parse, limit)
  {
    var entries: seq<AuditEntry> := [];
    var i := 0;
    while i < |lines|
      invariant 0 <= i <= |lines|
      invariant ParseAll(NonBlank(lines[..i]), parse) == Ok(entries)
      invariant limit.Some? ==> |entries| < Max(limit.value, 1)
    {
      var line := lines[i];
      if Strings.IsBlank(line) {
        ReadStepBlank(lines, parse, i, entries);
      } else {
        var entry := parse(line);
        if entry.Err? {
          ReadSpecStopsAtError(lines, parse, limit, i, entries);
          return Err(entry.error);
        }
        ReadStepParsed(lines, parse, i, entries);
        entries := entries + [entry.value];
        if limit.Some? && |entries| >= limit.value {
          ReadSpecStopsAtLimit(lines, parse, limit.value, i + 1, entries);
          return Ok(entries);
        }
      }
      i := i + 1;
    }
    ReadSpecAtEnd(lines, parse, limit, entries);
    return Ok(entries);
  }

  /** A blank line leaves the entries collected so far as they are. */
  lemma ReadStepBlank(lines: seq<string>, parse: string -> Result<AuditEntry, string>, i: nat, entries: seq<AuditEntry>)
    requires i < |lines| && Strings.IsBlank(lines[i])
    requires ParseAll(NonBlank(lines[..i]), parse) == Ok(entries)
    ensures ParseAll(NonBlank(lines[..i + 1]), parse) == Ok(entries)
  {
    NonBlankStep(lines, i);
    assert NonBlank(lines[..i + 1]) == NonBlank(lines[..i]);
  }

  /** A non-blank line that decodes adds its entry to those collected so far. */
  lemma ReadStepParsed(lines: seq<string>, parse: string -> Result<AuditEntry, string>, i: nat, entries: seq<AuditEntry>)
    requires i < |lines| && !Strings.IsBlank(lines[i]) && parse(lines[i]).Ok?
    requires ParseAll(NonBlank(lines[..i]), parse) == Ok(entries)
    ensures ParseAll(NonBlank(lines[..i + 1]), parse) == Ok(entries + [parse(lines[i]).value])
  {
    NonBlankStep(lines, i);
    ParseAllSnoc(NonBlank(lines[..i]), lines[i], parse);
  }

  /** Having read every line without reaching the limit, the entries are the result. */
  lemma ReadSpecAtEnd(lines: seq<string>, parse: string -> Result<AuditEntry, string>, limit: Option<nat>,
                      entries: seq<AuditEntry>)
    requires ParseAll(NonBlank(lines[..|lines|]), parse) == Ok(entries)
    requires limit.Some? ==> |entries| < Max(limit.value, 1)
    ensures ReadSpec(lines, parse, limit) == Ok(entries)
  {
    assert lines[..|lines|] == lines;
    assert Take(NonBlank(lines), limit) == NonBlank(lines);
  }

  /** Decoding one more line extends the entries, or fails with that line's error. */
  lemma ParseAllSnoc(lines: seq<string>, line: string, parse: string -> Result<AuditEntry, string>)
    requires ParseAll(lines, parse).Ok?
    ensures ParseAll(lines + [line], parse) ==
      if parse(line).Ok? then Ok(ParseAll(lines, parse).value + [parse(line).value]) else Err(parse(line).error)
  {
    assert (lines + [line])[..|lines|] == lines;
  }

  /** One more line adds itself to the non-blank lines, unless it is blank. */
  lemma NonBlankStep(lines: seq<string>, i: nat)
    requires i < |lines|
    ensures NonBlank(lines[..i + 1]) == NonBlank(lines[..i]) + if Strings.IsBlank(lines[i]) then [] else [lines[i]]
  {
    assert lines[..i + 1][..i] == lines[..i];
  }

  /**
   * When the `i`-th line is the first non-blank line that fails to decode
   * and the limit has not been reached, reading stops with its error.
   */
  lemma ReadSpecStopsAtError(lines: seq<string>, parse: string -> Result<AuditEntry, string>, limit: Option<nat>,
                             i: nat, entries: seq<AuditEntry>)
    requires i < |lines| && !Strings.IsBlank(lines[i])
    requires ParseAll(NonBlank(lines[..i]), parse) == Ok(entries)
    requires limit.Some? ==> |entries| < Max(limit.value, 1)
    requires parse(lines[i]).Err?
    ensures ReadSpec(lines, parse, limit) == Err(parse(lines[i]).error)
  {
    var kept := NonBlank(lines[..i + 1]);
    assert lines[..i + 1][..i] == lines[..i];
    assert kept == NonBlank(lines[..i]) + [lines[i]];
    assert kept[..|kept| - 1] == NonBlank(lines[..i]);
    NonBlankPrefix(lines, i + 1);
    var taken := Take(NonBlank(lines), limit);
    assert |kept| == |entries| + 1;
    assert taken[..|kept|] == kept;
    ParseAllError(taken, parse, |kept|);
  }

  /** If a prefix of the lines fails to decode, so do the lines, with the same error. */
  lemma {:induction false} ParseAllError(lines: seq<string>, parse: string -> Result<AuditEntry, string>, n: nat)
    requires n <= |lines|
    requires ParseAll(lines[..n], parse).Err?
    ensures ParseAll(lines, parse) == ParseAll(lines[..n], parse)
    decreases |lines| - n
  {
    if n < |lines| {
      assert lines[..n + 1][..n] == lines[..n];
      assert ParseAll(lines[..n + 1], parse) == ParseAll(lines[..n], parse);
      ParseAllError(lines, parse, n + 1);
    } else {
      assert lines[..n] == lines;
    }
  }

  /** When the entries collected from the first `i` lines reach the limit, they are the result. */
  lemma ReadSpecStopsAtLimit(lines: seq<string>, parse: string -> Result<AuditEntry, string>, limit: nat,
                             i: nat, entries: seq<AuditEntry>)
    requires i <= |lines|
    requires ParseAll(NonBlank(lines[..i]), parse) == Ok(entries)
    requires |entries| == Max(limit, 1)
    ensures ReadSpec(lines, parse, Some(limit)) == Ok(entries)
  {
    NonBlankPrefix(lines, i);
    var kept := NonBlank(lines[..i]);
    assert Take(NonBlank(lines), Some(limit)) == kept;
  }

  /** With a limit `n`, at most `max(n, 1)` entries; without one, one per non-blank line, in file order. */
  lemma ReadSpecShape(lines: seq<string>, parse: string -> Result<AuditEntry, string>, limit: Option<nat>)
    ensures var r := ReadSpec(lines, parse, limit);
      && (r.Ok? && limit.Some? ==> |r.value| <= Max(limit.value, 1))
      && (r.Ok? && limit.None? ==> |r.value| == |NonBlank(lines)|)
      && (r.Ok? ==> forall i :: 0 <= i < |r.value| ==> parse(NonBlank(lines)[i]) == Ok(r.value[i]))
  {
    var taken := Take(NonBlank(lines), limit);
    assert forall i :: 0 <= i < |taken| ==> taken[i] == NonBlank(lines)[i];
    if ParseAll(taken, parse).Ok? {
      ParseAllDecodesEach(taken, parse);
    }
  }

  function CountSuccessful(entries: seq<AuditEntry>): (n: nat)
    ensures n <= |entries|
  {
    if entries == [] then 0
    else CountSuccessful(entries[..|entries| - 1]) + if entries[|entries| - 1].success then 1 else 0
  }

  /** `get_statistics`: read every entry, then count the successful and the failed ones. */
  method GetStatistics(content: Result<seq<string>, string>, parse: string -> Result<AuditEntry, string>,
                       now: Timestamp)
    returns (r: Result<AuditSummary, string>)
    ensures content.Err? ==> r == Err(content.error)
    ensures content.Ok? && ReadSpec(content.value, parse, None).Err? ==> r == Err(ReadSpec(content.value, parse, None).error)
    ensures content.Ok? && ReadSpec(content.value, parse, None).Ok? ==> r.Ok? && r.value.entries == ReadSpec(content.value, parse, None).value
    ensures r.Ok? ==> r.value.totalOperations == |r.value.entries|
    ensures r.Ok? ==> r.value.successfulOperations == CountSuccessful(r.value.entries)
    ensures r.Ok? ==> r.value.successfulOperations + r.value.failedOperations == r.value.totalOperations
    ensures r.Ok? ==> r.value.lastUpdated == now
  {
    var entries := ReadEntries(content, parse, None);
    if entries.Err? {
      return Err(entries.error);
    }
    var total := |entries.value|;
    var successful := CountSuccessful(entries.value);
    var failed := total - successful;
    return Ok(AuditSummary(entries.value, total, successful, failed, now));
  }
}

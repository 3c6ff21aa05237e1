/**
 * Detection and bookkeeping of file names that differ only in letter case,
 * which a case-sensitive Linux filesystem keeps apart and Windows does not.
 */
module CaseAgent {
  import opened Wrappers
  import Strings
  import Paths
  import Digits

  datatype CaseResolution = AutoRename(newName: string) | UserPrompt | Skip | Overwrite

  datatype CaseConflict = CaseConflict(originalName: string, conflictName: string, resolution: CaseResolution)

  datatype CaseConflictLog = CaseConflictLog(
    conflicts: seq<CaseConflict>,
    totalConflicts: nat,
    autoResolved: nat,
    userPrompts: nat)

  /** How many numbered names `generate_unique_name` tries before giving up. */
  const MaxUniqueNameAttempts: nat := 1000

  const UniqueNameExhausted: string := "Could not generate unique name after 1000 attempts"

  const InvalidDirection: string := "Invalid direction. Use 'windows_to_linux' or 'linux_to_windows'"

  const EmptyLog: CaseConflictLog := CaseConflictLog([], 0, 0, 0)

  /** Number of conflicts in `cs` resolved by automatic renaming. */
  function CountAutoRenamed(cs: seq<CaseConflict>): nat
  {
    if cs == [] then 0
    else CountAutoRenamed(cs[..|cs| - 1]) + (if cs[|cs| - 1].resolution.AutoRename? then 1 else 0)
  }

  /** Number of conflicts in `cs` left to the user. */
  function CountUserPrompts(cs: seq<CaseConflict>): nat
  {
    if cs == [] then 0
    else CountUserPrompts(cs[..|cs| - 1]) + (if cs[|cs| - 1].resolution.UserPrompt? then 1 else 0)
  }

  /** The counters of a log agree with its list of conflicts. */
  predicate LogConsistent(log: CaseConflictLog)
  {
    && log.totalConflicts == |log.conflicts|
    && log.autoResolved == CountAutoRenamed(log.conflicts)
    && log.userPrompts == CountUserPrompts(log.conflicts)
  }

  /** No conflict is counted both as renamed and as prompted. */
  lemma {:induction false} CountsBounded(cs: seq<CaseConflict>)
    ensures CountAutoRenamed(cs) + CountUserPrompts(cs) <= |cs|
  {
    if cs != [] {
      CountsBounded(cs[..|cs| - 1]);
    }
  }

  /** In a consistent log the two resolution counters never exceed the total. */
  lemma CountersBounded(log: CaseConflictLog)
    requires LogConsistent(log)
    ensures log.autoResolved + log.userPrompts <= log.totalConflicts == |log.conflicts|
  {
    CountsBounded(log.conflicts);
  }

  /** `normalize_filename`: the name in lower case. */
  function NormalizeFilename(filename: string): (r: string)
    ensures |r| == |filename|
    ensures forall i :: 0 <= i < |r| ==> r[i] == Strings.LowerChar(filename[i])
    ensures forall i :: 0 <= i < |r| ==> !Strings.IsUpper(r[i])
    ensures Strings.ToLower(r) == r
  {
    Strings.ToLowerIdempotent(filename);
    Strings.ToLower(filename)
  }

  /** `filenames_equal_ignore_case`: the two names agree once lowercased. */
  function FilenamesEqualIgnoreCase(name1: string, name2: string): (r: bool)
    ensures r <==> NormalizeFilename(name1) == NormalizeFilename(name2)
    ensures r <==> |name1| == |name2| && forall i :: 0 <= i < |name1| ==> Strings.LowerChar(name1[i]) == Strings.LowerChar(name2[i])
  {
    Strings.ToLower(name1) == Strings.ToLower(name2)
  }

  /** Ignoring case is an equivalence: reflexive, symmetric and transitive. */
  lemma IgnoreCaseIsEquivalence(a: string, b: string, c: string)
    ensures FilenamesEqualIgnoreCase(a, a)
    ensures FilenamesEqualIgnoreCase(a, b) == FilenamesEqualIgnoreCase(b, a)
    ensures FilenamesEqualIgnoreCase(a, b) && FilenamesEqualIgnoreCase(b, c) ==> FilenamesEqualIgnoreCase(a, c)
  {
  }

  /** Two names clash on Windows but not on Linux: equal but for letter case. */
  predicate DifferOnlyInCase(name1: string, name2: string)
  {
    FilenamesEqualIgnoreCase(name1, name2) && name1 != name2
  }

  /** An accented capital and its small letter differ only in case, as `É` and `é` do. */
  lemma AccentedLettersDifferOnlyInCase(c: char, rest: string)
    requires '\U{C0}' <= c <= '\U{DE}' && c != '\U{D7}'
    ensures DifferOnlyInCase([c] + rest, [(c as int + 32) as char] + rest)
  {
    var a, b := [c] + rest, [(c as int + 32) as char] + rest;
    assert a[0] != b[0];
    assert forall i :: 0 <= i < |a| ==> Strings.LowerChar(a[i]) == Strings.LowerChar(b[i]);
  }

  /** The file name of a path as the checks read it; empty when there is none. */
  function NameOf(path: string): string
  {
    Paths.FileNameOr(path, "")
  }

  /** The stem the numbered names are built on: the path's file stem, else `file`. */
  function UniqueNameStem(path: string): (stem: string)
    ensures Paths.FileName(path).None? ==> stem == "file"
    ensures stem != []
  {
    match Paths.FileStem(path)
    case Some(stem) =>
      assert stem == Paths.StemAndExtension(Paths.FileName(path).value).0;
      stem
    case None => "file"
  }

  /** What follows the number: `.` and the path's extension, else nothing. */
  function UniqueNameSuffix(path: string): (suffix: string)
    ensures Paths.Extension(path).None? <==> suffix == []
    ensures Paths.Extension(path).Some? ==> suffix == "." + Paths.Extension(path).value
  {
    match Paths.Extension(path)
    case Some(e) => "." + e
    case None => ""
  }

  /** The numbered name `stem_N.ext` tried at attempt `counter`. */
  function Candidate(stem: string, counter: nat, suffix: string): string
  {
    stem + "_" + Digits.Decimal(counter) + suffix
  }

  /** Numbered names 1 to `n` are all taken. */
  predicate AllTaken(stem: string, suffix: string, taken: string -> bool, n: nat)
  {
    forall j :: 1 <= j <= n ==> taken(Candidate(stem, j, suffix))
  }

  /** One more taken name extends the run of taken names. */
  lemma AllTakenStep(stem: string, suffix: string, taken: string -> bool, n: nat)
    requires AllTaken(stem, suffix, taken, n) && taken(Candidate(stem, n + 1, suffix))
    ensures AllTaken(stem, suffix, taken, n + 1)
  {
  }

  /** `name` is numbered name `k`, the first of the attempts that is free. */
  predicate FirstFree(stem: string, suffix: string, taken: string -> bool, k: nat, name: string)
  {
    && 1 <= k <= MaxUniqueNameAttempts
    && name == Candidate(stem, k, suffix)
    && !taken(name)
    && AllTaken(stem, suffix, taken, k - 1)
  }

  /** A free name among the attempts means that not all of them are taken. */
  lemma FirstFreeNotAllTaken(stem: string, suffix: string, taken: string -> bool, k: nat, name: string)
    requires FirstFree(stem, suffix, taken, k, name)
    ensures !AllTaken(stem, suffix, taken, MaxUniqueNameAttempts)
  {
    assert !taken(Candidate(stem, k, suffix));
  }

  /** The log after `log_conflict` records `c`: appended, the total and the counter of its resolution bumped. */
  function Logged(log: CaseConflictLog, c: CaseConflict): (r: CaseConflictLog)
    ensures LogConsistent(log) ==> LogConsistent(r)
  {
    CaseConflictLog(
      log.conflicts + [c],
      log.totalConflicts + 1,
      log.autoResolved + (if c.resolution.AutoRename? then 1 else 0),
      log.userPrompts + (if c.resolution.UserPrompt? then 1 else 0))
  }

  class CaseAgent {
    var conflictLog: CaseConflictLog
    /** Maps an original name to the name it was resolved to. */
    var caseMapping: map<string, string>

    ghost predicate Valid()
      reads this
    {
      LogConsistent(conflictLog)
    }

    constructor ()
      ensures Valid()
      ensures conflictLog == EmptyLog && caseMapping == map[]
    {
      conflictLog := EmptyLog;
      caseMapping := map[];
    }

    /**
     * `generate_unique_name`: the first of `stem_1.ext`, `stem_2.ext`, ...,
     * `stem_1000.ext` that is not taken in the path's directory, or an error
     * when all 1000 are.
     */
    method GenerateUniqueName(path: string, taken: string -> bool) returns (r: Result<string, string>)
      ensures r.Ok? ==> !taken(r.value)
      ensures r.Ok? ==> exists k :: FirstFree(UniqueNameStem(path), UniqueNameSuffix(path), taken, k, r.value)
      ensures r.Err? ==> r.error == UniqueNameExhausted
      ensures r.Err? ==> AllTaken(UniqueNameStem(path), UniqueNameSuffix(path), taken, MaxUniqueNameAttempts)
    {
      var stem := UniqueNameStem(path);
      var suffix := UniqueNameSuffix(path);
      var counter: nat := 1;
      while counter <= MaxUniqueNameAttempts
        invariant 1 <= counter <= MaxUniqueNameAttempts + 1
        invariant AllTaken(stem, suffix, taken, counter - 1)
      {
        var newName := Candidate(stem, counter, suffix);
        if !taken(newName) {
          assert FirstFree(stem, suffix, taken, counter, newName);
          return Ok(newName);
        }
        AllTakenStep(stem, suffix, taken, counter - 1);
        counter := counter + 1;
      }
      return Err(UniqueNameExhausted);
    }

    /** `log_conflict`: append the conflict and bump the counters that its resolution concerns. */
    method LogConflict(conflict: CaseConflict)
      requires Valid()
      modifies this
      ensures Valid()
      ensures conflictLog.conflicts == old(conflictLog.conflicts) + [conflict]
      ensures conflictLog.totalConflicts == old(conflictLog.totalConflicts) + 1
      ensures conflictLog.autoResolved == old(conflictLog.autoResolved) + (if conflict.resolution.AutoRename? then 1 else 0)
      ensures conflictLog.userPrompts == old(conflictLog.userPrompts) + (if conflict.resolution.UserPrompt? then 1 else 0)
      ensures caseMapping == old(caseMapping)
    {
      var cs := conflictLog.conflicts + [conflict];
      assert cs[..|cs| - 1] == conflictLog.conflicts;
      conflictLog := conflictLog.(conflicts := cs, totalConflicts := conflictLog.totalConflicts + 1);
      match conflict.resolution {
        case AutoRename(_) =>
          conflictLog := conflictLog.(autoResolved := conflictLog.autoResolved + 1);
        case UserPrompt =>
          conflictLog := conflictLog.(userPrompts := conflictLog.userPrompts + 1);
        case _ =>
      }
    }

    /**
     * `check_windows_to_linux_conflict`: when the two file names differ only
     * in case, find a free numbered name next to the Linux file, log the
     * conflict as automatically renamed and report it. A failure to find a
     * name is reported and logs nothing.
     */
    method CheckWindowsToLinuxConflict(windowsPath: string, linuxPath: string, taken: string -> bool)
      returns (r: Result<Option<CaseConflict>, string>)
      requires Valid()
      modifies this
      ensures Valid()
      ensures caseMapping == old(caseMapping)
      ensures !DifferOnlyInCase(NameOf(windowsPath), NameOf(linuxPath)) ==> r == Ok(None) && conflictLog == old(conflictLog)
      ensures r.Err? ==> (DifferOnlyInCase(NameOf(windowsPath), NameOf(linuxPath))
                          && r.error == UniqueNameExhausted && conflictLog == old(conflictLog))
      ensures r.Ok? && r.value.Some? ==>
        && DifferOnlyInCase(NameOf(windowsPath), NameOf(linuxPath))
        && r.value.value.originalName == NameOf(windowsPath)
        && r.value.value.conflictName == NameOf(linuxPath)
        && r.value.value.resolution.AutoRename?
        && !taken(r.value.value.resolution.newName)
        && conflictLog.conflicts == old(conflictLog.conflicts) + [r.value.value]
        && conflictLog.totalConflicts == old(conflictLog.totalConflicts) + 1
        && conflictLog.autoResolved == old(conflictLog.autoResolved) + 1
        && conflictLog.userPrompts == old(conflictLog.userPrompts)
      ensures r.Ok? && r.value.Some? && r.value.value.resolution.AutoRename? ==>
        exists k :: FirstFree(UniqueNameStem(linuxPath), UniqueNameSuffix(linuxPath), taken, k, r.value.value.resolution.newName)
      ensures r.Err? <==>
        && DifferOnlyInCase(NameOf(windowsPath), NameOf(linuxPath))
        && AllTaken(UniqueNameStem(linuxPath), UniqueNameSuffix(linuxPath), taken, MaxUniqueNameAttempts)
      ensures DifferOnlyInCase(NameOf(windowsPath), NameOf(linuxPath)) ==> r != Ok(None)
    {
      var windowsName := NameOf(windowsPath);
      var linuxName := NameOf(linuxPath);
      if Strings.ToLower(windowsName) == Strings.ToLower(linuxName) && windowsName != linuxName {
        var unique := GenerateUniqueName(linuxPath, taken);
        if unique.Err? {
          return Err(unique.error);
        }
        ghost var k :| FirstFree(UniqueNameStem(linuxPath), UniqueNameSuffix(linuxPath), taken, k, unique.value);
        FirstFreeNotAllTaken(UniqueNameStem(linuxPath), UniqueNameSuffix(linuxPath), taken, k, unique.value);
        var conflict := CaseConflict(windowsName, linuxName, AutoRename(unique.value));
        LogConflict(conflict);
        return Ok(Some(conflict));
      }
      return Ok(None);
    }

    /**
     * `check_linux_to_windows_conflict`: when the Windows destination already
     * exists, log a conflict that awaits the user's decision and report it.
     */
    method CheckLinuxToWindowsConflict(linuxPath: string, windowsPath: string, windowsExists: bool)
      returns (r: Result<Option<CaseConflict>, string>)
      requires Valid()
      modifies this
      ensures Valid()
      ensures caseMapping == old(caseMapping)
      ensures r.Ok?
      ensures !windowsExists ==> r.value == None && conflictLog == old(conflictLog)
      ensures windowsExists ==>
        && r.value == Some(CaseConflict(NameOf(linuxPath), NameOf(windowsPath), UserPrompt))
        && conflictLog.conflicts == old(conflictLog.conflicts) + [r.value.value]
        && conflictLog.totalConflicts == old(conflictLog.totalConflicts) + 1
        && conflictLog.autoResolved == old(conflictLog.autoResolved)
        && conflictLog.userPrompts == old(conflictLog.userPrompts) + 1
    {
      var linuxName := NameOf(linuxPath);
      var windowsName := NameOf(windowsPath);
      if windowsExists {
        var conflict := CaseConflict(linuxName, windowsName, UserPrompt);
        LogConflict(conflict);
        return Ok(Some(conflict));
      }
      return Ok(None);
    }

    /** `get_resolved_name` */
    function GetResolvedName(originalName: string): (r: Option<string>)
      reads this
      ensures r.Some? <==> originalName in caseMapping
      ensures r.Some? ==> r.value == caseMapping[originalName]
    {
      if originalName in caseMapping then Some(caseMapping[originalName]) else None
    }

    /** `record_resolution`: remember (or replace) the name `originalName` resolves to. */
    method RecordResolution(originalName: string, resolvedName: string)
      requires Valid()
      modifies this
      ensures Valid()
      ensures caseMapping == old(caseMapping)[originalName := resolvedName]
      ensures GetResolvedName(originalName) == Some(resolvedName)
      ensures forall other :: other != originalName ==> GetResolvedName(other) == old(GetResolvedName(other))
      ensures conflictLog == old(conflictLog)
    {
      caseMapping := caseMapping[originalName := resolvedName];
    }

    /** `get_conflict_log` */
    function GetConflictLog(): (log: CaseConflictLog)
      reads this
      requires Valid()
      ensures log.autoResolved + log.userPrompts <= log.totalConflicts == |log.conflicts|
    {
      CountersBounded(conflictLog);
      conflictLog
    }

    /** `clear_conflict_log`: forget every conflict and zero the counters; resolutions stay. */
    method ClearConflictLog()
      requires Valid()
      modifies this
      ensures Valid()
      ensures conflictLog == EmptyLog
      ensures caseMapping == old(caseMapping)
    {
      conflictLog := EmptyLog;
    }
  }

  /**
   * The `check_case_conflict` command: dispatch on the direction string; any
   * other direction is refused without touching the agent.
   */
  method CheckCaseConflict(agent: CaseAgent, sourcePath: string, destPath: string, direction: string,
                           taken: string -> bool, destExists: bool)
    returns (r: Result<Option<CaseConflict>, string>)
    requires agent.Valid()
    modifies agent
    ensures agent.Valid()
    ensures direction != "windows_to_linux" && direction != "linux_to_windows" ==>
      r == Err(InvalidDirection) && agent.conflictLog == old(agent.conflictLog) && agent.caseMapping == old(agent.caseMapping)
    ensures direction == "linux_to_windows" ==>
      && r.Ok? && agent.caseMapping == old(agent.caseMapping)
      && (!destExists ==> r.value == None && agent.conflictLog == old(agent.conflictLog))
      && (destExists ==>
            && r.value == Some(CaseConflict(NameOf(sourcePath), NameOf(destPath), UserPrompt))
            && agent.conflictLog == Logged(old(agent.conflictLog), r.value.value))
    ensures direction == "windows_to_linux" ==>
      && agent.caseMapping == old(agent.caseMapping)
      && (!DifferOnlyInCase(NameOf(sourcePath), NameOf(destPath)) ==> r == Ok(None) && agent.conflictLog == old(agent.conflictLog))
      && (DifferOnlyInCase(NameOf(sourcePath), NameOf(destPath)) ==> r != Ok(None))
      && (r.Err? <==>
            && DifferOnlyInCase(NameOf(sourcePath), NameOf(destPath))
            && AllTaken(UniqueNameStem(destPath), UniqueNameSuffix(destPath), taken, MaxUniqueNameAttempts))
      && (r.Err? ==> r.error == UniqueNameExhausted && agent.conflictLog == old(agent.conflictLog))
      && (r.Ok? && r.value.Some? ==>
            && r.value.value.originalName == NameOf(sourcePath)
            && r.value.value.conflictName == NameOf(destPath)
            && r.value.value.resolution.AutoRename?
            && (exists k :: FirstFree(UniqueNameStem(destPath), UniqueNameSuffix(destPath), taken, k, r.value.value.resolution.newName))
            && agent.conflictLog == Logged(old(agent.conflictLog), r.value.value))
  {
    match direction {
      case "windows_to_linux" =>
        r := agent.CheckWindowsToLinuxConflict(sourcePath, destPath, taken);
      case "linux_to_windows" =>
        r := agent.CheckLinuxToWindowsConflict(sourcePath, destPath, destExists);
      case _ =>
        r := Err(InvalidDirection);
    }
  }
}

/**
 * The Linux-side file commands. Every command first looks its connection up
 * in the SSH registry; the SFTP and local file calls around the copy loops
 * are given as outcomes.
 */
module LinuxFiles {
  import opened Wrappers
  import Digits
  import Paths
  import Ssh = SshClient

  type byte = bv8

  /** Unix mode bits as SFTP reports them (`u32`). */
  type Mode = n: nat | n < 0x1_0000_0000

  const ConnectionNotFound: string := "Connection not found"
  const ChunkSize: nat := 8192
  const Unknown: string := "unknown"
  const Upload: string := "upload"
  const Download: string := "download"

  /** A progress event as sent to the front end under `transfer_progress`. */
  datatype TransferProgress = TransferProgress(
    bytesTransferred: nat,
    totalBytes: nat,
    filename: string,
    direction: string)

  /** The step at which a loop's per-chunk write fails, and the error text. */
  datatype Failure = Failure(at: nat, message: string)

  predicate FailsAt(failure: Option<Failure>, i: nat)
  {
    failure.Some? && failure.value.at == i
  }

  function Min(a: int, b: int): int
  {
    if a <= b then a else b
  }

  function Flatten(parts: seq<seq<byte>>): seq<byte>
  {
    if parts == [] then [] else Flatten(parts[..|parts| - 1]) + parts[|parts| - 1]
  }

  lemma {:induction false} FlattenCons(first: seq<byte>, rest: seq<seq<byte>>)
    ensures Flatten([first] + rest) == first + Flatten(rest)
    decreases |rest|
  {
    if rest != [] {
      var last := rest[|rest| - 1];
      assert ([first] + rest)[..|rest|] == [first] + rest[..|rest| - 1];
      FlattenCons(first, rest[..|rest| - 1]);
    } else {
      assert ([first] + rest)[..0] == [];
    }
  }

  /** `chunks(8192)`: consecutive pieces of at most 8192 bytes, only the last shorter, that make up `data`. */
  function Chunks(data: seq<byte>): (cs: seq<seq<byte>>)
    ensures Flatten(cs) == data
    ensures forall i :: 0 <= i < |cs| ==> 0 < |cs[i]| <= ChunkSize
    ensures forall i :: 0 <= i < |cs| - 1 ==> |cs[i]| == ChunkSize
    ensures cs == [] <==> data == []
    decreases |data|
  {
    if data == [] then []
    else if |data| <= ChunkSize then
      assert Flatten([data]) == Flatten([]) + data;
      [data]
    else
      var rest := Chunks(data[ChunkSize..]);
      FlattenCons(data[..ChunkSize], rest);
      assert data[..ChunkSize] + data[ChunkSize..] == data;
      [data[..ChunkSize]] + rest
  }

  /** Chunk `i` is the slice of `data` starting at `i * 8192`. */
  lemma {:induction false} ChunkAt(data: seq<byte>, i: nat)
    requires i < |Chunks(data)|
    ensures i * ChunkSize < |data|
    ensures Chunks(data)[i] == data[i * ChunkSize .. Min((i + 1) * ChunkSize, |data|)]
    decreases i
  {
    if |data| <= ChunkSize {
      assert Chunks(data) == [data];
      assert data[0..|data|] == data;
    } else if i == 0 {
      assert Chunks(data) == [data[..ChunkSize]] + Chunks(data[ChunkSize..]);
      assert data[0..ChunkSize] == data[..ChunkSize];
    } else {
      ChunkAt(data[ChunkSize..], i - 1);
      ChunkAtStep(data, i);
    }
  }

  /** Chunk `i > 0` of `data` is chunk `i - 1` of what follows the first chunk. */
  lemma ChunkAtStep(data: seq<byte>, i: nat)
    requires ChunkSize < |data| && 0 < i < |Chunks(data)|
    requires (i - 1) * ChunkSize < |data| - ChunkSize
    requires Chunks(data[ChunkSize..])[i - 1]
          == data[ChunkSize..][(i - 1) * ChunkSize .. Min(i * ChunkSize, |data| - ChunkSize)]
    ensures Chunks(data)[i] == data[i * ChunkSize .. Min((i + 1) * ChunkSize, |data|)]
  {
    var tail := data[ChunkSize..];
    assert Chunks(data) == [data[..ChunkSize]] + Chunks(tail);
    assert Chunks(data)[i] == Chunks(tail)[i - 1];
    var lo, hi := i * ChunkSize, Min((i + 1) * ChunkSize, |data|);
    assert (i - 1) * ChunkSize == lo - ChunkSize && Min(i * ChunkSize, |tail|) == hi - ChunkSize;
    SliceOfSuffix(data, ChunkSize, lo, hi);
  }

  /** A slice of a suffix is the slice of the whole, shifted. */
  lemma SliceOfSuffix(data: seq<byte>, start: nat, lo: nat, hi: nat)
    requires start <= lo <= hi <= |data|
    ensures data[start..][lo - start .. hi - start] == data[lo..hi]
  {
    var left, right := data[start..][lo - start .. hi - start], data[lo..hi];
    assert |left| == |right|;
    forall k | 0 <= k < |left| ensures left[k] == right[k] {
      assert left[k] == data[start..][lo - start + k] == data[lo + k];
    }
  }

  /** The first `k` chunks are the first `min(8192 * k, |data|)` bytes. */
  lemma {:induction false} ChunkPrefix(data: seq<byte>, k: nat)
    requires k <= |Chunks(data)|
    ensures Flatten(Chunks(data)[..k]) == data[..Min(k * ChunkSize, |data|)]
    decreases k
  {
    var cs := Chunks(data);
    if k == 0 {
      assert cs[..0] == [];
    } else {
      ChunkPrefix(data, k - 1);
      PrefixGrows(data, k - 1);
      assert cs[..k][..k - 1] == cs[..k - 1];
      assert Flatten(cs[..k]) == Flatten(cs[..k - 1]) + cs[k - 1];
    }
  }

  /** The progress events of the first `k` chunks of an upload. */
  function UploadEvents(data: seq<byte>, filename: string, k: nat): (events: seq<TransferProgress>)
    requires k <= |Chunks(data)|
    ensures |events| == k
  {
    seq(k, i requires 0 <= i < k => TransferProgress(Min((i + 1) * ChunkSize, |data|), |data|, filename, Upload))
  }

  /**
   * A complete upload reports strictly growing byte counts, all against the
   * file's length, the last one being that length; an empty file reports nothing.
   */
  lemma UploadEventsShape(data: seq<byte>, filename: string)
    ensures var events := UploadEvents(data, filename, |Chunks(data)|);
      && (events == [] <==> data == [])
      && (forall i, j :: 0 <= i < j < |events| ==> events[i].bytesTransferred < events[j].bytesTransferred)
      && (events != [] ==> events[|events| - 1].bytesTransferred == |data|)
      && (forall i :: 0 <= i < |events| ==>
            events[i].totalBytes == |data| && events[i].direction == Upload && events[i].filename == filename)
  {
    var cs := Chunks(data);
    var events := UploadEvents(data, filename, |cs|);
    forall i, j | 0 <= i < j < |events|
      ensures events[i].bytesTransferred < events[j].bytesTransferred
    {
      ChunkAt(data, j);
    }
    if events != [] {
      ChunkPrefix(data, |cs|);
      assert cs[..|cs|] == cs;
    }
  }

  /** How many chunks an upload writes before `failure` stops it. */
  function ChunksWritten(data: seq<byte>, failure: Option<Failure>): (k: nat)
    ensures k <= |Chunks(data)|
    ensures k < |Chunks(data)| <==> failure.Some? && failure.value.at < |Chunks(data)|
    ensures k < |Chunks(data)| ==> FailsAt(failure, k)
  {
    if failure.Some? && failure.value.at < |Chunks(data)| then failure.value.at else |Chunks(data)|
  }

  /**
   * The chunk loop of `copy_to_linux`: write each chunk in turn and report
   * the running total after it, until the chunks run out or a write fails.
   */
  method WriteChunks(data: seq<byte>, filename: string, writeFailure: Option<Failure>)
    returns (written: nat, events: seq<TransferProgress>, remote: seq<byte>)
    ensures written == ChunksWritten(data, writeFailure)
    ensures events == UploadEvents(data, filename, written)
    ensures remote == data[..Min(written * ChunkSize, |data|)]
  {
    var chunks := Chunks(data);
    var totalSize := |data|;
    var bytesWritten := 0;
    written, events, remote := 0, [], [];
    while written < |chunks| && !FailsAt(writeFailure, written)
      invariant written <= ChunksWritten(data, writeFailure)
      invariant remote == data[..Min(written * ChunkSize, |data|)] && bytesWritten == |remote|
      invariant |events| == written
      invariant forall j :: 0 <= j < written ==>
        events[j] == TransferProgress(Min((j + 1) * ChunkSize, |data|), totalSize, filename, Upload)
    {
      PrefixGrows(data, written);
      remote := remote + chunks[written];
      bytesWritten := bytesWritten + |chunks[written]|;
      events := events + [TransferProgress(bytesWritten, totalSize, filename, Upload)];
      written := written + 1;
    }
    assert events == UploadEvents(data, filename, written);
  }

  /** Appending chunk `k` to the bytes of the chunks before it gives the bytes up to its end. */
  lemma PrefixGrows(data: seq<byte>, k: nat)
    requires k < |Chunks(data)|
    ensures data[..Min(k * ChunkSize, |data|)] + Chunks(data)[k] == data[..Min((k + 1) * ChunkSize, |data|)]
    ensures |Chunks(data)[k]| == Min((k + 1) * ChunkSize, |data|) - Min(k * ChunkSize, |data|)
  {
    ChunkAt(data, k);
    var lo, hi := k * ChunkSize, Min((k + 1) * ChunkSize, |data|);
    assert Min(lo, |data|) == lo;
    assert data[..lo] + data[lo..hi] == data[..hi];
  }

  /** The registered connection, or the error every command returns without one. */
  method RequireConnection(client: Ssh.SshClient, connectionId: string, now: Ssh.Instant)
    returns (r: Result<Ssh.SshConnection, string>)
    modifies client`connections
    ensures client.connections == Ssh.Touch(old(client.connections), connectionId, now)
    ensures r.Err? <==> connectionId !in old(client.connections)
    ensures r.Err? ==> r.error == ConnectionNotFound
  {
    var connection := client.GetConnection(connectionId, now);
    if connection.None? {
      return Err(ConnectionNotFound);
    }
    return Ok(connection.value);
  }

  /** `connect_ssh`: connect and prefix any error. */
  method ConnectSsh(client: Ssh.SshClient, config: Ssh.SshConfig, steps: Ssh.SessionSteps, now: Ssh.Instant)
    returns (r: Result<string, string>)
    modifies client`connections
    ensures Ssh.ConnectionKey(config) in old(client.connections) ==>
      r == Ok(Ssh.ConnectionKey(config)) && client.connections == old(client.connections)
    ensures Ssh.ConnectionKey(config) !in old(client.connections) && Ssh.OpenSession(config, steps).Ok? ==>
      && r == Ok(Ssh.ConnectionKey(config))
      && client.connections == old(client.connections)[Ssh.ConnectionKey(config) := Ssh.SshConnection(now, config)]
    ensures Ssh.ConnectionKey(config) !in old(client.connections) && Ssh.OpenSession(config, steps).Err? ==>
      r == Err("Failed to connect: " + Ssh.OpenSession(config, steps).error)
      && client.connections == old(client.connections)
  {
    r := client.Connect(config, steps, now);
    if r.Err? {
      r := Err("Failed to connect: " + r.error);
    }
  }

  /**
   * `copy_to_linux`: read the local file whole, create the remote file,
   * write it chunk by chunk with a progress event after each chunk, then
   * sync. `remote` is what the remote file has received.
   */
  method CopyToLinux(client: Ssh.SshClient, connectionId: string, localPath: string, now: Ssh.Instant,
                     localFile: Result<seq<byte>, string>, createRemote: Result<(), string>,
                     writeFailure: Option<Failure>, sync: Result<(), string>)
    returns (r: Result<(), string>, events: seq<TransferProgress>, remote: seq<byte>)
    modifies client`connections
    ensures client.connections == Ssh.Touch(old(client.connections), connectionId, now)
    ensures connectionId !in old(client.connections) ==> r == Err(ConnectionNotFound) && events == [] && remote == []
    ensures connectionId in old(client.connections) && localFile.Err? ==>
      r == Err("Failed to read local file: " + localFile.error) && events == [] && remote == []
    ensures connectionId in old(client.connections) && localFile.Ok? && createRemote.Err? ==>
      r == Err("Failed to create remote file: " + createRemote.error) && events == [] && remote == []
    ensures connectionId in old(client.connections) && localFile.Ok? && createRemote.Ok? ==>
      var data := localFile.value;
      var k := ChunksWritten(data, writeFailure);
      && events == UploadEvents(data, Paths.FileNameOr(localPath, Unknown), k)
      && remote == data[..Min(k * ChunkSize, |data|)]
      && (k < |Chunks(data)| ==> r == Err("Failed to write to remote file: " + writeFailure.value.message))
      && (k == |Chunks(data)| ==>
            remote == data && r == if sync.Ok? then Ok(()) else Err("Failed to sync remote file: " + sync.error))
  {
    events := [];
    remote := [];
    var connection := RequireConnection(client, connectionId, now);
    if connection.Err? {
      return Err(connection.error), events, remote;
    }
    if localFile.Err? {
      return Err("Failed to read local file: " + localFile.error), events, remote;
    }
    if createRemote.Err? {
      return Err("Failed to create remote file: " + createRemote.error), events, remote;
    }
    var data := localFile.value;
    var written;
    written, events, remote := WriteChunks(data, Paths.FileNameOr(localPath, Unknown), writeFailure);
    if written < |Chunks(data)| {
      return Err("Failed to write to remote file: " + writeFailure.value.message), events, remote;
    }
    ChunkPrefix(data, written);
    assert Chunks(data)[..written] == Chunks(data);
    if sync.Err? {
      return Err("Failed to sync remote file: " + sync.error), events, remote;
    }
    return Ok(()), events, remote;
  }

  /** The size of one read into the 8192-byte download buffer; zero is end of file. */
  type ReadLen = n: nat | n <= ChunkSize

  /** Bytes delivered by a run of outcomes (failed outcomes deliver none). */
  function BytesRead(outcomes: seq<Result<ReadLen, string>>): nat
  {
    if outcomes == [] then 0
    else BytesRead(outcomes[..|outcomes| - 1]) + (if outcomes[|outcomes| - 1].Ok? then outcomes[|outcomes| - 1].value else 0)
  }

  /** A read that ends the download loop at step `i`: an error, end of file, or a failed write. */
  predicate StopsAt(outcomes: seq<Result<ReadLen, string>>, writeFailure: Option<Failure>, i: nat)
    requires i < |outcomes|
  {
    outcomes[i].Err? || outcomes[i].value == 0 || FailsAt(writeFailure, i)
  }

  /** The first step at or after `from` where the download loop stops; `|outcomes|` if none does. */
  function FirstStop(outcomes: seq<Result<ReadLen, string>>, writeFailure: Option<Failure>, from: nat): (k: nat)
    requires from <= |outcomes|
    ensures from <= k <= |outcomes|
    ensures forall i :: from <= i < k ==> !StopsAt(outcomes, writeFailure, i)
    ensures k < |outcomes| ==> StopsAt(outcomes, writeFailure, k)
    decreases |outcomes| - from
  {
    if from == |outcomes| || StopsAt(outcomes, writeFailure, from) then from
    else FirstStop(outcomes, writeFailure, from + 1)
  }

  /** Every read before the stop delivered bytes, so the running total grows at each of them. */
  lemma {:induction false} BytesReadGrows(outcomes: seq<Result<ReadLen, string>>, writeFailure: Option<Failure>, i: nat, j: nat)
    requires i < j <= FirstStop(outcomes, writeFailure, 0)
    ensures BytesRead(outcomes[..i]) < BytesRead(outcomes[..j])
    decreases j - i
  {
    assert outcomes[..j][..j - 1] == outcomes[..j - 1];
    assert !StopsAt(outcomes, writeFailure, j - 1);
    if i < j - 1 {
      BytesReadGrows(outcomes, writeFailure, i, j - 1);
    }
  }

  /**
   * `copy_from_linux`: open the remote file, read its size (0 when the server
   * does not say), create the local file, then read and write 8192-byte
   * chunks until a read returns nothing, with a progress event after each
   * chunk, and sync. `bytesRead` is the running total the events report.
   * `outcomes` are the server's answers to the reads, in order; a finite
   * file's reads end in end of file (a read of 0 bytes) or an error, so the
   * script ends with one of those.
   */
  method CopyFromLinux(client: Ssh.SshClient, connectionId: string, remotePath: string, now: Ssh.Instant,
                       openRemote: Result<(), string>, stat: Result<Option<nat>, string>,
                       createLocal: Result<(), string>, outcomes: seq<Result<ReadLen, string>>,
                       writeFailure: Option<Failure>, sync: Result<(), string>)
    returns (r: Result<(), string>, events: seq<TransferProgress>, bytesRead: nat)
    requires |outcomes| > 0 && (outcomes[|outcomes| - 1].Err? || outcomes[|outcomes| - 1].value == 0)
    modifies client`connections
    ensures client.connections == Ssh.Touch(old(client.connections), connectionId, now)
    ensures connectionId !in old(client.connections) ==> r == Err(ConnectionNotFound) && events == []
    ensures connectionId in old(client.connections) && openRemote.Err? ==>
      r == Err("Failed to open remote file: " + openRemote.error) && events == []
    ensures connectionId in old(client.connections) && openRemote.Ok? && stat.Err? ==>
      r == Err("Failed to get file stats: " + stat.error) && events == []
    ensures connectionId in old(client.connections) && openRemote.Ok? && stat.Ok? && createLocal.Err? ==>
      r == Err("Failed to create local file: " + createLocal.error) && events == []
    ensures connectionId in old(client.connections) && openRemote.Ok? && stat.Ok? && createLocal.Ok? ==>
      var k := FirstStop(outcomes, writeFailure, 0);
      var totalSize := if stat.value.Some? then stat.value.value else 0;
      && k < |outcomes|
      && |events| == k
      && bytesRead == BytesRead(outcomes[..k])
      && (forall i :: 0 <= i < k ==>
            events[i] == TransferProgress(BytesRead(outcomes[..i + 1]), totalSize, Paths.FileNameOr(remotePath, Unknown), Download))
      && (outcomes[k].Err? ==> r == Err("Failed to read from remote file: " + outcomes[k].error))
      && (outcomes[k].Ok? && outcomes[k].value > 0 ==>
            r == Err("Failed to write to local file: " + writeFailure.value.message))
      && (outcomes[k].Ok? && outcomes[k].value == 0 ==>
            r == if sync.Ok? then Ok(()) else Err("Failed to sync local file: " + sync.error))
  {
    events := [];
    bytesRead := 0;
    var connection := RequireConnection(client, connectionId, now);
    if connection.Err? {
      return Err(connection.error), events, bytesRead;
    }
    if openRemote.Err? {
      return Err("Failed to open remote file: " + openRemote.error), events, bytesRead;
    }
    if stat.Err? {
      return Err("Failed to get file stats: " + stat.error), events, bytesRead;
    }
    var totalSize := if stat.value.Some? then stat.value.value else 0;
    if createLocal.Err? {
      return Err("Failed to create local file: " + createLocal.error), events, bytesRead;
    }
    r, events, bytesRead := DownloadChunks(outcomes, writeFailure, totalSize, Paths.FileNameOr(remotePath, Unknown));
    if r.Err? {
      return;
    }
    if sync.Err? {
      return Err("Failed to sync local file: " + sync.error), events, bytesRead;
    }
    return Ok(()), events, bytesRead;
  }

  /**
   * The read loop of `copy_from_linux`: read a chunk, stop at end of file,
   * write it, add it to the total and report the total, until a read or a
   * write fails or a read returns nothing. `outcomes` end in end of file or
   * a read error.
   */
  method DownloadChunks(outcomes: seq<Result<ReadLen, string>>, writeFailure: Option<Failure>, totalSize: nat, filename: string)
    returns (r: Result<(), string>, events: seq<TransferProgress>, bytesRead: nat)
    requires |outcomes| > 0 && (outcomes[|outcomes| - 1].Err? || outcomes[|outcomes| - 1].value == 0)
    ensures
      var k := FirstStop(outcomes, writeFailure, 0);
      && k < |outcomes|
      && |events| == k
      && bytesRead == BytesRead(outcomes[..k])
      && (forall i :: 0 <= i < k ==>
            events[i] == TransferProgress(BytesRead(outcomes[..i + 1]), totalSize, filename, Download))
      && (outcomes[k].Err? ==> r == Err("Failed to read from remote file: " + outcomes[k].error))
      && (outcomes[k].Ok? && outcomes[k].value > 0 ==>
            r == Err("Failed to write to local file: " + writeFailure.value.message))
      && (outcomes[k].Ok? && outcomes[k].value == 0 ==> r == Ok(()))
  {
    events := [];
    bytesRead := 0;
    var i := 0;
    assert StopsAt(outcomes, writeFailure, |outcomes| - 1);
    while true
      invariant 0 <= i <= FirstStop(outcomes, writeFailure, 0) < |outcomes|
      invariant bytesRead == BytesRead(outcomes[..i])
      invariant |events| == i
      invariant forall j :: 0 <= j < i ==> events[j] == TransferProgress(BytesRead(outcomes[..j + 1]), totalSize, filename, Download)
      decreases |outcomes| - i
    {
      if outcomes[i].Err? {
        assert StopsAt(outcomes, writeFailure, i);
        return Err("Failed to read from remote file: " + outcomes[i].error), events, bytesRead;
      }
      var bytes := outcomes[i].value;
      if bytes == 0 {
        assert StopsAt(outcomes, writeFailure, i);
        return Ok(()), events, bytesRead;
      }
      if FailsAt(writeFailure, i) {
        assert StopsAt(outcomes, writeFailure, i);
        return Err("Failed to write to local file: " + writeFailure.value.message), events, bytesRead;
      }
      assert !StopsAt(outcomes, writeFailure, i);
      assert outcomes[..i + 1][..i] == outcomes[..i];
      bytesRead := bytesRead + bytes;
      events := events + [TransferProgress(bytesRead, totalSize, filename, Download)];
      i := i + 1;
    }
  }

  /** A download's events report strictly growing totals. */
  lemma DownloadEventsIncrease(outcomes: seq<Result<ReadLen, string>>, writeFailure: Option<Failure>, i: nat, j: nat)
    requires i < j < FirstStop(outcomes, writeFailure, 0)
    ensures BytesRead(outcomes[..i + 1]) < BytesRead(outcomes[..j + 1])
  {
    BytesReadGrows(outcomes, writeFailure, i + 1, j + 1);
  }

  /** The SFTP call `delete_linux_file` makes. */
  datatype RemoveCall = Rmdir | Unlink

  /** `delete_linux_file`: a directory is removed with `rmdir`, anything else with `unlink`. */
  method DeleteLinuxFile(client: Ssh.SshClient, connectionId: string, now: Ssh.Instant,
                         stat: Result<bool, string>, remove: Result<(), string>)
    returns (r: Result<(), string>, call: Option<RemoveCall>)
    modifies client`connections
    ensures client.connections == Ssh.Touch(old(client.connections), connectionId, now)
    ensures connectionId !in old(client.connections) ==> r == Err(ConnectionNotFound) && call == None
    ensures connectionId in old(client.connections) && stat.Err? ==>
      r == Err("Failed to get file stats: " + stat.error) && call == None
    ensures connectionId in old(client.connections) && stat.Ok? ==>
      && call == Some(if stat.value then Rmdir else Unlink)
      && (remove.Ok? ==> r == Ok(()))
      && (remove.Err? ==> r == Err((if stat.value then "Failed to remove directory: " else "Failed to remove file: ")
                                   + remove.error))
  {
    var connection := RequireConnection(client, connectionId, now);
    if connection.Err? {
      return Err(connection.error), None;
    }
    if stat.Err? {
      return Err("Failed to get file stats: " + stat.error), None;
    }
    var isDirectory := stat.value;
    if isDirectory {
      call := Some(Rmdir);
      if remove.Err? {
        return Err("Failed to remove directory: " + remove.error), call;
      }
    } else {
      call := Some(Unlink);
      if remove.Err? {
        return Err("Failed to remove file: " + remove.error), call;
      }
    }
    return Ok(()), call;
  }

  /** `format_permissions`: the mode in base 8, without prefix or leading zeros. */
  function FormatPermissions(mode: Mode): (s: string)
    ensures |s| >= 1 && forall i :: 0 <= i < |s| ==> Digits.IsDigit(s[i], 8)
    ensures Digits.Parse(s, 8) == mode
    ensures s[0] == '0' ==> s == "0"
  {
    Digits.Octal(mode)
  }

  /** Two modes are formatted alike only when they are equal. */
  lemma FormatPermissionsInjective(a: Mode, b: Mode)
    requires FormatPermissions(a) == FormatPermissions(b)
    ensures a == b
  {
  }

  /** `get_linux_permissions` */
  method GetLinuxPermissions(client: Ssh.SshClient, connectionId: string, now: Ssh.Instant, stat: Result<Mode, string>)
    returns (r: Result<string, string>)
    modifies client`connections
    ensures client.connections == Ssh.Touch(old(client.connections), connectionId, now)
    ensures connectionId !in old(client.connections) ==> r == Err(ConnectionNotFound)
    ensures connectionId in old(client.connections) && stat.Err? ==> r == Err("Failed to get file stats: " + stat.error)
    ensures connectionId in old(client.connections) && stat.Ok? ==> r == Ok(FormatPermissions(stat.value))
  {
    var connection := RequireConnection(client, connectionId, now);
    if connection.Err? {
      return Err(connection.error);
    }
    if stat.Err? {
      return Err("Failed to get file stats: " + stat.error);
    }
    return Ok(FormatPermissions(stat.value));
  }

  /**
   * `set_linux_permissions`: the requested bits go through
   * `Permissions::from_bits`, given here as `fromBits`; bits it refuses
   * become the empty set (0). `applied` is the mode handed to `setstat`.
   */
  method SetLinuxPermissions(client: Ssh.SshClient, connectionId: string, now: Ssh.Instant, permissions: Mode,
                             fromBits: Mode -> Option<Mode>, setstat: Result<(), string>)
    returns (r: Result<(), string>, applied: Option<Mode>)
    modifies client`connections
    ensures client.connections == Ssh.Touch(old(client.connections), connectionId, now)
    ensures connectionId !in old(client.connections) ==> r == Err(ConnectionNotFound) && applied == None
    ensures connectionId in old(client.connections) ==>
      && applied == Some(if fromBits(permissions).Some? then fromBits(permissions).value else 0)
      && r == if setstat.Ok? then Ok(()) else Err("Failed to set permissions: " + setstat.error)
  {
    var connection := RequireConnection(client, connectionId, now);
    if connection.Err? {
      return Err(connection.error), None;
    }
    var bits := fromBits(permissions);
    applied := Some(if bits.Some? then bits.value else 0);
    if setstat.Err? {
      return Err("Failed to set permissions: " + setstat.error), applied;
    }
    return Ok(()), applied;
  }

  /** One entry of an SFTP directory listing, with the attributes the server may leave out. */
  datatype DirEntry = DirEntry(
    path: string,
    isDir: bool,
    size: Option<nat>,
    permissions: Mode,
    uid: Option<nat>,
    gid: Option<nat>,
    mtime: Option<nat>,
    atime: Option<nat>)

  datatype LinuxFileInfo = LinuxFileInfo(
    name: string,
    path: string,
    size: nat,
    isDir: bool,
    permissions: string,
    owner: string,
    group: string,
    modified: nat,
    accessed: nat)

  /** The record `list_linux_dir` builds for one entry; missing attributes take their defaults. */
  function FileInfo(entry: DirEntry, now: nat): (info: LinuxFileInfo)
    ensures info.name == Paths.FileNameOr(entry.path, Unknown) && info.path == entry.path
    ensures info.isDir == entry.isDir
    ensures entry.size.None? ==> info.size == 0
    ensures entry.size.Some? ==> info.size == entry.size.value
    ensures info.permissions == FormatPermissions(entry.permissions)
    ensures entry.uid.None? ==> info.owner == "0"
    ensures entry.gid.None? ==> info.group == "0"
    ensures entry.uid.Some? ==> info.owner == Digits.Decimal(entry.uid.value)
    ensures entry.gid.Some? ==> info.group == Digits.Decimal(entry.gid.value)
    ensures info.modified == if entry.mtime.Some? then entry.mtime.value else now
    ensures info.accessed == if entry.atime.Some? then entry.atime.value else now
  {
    var uid := if entry.uid.Some? then entry.uid.value else 0;
    var gid := if entry.gid.Some? then entry.gid.value else 0;
    LinuxFileInfo(
      name := Paths.FileNameOr(entry.path, Unknown),
      path := entry.path,
      size := if entry.size.Some? then entry.size.value else 0,
      isDir := entry.isDir,
      permissions := FormatPermissions(entry.permissions),
      owner := Digits.Decimal(uid),
      group := Digits.Decimal(gid),
      modified := if entry.mtime.Some? then entry.mtime.value else now,
      accessed := if entry.atime.Some? then entry.atime.value else now)
  }

  /**
   * `list_linux_dir`: one record per directory entry, in the server's order.
   * `now` is the instant the connection lookup records as last activity;
   * `utcNow` is the wall-clock time a record falls back to for a missing
   * modification or access time.
   */
  method ListLinuxDir(client: Ssh.SshClient, connectionId: string, now: Ssh.Instant, utcNow: nat,
                      readdir: Result<seq<DirEntry>, string>)
    returns (r: Result<seq<LinuxFileInfo>, string>)
    modifies client`connections
    ensures client.connections == Ssh.Touch(old(client.connections), connectionId, now)
    ensures connectionId !in old(client.connections) ==> r == Err(ConnectionNotFound)
    ensures connectionId in old(client.connections) && readdir.Err? ==>
      r == Err("Failed to read directory: " + readdir.error)
    ensures connectionId in old(client.connections) && readdir.Ok? ==>
      && r.Ok? && |r.value| == |readdir.value|
      && forall i :: 0 <= i < |r.value| ==> r.value[i] == FileInfo(readdir.value[i], utcNow)
  {
    var connection := RequireConnection(client, connectionId, now);
    if connection.Err? {
      return Err(connection.error);
    }
    if readdir.Err? {
      return Err("Failed to read directory: " + readdir.error);
    }
    var files := FileInfos(readdir.value, utcNow);
    return Ok(files);
  }

  /** The loop of `list_linux_dir`: the record of each entry, in order. */
  method FileInfos(entries: seq<DirEntry>, now: nat) returns (files: seq<LinuxFileInfo>)
    ensures |files| == |entries|
    ensures forall i :: 0 <= i < |entries| ==> files[i] == FileInfo(entries[i], now)
  {
    files := [];
    var i := 0;
    while i < |entries|
      invariant 0 <= i <= |entries|
      invariant |files| == i
      invariant forall j :: 0 <= j < i ==> files[j] == FileInfo(entries[j], now)
    {
      files := files + [FileInfo(entries[i], now)];
      i := i + 1;
    }
  }
}

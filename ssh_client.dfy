/**
 * The registry of open SSH connections, keyed by `user@host:port`. The TCP
 * connection, the SSH session, its handshake, authentication and the SFTP
 * subsystem are outside the model: each step is given as an outcome.
 */
module SshClient {
  import opened Wrappers
  import Ids
  import Digits
  import Strings

  /** A monotonic clock reading. */
  type Instant = nat

  /** Seconds between keepalive ticks of a connection. */
  const KeepaliveIntervalSecs: nat := 60

  const ConnectFailed: string := "Failed to connect to SSH server"
  const SessionFailed: string := "Failed to create SSH session"
  const HandshakeFailed: string := "SSH handshake failed"
  const KeyAuthFailed: string := "SSH key authentication failed"
  const PasswordAuthFailed: string := "SSH password authentication failed"
  const NoAuthMethod: string := "No authentication method provided"
  const NotAuthenticated: string := "SSH authentication failed"
  const SftpFailed: string := "Failed to create SFTP subsystem"

  datatype SshConfig = SshConfig(
    host: string,
    port: Ids.u16,
    username: string,
    keyPath: Option<string>,
    password: Option<string>)

  /** An open connection; its session and SFTP handles are not modelled. */
  datatype SshConnection = SshConnection(lastActivity: Instant, config: SshConfig)

  datatype AuthMethod = KeyFile(path: string) | Password(password: string)

  /**
   * How each step of opening a session turns out: the TCP connection, the
   * session object, the handshake, the authentication call, the server's
   * verdict on whether the session is authenticated, and the SFTP subsystem.
   */
  datatype SessionSteps = SessionSteps(
    tcpConnected: bool,
    sessionCreated: bool,
    handshakeDone: bool,
    authAccepted: bool,
    authenticated: bool,
    sftpOpened: bool)

  /** The registry key of a configuration; the same text as `ConnectionId::new` builds. */
  function ConnectionKey(config: SshConfig): (key: string)
    ensures key == Ids.NewConnectionId(config.username, config.host, config.port).AsStr()
    ensures |key| > |config.username| && key[..|config.username|] == config.username
    ensures Strings.AfterLast(key, ':') == Digits.Decimal(config.port as nat)
    ensures key[|config.username| + 1..|config.username| + 1 + |config.host|] == config.host
  {
    config.username + "@" + config.host + ":" + Digits.Decimal(config.port as nat)
  }

  /** A key file is used when given, else a password, else there is no way to authenticate. */
  function ChooseAuth(config: SshConfig): (r: Result<AuthMethod, string>)
    ensures config.keyPath.Some? ==> r == Ok(KeyFile(config.keyPath.value))
    ensures config.keyPath.None? && config.password.Some? ==> r == Ok(Password(config.password.value))
    ensures r.Err? <==> config.keyPath.None? && config.password.None?
    ensures r.Err? ==> r.error == NoAuthMethod
  {
    if config.keyPath.Some? then Ok(KeyFile(config.keyPath.value))
    else if config.password.Some? then Ok(Password(config.password.value))
    else Err(NoAuthMethod)
  }

  function AuthFailure(auth: AuthMethod): string
  {
    match auth
    case KeyFile(_) => KeyAuthFailed
    case Password(_) => PasswordAuthFailed
  }

  /**
   * Opening a session: the steps run in order and the first one to fail
   * names the error. An unusable configuration is only noticed after the
   * handshake.
   */
  function OpenSession(config: SshConfig, steps: SessionSteps): (r: Result<(), string>)
    ensures r.Ok? <==>
      (&& steps.tcpConnected && steps.sessionCreated && steps.handshakeDone
       && ChooseAuth(config).Ok? && steps.authAccepted && steps.authenticated && steps.sftpOpened)
    ensures !steps.tcpConnected ==> r == Err(ConnectFailed)
    ensures steps.tcpConnected && steps.sessionCreated && steps.handshakeDone && ChooseAuth(config).Err? ==>
      r == Err(NoAuthMethod)
    ensures steps.tcpConnected && steps.sessionCreated && steps.handshakeDone && ChooseAuth(config).Ok?
            && !steps.authAccepted ==>
      r == Err(if config.keyPath.Some? then KeyAuthFailed else PasswordAuthFailed)
    ensures r.Err? ==> r.error in {ConnectFailed, SessionFailed, HandshakeFailed, KeyAuthFailed,
                                   PasswordAuthFailed, NoAuthMethod, NotAuthenticated, SftpFailed}
  {
    if !steps.tcpConnected then Err(ConnectFailed)
    else if !steps.sessionCreated then Err(SessionFailed)
    else if !steps.handshakeDone then Err(HandshakeFailed)
    else match ChooseAuth(config)
      case Err(e) => Err(e)
      case Ok(auth) =>
        if !steps.authAccepted then Err(AuthFailure(auth))
        else if !steps.authenticated then Err(NotAuthenticated)
        else if !steps.sftpOpened then Err(SftpFailed)
        else Ok(())
  }

  /** The registry after `get_connection(id)` at time `now`: only that entry's last activity moves. */
  function Touch(connections: map<string, SshConnection>, connectionId: string, now: Instant)
    : (m: map<string, SshConnection>)
    ensures m.Keys == connections.Keys
    ensures connectionId in m ==> m[connectionId] == connections[connectionId].(lastActivity := now)
    ensures forall other :: other in m && other != connectionId ==> m[other] == connections[other]
  {
    if connectionId in connections then connections[connectionId := connections[connectionId].(lastActivity := now)]
    else connections
  }

  class SshClient {
    var connections: map<string, SshConnection>
    const keepaliveIntervalSecs: nat

    /** `SSHClient::new` */
    constructor ()
      ensures connections == map[] && keepaliveIntervalSecs == KeepaliveIntervalSecs
    {
      connections := map[];
      keepaliveIntervalSecs := KeepaliveIntervalSecs;
    }

    /**
     * `connect`: a configuration whose key is registered is answered with
     * that key and nothing else happens; otherwise a session is opened and,
     * only if every step succeeds, stored under the key.
     */
    method Connect(config: SshConfig, steps: SessionSteps, now: Instant) returns (r: Result<string, string>)
      modifies this`connections
      ensures ConnectionKey(config) in old(connections) ==>
        r == Ok(ConnectionKey(config)) && connections == old(connections)
      ensures ConnectionKey(config) !in old(connections) && OpenSession(config, steps).Err? ==>
        r == Err(OpenSession(config, steps).error) && connections == old(connections)
      ensures ConnectionKey(config) !in old(connections) && OpenSession(config, steps).Ok? ==>
        r == Ok(ConnectionKey(config)) && connections == old(connections)[ConnectionKey(config) := SshConnection(now, config)]
      ensures r.Ok? ==> r.value == ConnectionKey(config) && r.value in connections
    {
      var connectionId := ConnectionKey(config);
      if connectionId in connections {
        return Ok(connectionId);
      }
      var session := OpenSession(config, steps);
      if session.Err? {
        return Err(session.error);
      }
      connections := connections[connectionId := SshConnection(now, config)];
      return Ok(connectionId);
    }

    /** `get_connection`: refresh the entry's last activity and hand back a copy of it. */
    method GetConnection(connectionId: string, now: Instant) returns (r: Option<SshConnection>)
      modifies this`connections
      ensures connections == Touch(old(connections), connectionId, now)
      ensures r.None? <==> connectionId !in old(connections)
      ensures r.Some? ==> r == Some(connections[connectionId])
    {
      if connectionId !in connections {
        return None;
      }
      var conn := connections[connectionId].(lastActivity := now);
      connections := connections[connectionId := conn];
      return Some(conn);
    }

    /** `disconnect`: forget the id, if it is registered. */
    method Disconnect(connectionId: string)
      modifies this`connections
      ensures connections == old(connections) - {connectionId}
    {
      connections := connections - {connectionId};
    }

    /** `is_connected` */
    function IsConnected(connectionId: string): (r: bool)
      reads this
      ensures r <==> connectionId in connections
    {
      connectionId in connections
    }

    /** `list_connections`: every registered id once, in no particular order. */
    method ListConnections() returns (ids: seq<string>)
      ensures forall i :: 0 <= i < |ids| ==> IsConnected(ids[i])
      ensures forall id :: IsConnected(id) ==> id in ids
      ensures forall i, j :: 0 <= i < j < |ids| ==> ids[i] != ids[j]
      ensures |ids| == |connections|
    {
      ids := [];
      var remaining := connections.Keys;
      while remaining != {}
        invariant remaining <= connections.Keys
        invariant |ids| + |remaining| == |connections|
        invariant forall i :: 0 <= i < |ids| ==> ids[i] in connections && ids[i] !in remaining
        invariant forall i, j :: 0 <= i < j < |ids| ==> ids[i] != ids[j]
        invariant forall id :: id in connections && id !in remaining ==> id in ids
        decreases |remaining|
      {
        var id :| id in remaining;
        ids := ids + [id];
        remaining := remaining - {id};
      }
    }
  }

  /**
   * Connecting twice with the same configuration: once the first call has
   * succeeded, the second returns the same id without opening a session,
   * whatever its own steps would do.
   */
  method ConnectIsIdempotent(client: SshClient, config: SshConfig, first: SessionSteps, second: SessionSteps,
                             now: Instant, later: Instant)
    returns (r1: Result<string, string>, r2: Result<string, string>)
    modifies client
    ensures r1.Ok? ==> r2 == r1 && r1.value == ConnectionKey(config) && r1.value in client.connections
  {
    r1 := client.Connect(config, first, now);
    ghost var afterFirst := client.connections;
    r2 := client.Connect(config, second, later);
    assert r1.Ok? ==> client.connections == afterFirst;
  }
}

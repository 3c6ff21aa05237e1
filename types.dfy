/** The string newtypes that name connections and transfer tasks. */
module Ids {
  import Digits
  import Strings

  /** A TCP port number (`u16`). */
  newtype u16 = x: int | 0 <= x < 0x1_0000

  datatype ConnectionId = ConnectionId(value: string) {
    /** `ConnectionId::as_str` */
    function AsStr(): string { value }
  }

  datatype TaskId = TaskId(value: string) {
    /** `TaskId::as_str` */
    function AsStr(): string { value }
  }

  /** No decimal rendering contains a colon. */
  lemma DecimalHasNoColon(n: nat)
    ensures ':' !in Digits.Decimal(n)
  {
    var s := Digits.Decimal(n);
    forall i | 0 <= i < |s| ensures s[i] != ':' {
      assert Digits.IsDigit(s[i], 10);
    }
  }

  /**
   * `ConnectionId::new`: the user name, `@`, the host, `:` and the port in
   * decimal. Each part can be read back at its place, and whatever the host
   * holds (an IPv6 literal has colons of its own), the text after the last
   * colon is the port.
   */
  function NewConnectionId(username: string, host: string, port: u16): (id: ConnectionId)
    ensures |id.AsStr()| > |username|
    ensures id.AsStr()[..|username|] == username && id.AsStr()[|username|] == '@'
    ensures Strings.AfterLast(id.AsStr(), ':') == Digits.Decimal(port as nat)
    ensures |id.AsStr()| == |username| + |host| + |Digits.Decimal(port as nat)| + 2
    ensures id.AsStr()[|username| + 1..|username| + 1 + |host|] == host
    ensures id.AsStr()[|username| + 1 + |host|] == ':'
  {
    var digits := Digits.Decimal(port as nat);
    DecimalHasNoColon(port as nat);
    Strings.AfterLastOfSuffix(username + "@" + host, ':', digits);
    assert username + "@" + host + ":" + digits == (username + "@" + host) + [':'] + digits;
    ConnectionId(username + "@" + host + ":" + digits)
  }

  /** The port can be read back from a connection id, and has no leading zeros. */
  lemma PortReadBack(username: string, host: string, port: u16)
    ensures var tail := Strings.AfterLast(NewConnectionId(username, host, port).AsStr(), ':');
      && (forall i :: 0 <= i < |tail| ==> Digits.IsDigit(tail[i], 10))
      && Digits.Parse(tail, 10) == port as nat
      && (tail[0] == '0' ==> tail == "0")
  {
    Digits.ParseRender(port as nat, 10);
  }

  /** `impl From<String> for ConnectionId`: wraps the text unchanged. */
  function ConnectionIdFrom(s: string): (id: ConnectionId)
    ensures id.AsStr() == s
  {
    ConnectionId(s)
  }

  /** `impl From<String> for TaskId`: wraps the text unchanged. */
  function TaskIdFrom(s: string): (id: TaskId)
    ensures id.AsStr() == s
  {
    TaskId(s)
  }
}

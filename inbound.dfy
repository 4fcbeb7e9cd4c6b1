/**
 * Connection admission (cmd/server/inbound_tcp.go): the parse of the first
 * packet after the TLS handshake and the rule that routes each stream of
 * an admitted session and reports its traffic.
 *
 * First packet: [32-byte fingerprint][2-byte big-endian length L][L bytes of
 * padding][session data]. The fingerprint is checked before anything after
 * it is read; only the session data is replayed to the session layer.
 */
module Inbound {
  import opened Panel
  import opened Traffic
  import opened Server

  /**
   * The bytes of the first read with a read cursor, as the handler uses its
   * packet buffer: reads advance `start`, a resize to (0, n) rewinds it, and
   * the cached connection replays the unread part before later data.
   */
  class PacketBuffer {
    const data: seq<byte>
    var start: nat

    ghost predicate Valid()
      reads this
    {
      start <= |data|
    }

    constructor (data: seq<byte>)
      ensures Valid()
      ensures this.data == data && start == 0
    {
      this.data := data;
      start := 0;
    }

    /** ReadBytes: the next `n` bytes, or an error (cursor unmoved) if fewer remain. */
    method ReadBytes(n: nat) returns (r: Option<seq<byte>>)
      requires Valid()
      modifies this
      ensures Valid()
      ensures old(start) + n <= |data| ==> r == Some(data[old(start)..old(start) + n]) && start == old(start) + n
      ensures old(start) + n > |data| ==> r == None && start == old(start)
    {
      if |data| - start < n {
        return None;
      }
      r := Some(data[start..start + n]);
      start := start + n;
    }

    /** Resize(0, n): everything read so far becomes unread again. */
    method Rewind()
      modifies this
      ensures Valid()
      ensures start == 0
    {
      start := 0;
    }

    /** The bytes the cached connection will replay first. */
    function Unread(): seq<byte>
      reads this
      requires Valid()
    {
      data[start..]
    }
  }

  /** The fate of a connection after its first packet. */
  datatype Admission =
    | Closed                                  // nothing read, or too short for a fingerprint
    | Fallback(replay: seq<byte>)             // handed to fallback with the whole packet unread
    | Admitted(userId: int, replay: seq<byte>) // session layer starts with `replay`

  /** binary.BigEndian.Uint16 */
  function BigEndian16(hi: byte, lo: byte): (n: nat)
    ensures n < 0x1_0000
  {
    hi as nat * 0x100 + lo as nat
  }

  /** The two bytes a client writes for a padding length below 65536. */
  function BigEndianBytes(n: nat): (b: seq<byte>)
    requires n < 0x1_0000
    ensures |b| == 2 && BigEndian16(b[0], b[1]) == n
  {
    [(n / 0x100) as byte, (n % 0x100) as byte]
  }

  /** What the handler makes of a first packet, given the server's answers. */
  function Admit(s: MyServer, packet: seq<byte>): Admission
    reads s.v2boardAuth
  {
    if |packet| < DigestSize then Closed
    else
      var verdict := s.Verdict(packet[..DigestSize]);
      if !verdict.1 then Fallback(packet)
      else if |packet| < DigestSize + 2 then Fallback(packet)
      else
        var paddingLen := BigEndian16(packet[DigestSize], packet[DigestSize + 1]);
        if |packet| < DigestSize + 2 + paddingLen then Fallback(packet)
        else Admitted(verdict.0, packet[DigestSize + 2 + paddingLen..])
  }

  /**
   * isValidAuth: asks authenticate; on refusal rewinds the buffer to the
   * whole packet (and hands the connection to fallback).
   */
  method IsValidAuth(passwordHash: seq<byte>, s: MyServer, b: PacketBuffer) returns (valid: bool)
    requires b.Valid()
    modifies b
    ensures b.Valid()
    ensures valid == s.Verdict(passwordHash).1
    ensures valid ==> b.start == old(b.start)
    ensures !valid ==> b.start == 0
  {
    var userId, ok, compared := s.Authenticate(passwordHash);
    if !ok {
      b.Rewind();
      return false;
    }
    return true;
  }

  /**
   * The first-packet part of handleTcpConnection: `firstRead` is the result
   * of the one read after the handshake.
   */
  method HandleFirstPacket(s: MyServer, firstRead: Result<seq<byte>>) returns (outcome: Admission)
    ensures firstRead.Err? ==> outcome == Closed
    ensures firstRead.Ok? ==> outcome == Admit(s, firstRead.value)
  {
    if firstRead.Err? {
      return Closed;
    }
    var packet := firstRead.value;
    var b := new PacketBuffer(packet);
    var passwordHashBytes := b.ReadBytes(DigestSize);
    if passwordHashBytes.None? {
      return Closed;
    }
    var valid := IsValidAuth(passwordHashBytes.value, s, b);
    if !valid {
      return Fallback(b.Unread());
    }
    var paddingLenBytes := b.ReadBytes(2);
    if paddingLenBytes.None? {
      b.Rewind();
      return Fallback(b.Unread());
    }
    var paddingLen := BigEndian16(paddingLenBytes.value[0], paddingLenBytes.value[1]);
    if paddingLen > 0 {
      var padding := b.ReadBytes(paddingLen);
      if padding.None? {
        b.Rewind();
        return Fallback(b.Unread());
      }
    }
    var userId, ok, compared := s.Authenticate(passwordHashBytes.value);
    return Admitted(userId, b.Unread());
  }

  /** The destination text that marks a UDP-over-TCP request. */
  const UotMarker: string := "udp-over-tcp.arpa"

  /** The outbound path a stream takes. */
  datatype Route = UoT | Tcp

  /** `sub` occurs in `s` starting at index `i`. */
  predicate OccursAt(s: string, sub: string, i: int) {
    0 <= i && i + |sub| <= |s| && s[i..i + |sub|] == sub
  }

  /** strings.Contains: `sub` occurs somewhere in `s`. */
  function Contains(s: string, sub: string): (r: bool)
    ensures r <==> exists i :: OccursAt(s, sub, i)
    decreases |s|
  {
    if |s| < |sub| then false
    else if s[..|sub|] == sub then assert OccursAt(s, sub, 0); true
    else
      var r := Contains(s[1..], sub);
      assert r ==> exists i :: OccursAt(s, sub, i) by {
        if r {
          var i :| OccursAt(s[1..], sub, i);
          assert s[1..][i..i + |sub|] == s[i + 1..i + 1 + |sub|];
          assert OccursAt(s, sub, i + 1);
        }
      }
      assert (exists i :: OccursAt(s, sub, i)) ==> r by {
        if exists i :: OccursAt(s, sub, i) {
          var i :| OccursAt(s, sub, i);
          assert i != 0;
          assert s[1..][i - 1..i - 1 + |sub|] == s[i..i + |sub|];
          assert OccursAt(s[1..], sub, i - 1);
        }
      }
      r
  }

  /** The route for a destination, given as its text form. */
  function RouteFor(destination: string): (route: Route)
    ensures route == UoT <==> Contains(destination, UotMarker)
  {
    if Contains(destination, UotMarker) then UoT else Tcp
  }

  /**
   * The per-stream callback: a destination that did not parse closes the
   * stream with no traffic report; otherwise the stream is relayed on its
   * route and the relay's counts are reported once for `userId`. `relay`
   * gives the (upload, download) byte counts each outbound path would
   * measure for this stream.
   */
  method ServeStream(s: MyServer, userId: int, destination: Option<string>, relay: Route -> (nat, nat))
    returns (route: Option<Route>)
    requires s.Valid()
    modifies s.v2boardTraffic
    ensures s.Valid()
    ensures destination.None? ==> route == None
    ensures destination.Some? ==> route == Some(RouteFor(destination.value))
    ensures s.v2boardTraffic != null && destination.Some? && userId > 0 ==>
      s.v2boardTraffic.counters == Recorded(old(s.v2boardTraffic.counters), userId, relay(route.value).0, relay(route.value).1)
    ensures s.v2boardTraffic != null && (destination.None? || userId <= 0) ==>
      s.v2boardTraffic.counters == old(s.v2boardTraffic.counters)
  {
    if destination.None? {
      return None;
    }
    var r := RouteFor(destination.value);
    var (upload, download) := relay(r);
    s.RecordTraffic(userId, upload, download);
    return Some(r);
  }

  /**
   * A client's first packet round-trips: a fingerprint the server accepts,
   * a padding length below 65536 with that much padding, then session data,
   * admits the connection with authenticate's user id and replays exactly
   * the session data.
   */
  lemma AdmitEncoded(s: MyServer, fingerprint: seq<byte>, padding: seq<byte>, rest: seq<byte>)
    requires |fingerprint| == DigestSize
    requires |padding| < 0x1_0000
    requires s.Verdict(fingerprint).1
    ensures Admit(s, fingerprint + BigEndianBytes(|padding|) + padding + rest)
      == Admitted(s.Verdict(fingerprint).0, rest)
  {
    var len := BigEndianBytes(|padding|);
    var packet := fingerprint + len + padding + rest;
    assert packet[..DigestSize] == fingerprint;
    assert packet[DigestSize] == len[0] && packet[DigestSize + 1] == len[1];
    assert packet[DigestSize + 2 + |padding|..] == rest;
  }

  /**
   * A refused fingerprint decides the connection on its own: whatever
   * follows it, the connection falls back with the whole packet unread.
   */
  lemma RejectionReadsNoFurther(s: MyServer, p: seq<byte>, q: seq<byte>)
    requires |p| >= DigestSize && |q| >= DigestSize
    requires p[..DigestSize] == q[..DigestSize]
    requires !s.Verdict(p[..DigestSize]).1
    ensures Admit(s, p) == Fallback(p) && Admit(s, q) == Fallback(q)
  {
  }

  /**
   * An admitted packet splits as fingerprint, length, padding of that
   * length and the replayed rest, and the user id is the one authenticate
   * gives for the fingerprint.
   */
  lemma AdmittedShape(s: MyServer, packet: seq<byte>)
    requires Admit(s, packet).Admitted?
    ensures var a := Admit(s, packet);
      && |packet| >= DigestSize + 2
      && s.Verdict(packet[..DigestSize]) == (a.userId, true)
      && var paddingLen := BigEndian16(packet[DigestSize], packet[DigestSize + 1]);
         && |packet| == DigestSize + 2 + paddingLen + |a.replay|
         && packet == packet[..DigestSize + 2 + paddingLen] + a.replay
  {
  }

  /**
   * Plain mode: a packet that starts with the SHA-256 of the password and a
   * zero padding length is admitted as user 0, and everything after the
   * length is replayed intact.
   */
  lemma PlainModeAdmits(s: MyServer, sha256: Hasher, password: string, packet: seq<byte>)
    requires s.v2boardAuth == null
    requires s.passwordSha256 == sha256(password)
    requires |packet| >= DigestSize + 2
    requires packet[..DigestSize] == sha256(password)
    requires packet[DigestSize] == 0 && packet[DigestSize + 1] == 0
    ensures Admit(s, packet) == Admitted(0, packet[DigestSize + 2..])
  {
    assert s.Verdict(packet[..DigestSize]) == (0, true);
  }

  /**
   * V2board mode before any successful refresh: every packet long enough
   * to carry a fingerprint falls back with its whole content unread.
   */
  lemma EmptyDirectoryRejects(s: MyServer, packet: seq<byte>)
    requires s.v2boardAuth != null && s.v2boardAuth.usersByHash == map[]
    requires |packet| >= DigestSize
    ensures Admit(s, packet) == Fallback(packet)
  {
  }
}

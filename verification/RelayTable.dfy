/**
 The UDP relay's routing table (vpnrelay.rs): what each datagram, registration, removal and
 prune does to it. The table is first described as values (a `Table` and the relation each
 operation keeps, nondeterministic exactly where the source iterates a hash map), and the
 class `Relay` at the end, which updates its two maps in place as the source does, is
 proved against that description.
 */
module RelayTable {
  import opened Bytes

  // ---- constants of the wire format and the policy -------------------------------------

  const MAGIC: byte := 0xF0
  const T_HELLO: byte := 1
  const T_ACK: byte := 2
  const T_DATA: byte := 3

  /** Instants and durations are in nanoseconds, as `Instant` keeps them. */
  type Instant = nat

  const SECOND: nat := 1_000_000_000
  const DEVICE_TTL: nat := 35 * SECOND
  const SESSION_TTL: nat := 180 * SECOND
  const PENDING_TTL: nat := 10 * SECOND
  const MAX_SESSIONS: nat := 4096
  const MAX_SESSIONS_PER_DEVICE: nat := 256
  const MAX_SESSIONS_PER_IP: nat := 64
  const CLOCK_SKEW_MS: nat := 120_000

  // ---- addresses and table entries -------------------------------------------------------

  type Octets4 = s: seq<byte> | |s| == 4 witness [0, 0, 0, 0]
  type Octets16 = s: seq<byte> | |s| == 16 witness [0, 0, 0, 0, 0, 0, 0, 0, 0, 0, 0, 0, 0, 0, 0, 0]
  type Port = x: nat | x < 0x1_0000

  datatype Ip = V4(o4: Octets4) | V6(o16: Octets16)

  datatype Addr = Addr(ip: Ip, port: Port)

  datatype Dev = Dev(
    secret: seq<byte>,
    mac1Key: seq<byte>,
    addr: Option<Addr>,
    lastTs: nat,
    lastSeen: Option<Instant>)

  datatype Session = Session(device: DeviceId, last: Instant, answered: bool)

  datatype Table = Table(devs: map<DeviceId, Dev>, sessions: map<Addr, Session>)

  const EMPTY := Table(map[], map[])

  /** The primitives the relay calls; nothing is assumed about them. */
  datatype Crypto = Crypto(
    hmac: (seq<byte>, seq<byte>) -> seq<byte>,
    mac1Key: seq<byte> -> seq<byte>,
    mac: (seq<byte>, seq<byte>) -> seq<byte>)

  datatype Packet = Packet(to: Addr, bytes: seq<byte>)

  /** `Instant::duration_since` saturates at zero. */
  function Since(now: Instant, t: Instant): nat {
    if now >= t then now - t else 0
  }

  function Ttl(s: Session): nat {
    if s.answered then SESSION_TTL else PENDING_TTL
  }

  predicate Expired(s: Session, now: Instant) {
    Since(now, s.last) >= Ttl(s)
  }

  /** The device has an address and said HELLO less than 35 s ago. */
  predicate Live(d: Dev, now: Instant) {
    d.addr.Some? && d.lastSeen.Some? && Since(now, d.lastSeen.value) < DEVICE_TTL
  }

  function AbsDiff(a: nat, b: nat): nat {
    if a >= b then a - b else b - a
  }

  // ---- frames ------------------------------------------------------------------------------

  function EncodeData(client: Addr, payload: seq<byte>): seq<byte> {
    [MAGIC, T_DATA]
    + (match client.ip
       case V4(o) => [4 as byte] + o
       case V6(o) => [6 as byte] + o)
    + PutBe(2, client.port) + payload
  }

  function DecodeData(f: seq<byte>): Option<(Addr, seq<byte>)> {
    if |f| < 3 || f[0] != MAGIC || f[1] != T_DATA then None
    else if f[2] == 4 && |f| >= 9 then Some((Addr(V4(f[3..7]), PortAt(f, 7)), f[9..]))
    else if f[2] == 6 && |f| >= 21 then Some((Addr(V6(f[3..19]), PortAt(f, 19)), f[21..]))
    else None
  }

  function PortAt(f: seq<byte>, i: nat): Port
    requires i + 2 <= |f|
  {
    256 * (f[i] as int) + f[i + 1]
  }

  lemma PortBytes(f: seq<byte>, i: nat)
    requires i + 2 <= |f|
    ensures PutBe(2, PortAt(f, i)) == f[i..i + 2]
  {
    var p := PortAt(f, i);
    assert PutBe(1, p / 256) == PutBe(0, p / 256 / 256) + [p / 256 % 256];
    assert PutBe(2, p) == PutBe(1, p / 256) + [p % 256];
    assert p / 256 == f[i] && p % 256 == f[i + 1];
  }

  lemma PortRead(p: Port, f: seq<byte>, i: nat)
    requires i + 2 <= |f| && f[i..i + 2] == PutBe(2, p)
    ensures PortAt(f, i) == p
  {
    assert PutBe(1, p / 256) == PutBe(0, p / 256 / 256) + [p / 256 % 256];
    assert PutBe(2, p) == PutBe(1, p / 256) + [p % 256];
    assert f[i] == f[i..i + 2][0] && f[i + 1] == f[i..i + 2][1];
  }

  /** Framing loses nothing: the receiver recovers the client address and the payload. */
  lemma DecodeEncode(client: Addr, payload: seq<byte>)
    ensures DecodeData(EncodeData(client, payload)) == Some((client, payload))
  {
    var f := EncodeData(client, payload);
    match client.ip
    case V4(o) =>
      assert f[3..7] == o && f[7..9] == PutBe(2, client.port) && f[9..] == payload;
      PortRead(client.port, f, 7);
    case V6(o) =>
      assert f[3..19] == o && f[19..21] == PutBe(2, client.port) && f[21..] == payload;
      PortRead(client.port, f, 19);
  }

  /** ... and a frame has one reading only: whatever decodes is the encoding of what it decodes to. */
  lemma EncodeDecode(f: seq<byte>)
    requires DecodeData(f).Some?
    ensures EncodeData(DecodeData(f).value.0, DecodeData(f).value.1) == f
  {
    var (client, payload) := DecodeData(f).value;
    if f[2] == 4 {
      PortBytes(f, 7);
      assert f == f[..2] + [f[2]] + f[3..7] + f[7..9] + f[9..];
    } else {
      PortBytes(f, 19);
      assert f == f[..2] + [f[2]] + f[3..19] + f[19..21] + f[21..];
    }
  }

  /** The part of a HELLO its HMAC covers. */
  function HelloBody(id: DeviceId, ts: nat): seq<byte>
    requires |id| < 256
  {
    [MAGIC, T_HELLO] + PutBe(8, ts) + [|id| as byte] + id
  }

  function HelloFrame(c: Crypto, secret: seq<byte>, id: DeviceId, ts: nat): seq<byte>
    requires |id| < 256
  {
    var body := HelloBody(id, ts);
    body + c.hmac(secret, body)
  }

  /** `(id, ts)` of an authentic HELLO of a registered device. */
  function VerifyHello(c: Crypto, f: seq<byte>, devs: map<DeviceId, Dev>): Option<(DeviceId, nat)> {
    if |f| < 43 || f[0] != MAGIC || f[1] != T_HELLO then None
    else
      var ts := GetBe(f[2..10]);
      var n: nat := f[10];
      if |f| != 11 + n + 32 then None
      else
        var id := f[11..11 + n];
        if id !in devs then None
        else
          var body, mac := f[..11 + n], f[11 + n..];
          if CtEq(c.hmac(devs[id].secret, body), mac) then Some((id, ts)) else None
  }

  /**
   Exactly the frames the device could have made with its own key are accepted, and each is
   read back as the id and time it was made for.
   */
  lemma VerifyHelloExact(c: Crypto, f: seq<byte>, devs: map<DeviceId, Dev>, id: DeviceId, ts: nat)
    requires ts < Pow256(8)
    ensures VerifyHello(c, f, devs) == Some((id, ts)) <==>
            |id| < 256 && id in devs && f == HelloFrame(c, devs[id].secret, id, ts)
              && |c.hmac(devs[id].secret, HelloBody(id, ts))| == 32
  {
    if |id| < 256 && id in devs && f == HelloFrame(c, devs[id].secret, id, ts)
       && |c.hmac(devs[id].secret, HelloBody(id, ts))| == 32 {
      var body := HelloBody(id, ts);
      assert f[2..10] == PutBe(8, ts) && f[10] == |id| && f[11..11 + |id|] == id;
      assert f[..11 + |id|] == body && f[11 + |id|..] == c.hmac(devs[id].secret, body);
      GetPutBe(8, ts);
      CtEqIsEquality(c.hmac(devs[id].secret, body), f[11 + |id|..]);
    }
    if VerifyHello(c, f, devs) == Some((id, ts)) {
      var n: nat := f[10];
      PutGetBe(f[2..10]);
      CtEqIsEquality(c.hmac(devs[id].secret, f[..11 + n]), f[11 + n..]);
      assert f[..11 + n] == HelloBody(id, ts);
      assert f == f[..11 + n] + f[11 + n..];
    }
  }

  function AckFrame(ts: nat): seq<byte> {
    [MAGIC, T_ACK] + PutBe(8, ts)
  }

  /** WireGuard handshake initiation whose mac1 is keyed for `key` (whitepaper section 5.4.4). */
  predicate InitiationMatches(c: Crypto, pkt: seq<byte>, key: seq<byte>) {
    |pkt| == 148 && pkt[0] == 1 && pkt[1..4] == [0, 0, 0] && CtEq(c.mac(key, pkt[..116]), pkt[116..132])
  }

  predicate IsWireGuard(pkt: seq<byte>) {
    |pkt| >= 4 && 1 <= pkt[0] <= 4 && pkt[1..4] == [0, 0, 0]
  }

  // ---- admission -----------------------------------------------------------------------------

  /** The three kinds of session the caps count. */
  datatype Bucket = OfIp(ip: Ip) | OfDevice(device: DeviceId) | Everyone {
    predicate Holds(a: Addr, s: Session) {
      match this
      case OfIp(ip) => a.ip == ip
      case OfDevice(d) => s.device == d
      case Everyone => true
    }

    function Cap(): nat {
      match this
      case OfIp(_) => MAX_SESSIONS_PER_IP
      case OfDevice(_) => MAX_SESSIONS_PER_DEVICE
      case Everyone => MAX_SESSIONS
    }
  }

  function Members(sessions: map<Addr, Session>, b: Bucket): set<Addr> {
    set a | a in sessions && b.Holds(a, sessions[a])
  }

  predicate MayEvict(s: Session, now: Instant) {
    !s.answered || Expired(s, now)
  }

  function Evictable(sessions: map<Addr, Session>, b: Bucket, now: Instant): set<Addr> {
    set a | a in sessions && b.Holds(a, sessions[a]) && MayEvict(sessions[a], now)
  }

  /** A loop over `members` that has still to look at `rest` has seen one more when it is done with `a`. */
  lemma OneMore<A>(members: set<A>, rest: set<A>, a: A)
    requires a in rest
    ensures |members - (rest - {a})| == |members - rest| + if a in members then 1 else 0
  {
    if a in members {
      assert members - (rest - {a}) == members - rest + {a};
    } else {
      assert members - (rest - {a}) == members - rest;
    }
  }

  /** `v` is the stalest session of the bucket that may be evicted (any one of them on a tie). */
  predicate IsVictim(sessions: map<Addr, Session>, b: Bucket, now: Instant, v: Addr) {
    v in Evictable(sessions, b, now)
    && forall a | a in Evictable(sessions, b, now) :: sessions[v].last <= sessions[a].last
  }

  /** What `make_room` may leave, whichever order the hash map iterates in. */
  ghost predicate RoomMade(
    s: map<Addr, Session>, s': map<Addr, Session>, b: Bucket, now: Instant, ok: bool)
  {
    if |Members(s, b)| < b.Cap() then s' == s && ok
    else if Evictable(s, b, now) == {} then s' == s && !ok
    else ok && exists v :: IsVictim(s, b, now, v) && s' == s - {v}
  }

  /** `admit`: the per-IP, per-device and overall caps in turn, stopping at the first refusal. */
  ghost predicate Admitted(
    s: map<Addr, Session>, s': map<Addr, Session>, ip: Ip, device: DeviceId, now: Instant, ok: bool)
  {
    exists s1, s2, ok1, ok2 :: AdmittedVia(s, s1, s2, s', ip, device, now, ok1, ok2, ok)
  }

  ghost predicate AdmittedVia(
    s: map<Addr, Session>, s1: map<Addr, Session>, s2: map<Addr, Session>, s': map<Addr, Session>,
    ip: Ip, device: DeviceId, now: Instant, ok1: bool, ok2: bool, ok: bool)
  {
    RoomMade(s, s1, OfIp(ip), now, ok1)
    && (if !ok1 then s2 == s1 && !ok2 else RoomMade(s1, s2, OfDevice(device), now, ok2))
    && (if !ok2 then s' == s2 && !ok else RoomMade(s2, s', Everyone, now, ok))
  }

  // ---- routing -------------------------------------------------------------------------------

  function Matching(c: Crypto, devs: map<DeviceId, Dev>, pkt: seq<byte>): set<DeviceId> {
    set id | id in devs && InitiationMatches(c, pkt, devs[id].mac1Key)
  }

  /** The device a plain WireGuard packet is for: a live one only it answers to, or the pinned one. */
  ghost predicate IsTarget(c: Crypto, t: Table, pkt: seq<byte>, from: Addr, now: Instant, id: DeviceId) {
    if |pkt| > 0 && pkt[0] == 1 then
      Matching(c, t.devs, pkt) == {id} && id in t.devs && Live(t.devs[id], now)
    else
      from in t.sessions && t.sessions[from].device == id && Since(now, t.sessions[from].last) < SESSION_TTL
  }

  function Forward(t: Table, id: DeviceId, from: Addr, pkt: seq<byte>, now: Instant): seq<Packet> {
    if id in t.devs && Live(t.devs[id], now) then [Packet(t.devs[id].addr.value, EncodeData(from, pkt))] else []
  }

  ghost predicate HelloRouted(
    c: Crypto, t: Table, pkt: seq<byte>, from: Addr, now: Instant, wall: nat, t': Table, out: seq<Packet>)
  {
    match VerifyHello(c, pkt, t.devs)
    case None => t' == t && out == []
    case Some((id, ts)) =>
      if id !in t.devs || ts <= t.devs[id].lastTs || AbsDiff(ts, wall) > CLOCK_SKEW_MS then t' == t && out == []
      else
        t' == t.(devs := t.devs[id := t.devs[id].(lastTs := ts, addr := Some(from), lastSeen := Some(now))])
        && out == [Packet(from, AckFrame(ts))]
  }

  function Answering(payload: seq<byte>): bool {
    |payload| > 0 && (payload[0] == 2 || payload[0] == 4)
  }

  /** DATA that device `id` sent for `client`. */
  ghost predicate DataDelivered(
    t: Table, id: DeviceId, client: Addr, payload: seq<byte>, now: Instant, t': Table, out: seq<Packet>)
  {
    if client in t.sessions && t.sessions[client].device == id && Since(now, t.sessions[client].last) < SESSION_TTL then
      var s := t.sessions[client];
      t' == t.(sessions := t.sessions[client := s.(answered := s.answered || Answering(payload))])
      && out == [Packet(client, payload)]
    else t' == t && out == []
  }

  ghost predicate SpeaksFor(t: Table, id: DeviceId, from: Addr) {
    id in t.devs && t.devs[id].addr == Some(from)
  }

  ghost predicate DataRouted(
    t: Table, pkt: seq<byte>, from: Addr, now: Instant, t': Table, out: seq<Packet>)
  {
    match DecodeData(pkt)
    case None => t' == t && out == []
    case Some((client, payload)) =>
      if exists id :: SpeaksFor(t, id, from) then
        exists id :: SpeaksFor(t, id, from) && DataDelivered(t, id, client, payload, now, t', out)
      else t' == t && out == []
  }

  /** A client packet for `id`: it refreshes its session, or takes a slot as any newcomer does. */
  ghost predicate ClientRouted(
    t: Table, id: DeviceId, pkt: seq<byte>, from: Addr, now: Instant, t': Table, out: seq<Packet>)
  {
    if from in t.sessions && t.sessions[from].device == id then
      t' == t.(sessions := t.sessions[from := t.sessions[from].(last := now)])
      && out == Forward(t', id, from, pkt, now)
    else
      exists s', ok :: NewcomerRouted(t, id, pkt, from, now, s', ok, t', out)
  }

  ghost predicate NewcomerRouted(
    t: Table, id: DeviceId, pkt: seq<byte>, from: Addr, now: Instant,
    s': map<Addr, Session>, ok: bool, t': Table, out: seq<Packet>)
  {
    Admitted(t.sessions - {from}, s', from.ip, id, now, ok)
    && (if ok then t' == t.(sessions := s'[from := Session(id, now, false)]) && out == Forward(t', id, from, pkt, now)
        else t' == t.(sessions := s') && out == [])
  }

  /** Everything one datagram may do. */
  ghost predicate Routed(
    c: Crypto, t: Table, pkt: seq<byte>, from: Addr, now: Instant, wall: nat, t': Table, out: seq<Packet>)
  {
    if |pkt| > 0 && pkt[0] == MAGIC then
      if |pkt| > 1 && pkt[1] == T_HELLO then HelloRouted(c, t, pkt, from, now, wall, t', out)
      else DataRouted(t, pkt, from, now, t', out)
    else if IsWireGuard(pkt) && exists id :: IsTarget(c, t, pkt, from, now, id) then
      exists id :: IsTarget(c, t, pkt, from, now, id) && ClientRouted(t, id, pkt, from, now, t', out)
    else t' == t && out == []
  }

  // ---- registration ------------------------------------------------------------------------

  function Pruned(t: Table, now: Instant): Table {
    t.(sessions := map a | a in t.sessions && !Expired(t.sessions[a], now) :: t.sessions[a])
  }

  /** Another device already registered under this mac1 key. */
  ghost predicate KeyTaken(t: Table, id: DeviceId, key: seq<byte>) {
    exists o :: o in t.devs && o != id && t.devs[o].mac1Key == key
  }

  function Registered(t: Table, id: DeviceId, secret: seq<byte>, key: seq<byte>): Table {
    var d := if id in t.devs then t.devs[id] else Dev([], key, None, 0, None);
    t.(devs := t.devs[id := d.(secret := secret, mac1Key := key)])
  }

  function Removed(t: Table, id: DeviceId): Table {
    Table(t.devs - {id}, map a | a in t.sessions && t.sessions[a].device != id :: t.sessions[a])
  }

  // ---- the relay object ----------------------------------------------------------------------

  class Relay {
    const crypto: Crypto
    var devs: map<DeviceId, Dev>
    var sessions: map<Addr, Session>

    ghost function T(): Table
      reads this
    {
      Table(devs, sessions)
    }

    constructor (c: Crypto)
      ensures crypto == c && T() == EMPTY
    {
      crypto, devs, sessions := c, map[], map[];
    }

    method Prune(now: Instant)
      modifies this`sessions
      ensures T() == Pruned(old(T()), now)
    {
      sessions := map a | a in sessions && !Expired(sessions[a], now) :: sessions[a];
    }

    /** One pass over the sessions, in whatever order they come, counting and keeping the stalest. */
    method MakeRoom(b: Bucket, now: Instant) returns (ok: bool)
      modifies this`sessions
      ensures RoomMade(old(sessions), sessions, b, now, ok)
    {
      var n := 0;
      var victim: Option<Addr> := None;
      var rest := sessions.Keys;
      while rest != {}
        invariant rest <= sessions.Keys && sessions == old(sessions)
        invariant n == |Members(sessions, b) - rest|
        invariant victim.None? ==> Evictable(sessions, b, now) <= rest
        invariant victim.Some? ==>
                    victim.value in Evictable(sessions, b, now)
                    && forall a | a in Evictable(sessions, b, now) - rest :: sessions[victim.value].last <= sessions[a].last
        decreases rest
      {
        var a :| a in rest;
        var s := sessions[a];
        if b.Holds(a, s) {
          n := n + 1;
          if MayEvict(s, now) && (victim.None? || s.last < sessions[victim.value].last) {
            victim := Some(a);
          }
        }
        OneMore(Members(sessions, b), rest, a);
        rest := rest - {a};
      }
      assert Members(sessions, b) - rest == Members(sessions, b);
      if n < b.Cap() {
        return true;
      }
      if victim.None? {
        return false;
      }
      assert IsVictim(sessions, b, now, victim.value);
      sessions := sessions - {victim.value};
      return true;
    }

    method Admit(ip: Ip, device: DeviceId, now: Instant) returns (ok: bool)
      modifies this`sessions
      ensures Admitted(old(sessions), sessions, ip, device, now, ok)
    {
      var ok1 := MakeRoom(OfIp(ip), now);
      ghost var s1 := sessions;
      var ok2 := false;
      if ok1 {
        ok2 := MakeRoom(OfDevice(device), now);
      }
      ghost var s2 := sessions;
      ok := false;
      if ok2 {
        ok := MakeRoom(Everyone, now);
      }
      assert AdmittedVia(old(sessions), s1, s2, sessions, ip, device, now, ok1, ok2, ok);
    }

    method RouteHello(pkt: seq<byte>, from: Addr, now: Instant, wall: nat) returns (out: seq<Packet>)
      modifies this`devs
      ensures HelloRouted(crypto, old(T()), pkt, from, now, wall, T(), out)
    {
      match VerifyHello(crypto, pkt, devs)
      case None => return [];
      case Some((id, ts)) =>
        if id !in devs || ts <= devs[id].lastTs || AbsDiff(ts, wall) > CLOCK_SKEW_MS {
          return [];
        }
        devs := devs[id := devs[id].(lastTs := ts, addr := Some(from), lastSeen := Some(now))];
        return [Packet(from, AckFrame(ts))];
    }

    method RouteData(pkt: seq<byte>, from: Addr, now: Instant) returns (out: seq<Packet>)
      modifies this`sessions
      ensures DataRouted(old(T()), pkt, from, now, T(), out)
    {
      match DecodeData(pkt)
      case None => return [];
      case Some((client, payload)) =>
        var speakers := set id | id in devs && devs[id].addr == Some(from);
        assert forall id :: id in speakers <==> SpeaksFor(T(), id, from);
        if speakers == {} {
          return [];
        }
        var id :| id in speakers;
        assert SpeaksFor(T(), id, from);
        out := [];
        if client in sessions && sessions[client].device == id && Since(now, sessions[client].last) < SESSION_TTL {
          var s := sessions[client];
          sessions := sessions[client := s.(answered := s.answered || Answering(payload))];
          out := [Packet(client, payload)];
        }
        assert DataDelivered(old(T()), id, client, payload, now, T(), out);
    }

    /** The device the packet is for, if any. */
    method Target(pkt: seq<byte>, from: Addr, now: Instant) returns (r: Option<DeviceId>)
      requires IsWireGuard(pkt)
      ensures r.Some? ==> IsTarget(crypto, T(), pkt, from, now, r.value)
      ensures r.None? ==> forall id :: !IsTarget(crypto, T(), pkt, from, now, id)
    {
      if pkt[0] == 1 {
        var m := Matching(crypto, devs, pkt);
        if m == {} {
          return None;
        }
        var id :| id in m;
        if m == {id} && Live(devs[id], now) {
          return Some(id);
        }
        return None;
      }
      if from in sessions && Since(now, sessions[from].last) < SESSION_TTL {
        return Some(sessions[from].device);
      }
      return None;
    }

    method RouteClient(id: DeviceId, pkt: seq<byte>, from: Addr, now: Instant) returns (out: seq<Packet>)
      modifies this`sessions
      ensures ClientRouted(old(T()), id, pkt, from, now, T(), out)
    {
      if from in sessions && sessions[from].device == id {
        sessions := sessions[from := sessions[from].(last := now)];
      } else {
        sessions := sessions - {from};
        var ok := Admit(from.ip, id, now);
        ghost var s' := sessions;
        if !ok {
          out := [];
          assert NewcomerRouted(old(T()), id, pkt, from, now, s', ok, T(), out);
          return;
        }
        sessions := sessions[from := Session(id, now, false)];
        assert NewcomerRouted(old(T()), id, pkt, from, now, s', ok, T(), Forward(T(), id, from, pkt, now));
      }
      out := if id in devs && Live(devs[id], now) then [Packet(devs[id].addr.value, EncodeData(from, pkt))] else [];
    }

    method RouteIn(pkt: seq<byte>, from: Addr, now: Instant, wall: nat) returns (out: seq<Packet>)
      modifies this
      ensures Routed(crypto, old(T()), pkt, from, now, wall, T(), out)
    {
      if |pkt| > 0 && pkt[0] == MAGIC {
        if |pkt| > 1 && pkt[1] == T_HELLO {
          out := RouteHello(pkt, from, now, wall);
        } else {
          out := RouteData(pkt, from, now);
        }
        return;
      }
      if !IsWireGuard(pkt) {
        return [];
      }
      var target := Target(pkt, from, now);
      if target.None? {
        return [];
      }
      out := RouteClient(target.value, pkt, from, now);
    }

    /** Some(other) names a device that already uses this server key. */
    method SetDevice(id: DeviceId, secret: seq<byte>, serverPub: seq<byte>) returns (r: Option<DeviceId>)
      modifies this`devs
      ensures var key := crypto.mac1Key(serverPub);
              if KeyTaken(old(T()), id, key)
              then T() == old(T()) && r.Some? && r.value in devs && r.value != id && devs[r.value].mac1Key == key
              else T() == Registered(old(T()), id, secret, key) && r.None?
    {
      var key := crypto.mac1Key(serverPub);
      var others := set o | o in devs && o != id && devs[o].mac1Key == key;
      if others != {} {
        var o :| o in others;
        return Some(o);
      }
      assert forall o | o in devs && o != id :: o !in others;
      var d := if id in devs then devs[id] else Dev([], key, None, 0, None);
      devs := devs[id := d.(secret := secret, mac1Key := key)];
      return None;
    }

    method RemoveDevice(id: DeviceId)
      modifies this
      ensures T() == Removed(old(T()), id)
    {
      devs := devs - {id};
      sessions := map a | a in sessions && sessions[a].device != id :: sessions[a];
    }
  }
}

/**
 What the relay delivers (vpnrelay.rs), in bytes and seconds: which client packets reach their
 device, which of a device's answers reach the client, which HELLOs are taken; and, by the packets
 a client sends, that an established client is never cut off.
 */
module RelayDelivery {
  import opened Bytes
  import opened RelayTable
  import opened RelayCaps
  import opened RelayRuns
  import I = Int32

  // ---- frames in bytes -------------------------------------------------------------------------

  /** A DATA frame: F0 03, the address family, the address, the port with its high byte first, the payload. */
  lemma DataFrameBytes(client: Addr, payload: seq<byte>)
    ensures var port := [(client.port / 256) as byte, (client.port % 256) as byte];
            EncodeData(client, payload)
            == match client.ip
               case V4(o) => [0xF0, 3, 4] + o + port + payload
               case V6(o) => [0xF0, 3, 6] + o + port + payload
  {
    var p := client.port;
    assert PutBe(1, p / 256) == PutBe(0, p / 256 / 256) + [p / 256 % 256];
    assert PutBe(2, p) == PutBe(1, p / 256) + [p % 256];
    var port := [(p / 256) as byte, (p % 256) as byte];
    assert PutBe(2, p) == port;
    match client.ip
    case V4(o) => assert EncodeData(client, payload) == [0xF0, 3, 4] + o + port + payload;
    case V6(o) => assert EncodeData(client, payload) == [0xF0, 3, 6] + o + port + payload;
  }

  /** A time stamp is eight bytes, the highest first. */
  lemma {:induction false} StampBytes(n: nat, x: nat, i: nat)
    requires i < n
    ensures PutBe(n, x)[i] == x / Pow256(n - 1 - i) % 256
  {
    if i == n - 1 {
      OneBelow(x);
    } else {
      StampBytes(n - 1, x / 256, i);
      ByteAbove(n, x, i);
    }
  }

  lemma OneBelow(x: nat)
    ensures x / Pow256(0) == x
  {
  }

  lemma ByteAbove(n: nat, x: nat, i: nat)
    requires i < n - 1
    ensures x / 256 / Pow256(n - 2 - i) == x / Pow256(n - 1 - i)
  {
    DivTwice(x, 256, Pow256(n - 2 - i));
  }

  lemma DivTwice(x: nat, m: nat, n: nat)
    requires m > 0 && n > 0
    ensures m * n > 0 && x / m / n == x / (m * n)
  {
    var q, r := x / m / n, x / m % n;
    assert x / m == n * q + r && x == m * (x / m) + x % m;
    assert m * (n * q + r) == (m * n) * q + m * r;
    I.MulOrder(n - 1, r, m);
    assert (n - 1) * m == m * (n - 1) && r * m == m * r;
    assert m * (n - 1) == m * n - m;
    I.DivRemUnique(x, m * n, q, m * r + x % m);
  }

  // ---- a client's packets -----------------------------------------------------------------------

  /** One packet to the device, framed so that it reads back as the client and what it sent; none to a silent device. */
  ghost predicate Reaches(t: Table, d: DeviceId, from: Addr, pkt: seq<byte>, now: Instant, out: seq<Packet>) {
    if d in t.devs && t.devs[d].addr.Some? && t.devs[d].lastSeen.Some? && now < t.devs[d].lastSeen.value + 35 * 1_000_000_000 then
      |out| == 1 && out[0].to == t.devs[d].addr.value && DecodeData(out[0].bytes) == Some((from, pkt))
    else out == []
  }

  lemma ForwardReaches(t: Table, t': Table, d: DeviceId, from: Addr, pkt: seq<byte>, now: Instant)
    requires t'.devs == t.devs
    ensures Reaches(t, d, from, pkt, now, Forward(t', d, from, pkt, now))
  {
    DecodeEncode(from, pkt);
  }

  /**
   A handshake response, cookie reply or transport packet of a client that spoke within 180 s: its
   session is refreshed, nothing else changes, and the packet goes to the device it is pinned to.
   */
  lemma PinnedPacketForwarded(
    c: Crypto, t: Table, pkt: seq<byte>, from: Addr, now: Instant, wall: nat, t': Table, out: seq<Packet>)
    requires Routed(c, t, pkt, from, now, wall, t', out)
    requires |pkt| >= 4 && (pkt[0] == 2 || pkt[0] == 3 || pkt[0] == 4) && pkt[1] == 0 && pkt[2] == 0 && pkt[3] == 0
    requires from in t.sessions && now < t.sessions[from].last + 180 * 1_000_000_000
    ensures t' == t.(sessions := t.sessions[from := t.sessions[from].(last := now)])
    ensures Reaches(t, t.sessions[from].device, from, pkt, now, out)
  {
    var d := t.sessions[from].device;
    assert pkt[1..4] == [0, 0, 0];
    assert IsTarget(c, t, pkt, from, now, d);
    var id :| IsTarget(c, t, pkt, from, now, id) && ClientRouted(t, id, pkt, from, now, t', out);
    ForwardReaches(t, t', d, from, pkt, now);
  }

  /** `d` and no other registered device answers to the initiation, and `d` said HELLO within 35 s. */
  ghost predicate Names(c: Crypto, t: Table, pkt: seq<byte>, now: Instant, d: DeviceId) {
    && |pkt| == 148 && pkt[0] == 1 && pkt[1] == 0 && pkt[2] == 0 && pkt[3] == 0
    && d in t.devs && c.mac(t.devs[d].mac1Key, pkt[..116]) == pkt[116..132]
    && (forall o | o in t.devs && o != d :: c.mac(t.devs[o].mac1Key, pkt[..116]) != pkt[116..132])
    && t.devs[d].addr.Some? && t.devs[d].lastSeen.Some? && now < t.devs[d].lastSeen.value + 35 * 1_000_000_000
  }

  lemma NamedMatches(c: Crypto, t: Table, pkt: seq<byte>, now: Instant, d: DeviceId)
    requires Names(c, t, pkt, now, d)
    ensures Matching(c, t.devs, pkt) == {d}
  {
    assert pkt[1..4] == [0, 0, 0];
    forall o | o in t.devs ensures InitiationMatches(c, pkt, t.devs[o].mac1Key) <==> o == d {
      CtEqIsEquality(c.mac(t.devs[o].mac1Key, pkt[..116]), pkt[116..132]);
    }
  }

  lemma TargetIsNamed(c: Crypto, t: Table, pkt: seq<byte>, from: Addr, now: Instant, d: DeviceId)
    requires |pkt| > 0 && pkt[0] == 1 && IsTarget(c, t, pkt, from, now, d)
    ensures Names(c, t, pkt, now, d)
  {
    assert d in Matching(c, t.devs, pkt);
    assert pkt[1] == pkt[1..4][0] && pkt[2] == pkt[1..4][1] && pkt[3] == pkt[1..4][2];
    CtEqIsEquality(c.mac(t.devs[d].mac1Key, pkt[..116]), pkt[116..132]);
    forall o | o in t.devs && o != d ensures c.mac(t.devs[o].mac1Key, pkt[..116]) != pkt[116..132] {
      CtEqIsEquality(c.mac(t.devs[o].mac1Key, pkt[..116]), pkt[116..132]);
      assert o !in Matching(c, t.devs, pkt);
    }
  }

  lemma NamedIsTarget(c: Crypto, t: Table, pkt: seq<byte>, from: Addr, now: Instant, d: DeviceId)
    requires Names(c, t, pkt, now, d)
    ensures IsWireGuard(pkt) && forall id :: IsTarget(c, t, pkt, from, now, id) <==> id == d
  {
    assert pkt[1..4] == [0, 0, 0];
    NamedMatches(c, t, pkt, now, d);
  }

  /** Unanswered, or silent for 180 s. */
  predicate Idle(s: Session, now: Instant) {
    !s.answered || now >= s.last + 180 * 1_000_000_000
  }

  /** Of the sessions that `f` picks there are fewer than `cap`, or one of them is idle. */
  ghost predicate RoomFor(s: map<Addr, Session>, f: (Addr, Session) -> bool, cap: nat, now: Instant) {
    |set a | a in s && f(a, s[a])| < cap || exists a :: a in s && f(a, s[a]) && Idle(s[a], now)
  }

  /** A place for a new session: by its client IP 64, by its device 256, 4096 in all. */
  ghost predicate HasRoom(s: map<Addr, Session>, ip: Ip, d: DeviceId, now: Instant) {
    && RoomFor(s, (a: Addr, x: Session) => a.ip == ip, 64, now)
    && RoomFor(s, (a: Addr, x: Session) => x.device == d, 256, now)
    && RoomFor(s, (a: Addr, x: Session) => true, 4096, now)
  }

  ghost predicate BucketRoom(s: map<Addr, Session>, b: Bucket, now: Instant) {
    |Members(s, b)| < b.Cap() || Evictable(s, b, now) != {}
  }

  lemma RoomInBuckets(s: map<Addr, Session>, b: Bucket, f: (Addr, Session) -> bool, cap: nat, now: Instant)
    requires b.Cap() == cap && forall a, x :: f(a, x) == b.Holds(a, x)
    ensures RoomFor(s, f, cap, now) <==> BucketRoom(s, b, now)
  {
    assert (set a | a in s && f(a, s[a])) == Members(s, b);
    if a :| a in s && f(a, s[a]) && Idle(s[a], now) {
      assert a in Evictable(s, b, now);
    }
    if Evictable(s, b, now) != {} {
      var a :| a in Evictable(s, b, now);
      assert f(a, s[a]) && Idle(s[a], now);
    }
  }

  lemma HasRoomInBuckets(s: map<Addr, Session>, ip: Ip, d: DeviceId, now: Instant)
    ensures HasRoom(s, ip, d, now) <==> forall b | OneOf(b, ip, d) :: BucketRoom(s, b, now)
  {
    hide RoomFor, BucketRoom;
    RoomInBuckets(s, OfIp(ip), (a: Addr, x: Session) => a.ip == ip, 64, now);
    RoomInBuckets(s, OfDevice(d), (a: Addr, x: Session) => x.device == d, 256, now);
    RoomInBuckets(s, Everyone, (a: Addr, x: Session) => true, 4096, now);
    assert OneOf(OfIp(ip), ip, d) && OneOf(OfDevice(d), ip, d) && OneOf(Everyone, ip, d);
  }

  /** An eviction from one bucket never takes another's last way to make room: it leaves a place where it takes a session. */
  lemma RoomStays(s: map<Addr, Session>, s': map<Addr, Session>, b: Bucket, b1: Bucket, now: Instant, ok: bool)
    requires Capped(s) && RoomMade(s, s', b1, now, ok) && BucketRoom(s, b, now)
    ensures BucketRoom(s', b, now)
  {
    RoomMadeCases(s, s', b1, now, ok);
    if v :| TookOne(s, s', b1, now, v) {
      if v in Members(s, b) {
        MembersWithout(s, b, v);
        assert |Members(s, b)| <= b.Cap();
      } else {
        assert Members(s', b) == Members(s, b) && Evictable(s', b, now) == Evictable(s, b, now);
      }
    }
  }

  lemma RoomLacks(s: map<Addr, Session>, s': map<Addr, Session>, b: Bucket, b1: Bucket, now: Instant, ok: bool)
    requires Capped(s) && RoomMade(s, s', b1, now, ok) && !BucketRoom(s, b, now)
    ensures !BucketRoom(s', b, now)
  {
    RoomMadeCases(s, s', b1, now, ok);
    if v :| TookOne(s, s', b1, now, v) {
      assert v in Members(s, b) ==> v in Evictable(s, b, now);
      assert Members(s', b) == Members(s, b) && Evictable(s', b, now) == {};
    }
  }

  /** Admission succeeds exactly if each of the newcomer's buckets, in the table before, has room or an idle session. */
  lemma AdmittedExactly(s: map<Addr, Session>, s': map<Addr, Session>, ip: Ip, d: DeviceId, now: Instant, ok: bool)
    requires Capped(s) && Admitted(s, s', ip, d, now, ok)
    ensures ok <==> HasRoom(s, ip, d, now)
  {
    hide HasRoom, BucketRoom;
    HasRoomInBuckets(s, ip, d, now);
    var s1, s2, ok1, ok2 :| AdmittedVia(s, s1, s2, s', ip, d, now, ok1, ok2, ok);
    assert OneOf(OfIp(ip), ip, d) && OneOf(OfDevice(d), ip, d) && OneOf(Everyone, ip, d);
    RoomDecides(s, s1, OfIp(ip), now, ok1);
    RoomMadeShrinks(s, s1, OfIp(ip), now, ok1);
    if ok1 {
      RoomCarries(s, s1, OfDevice(d), OfIp(ip), now, ok1);
      RoomCarries(s, s1, Everyone, OfIp(ip), now, ok1);
      RoomDecides(s1, s2, OfDevice(d), now, ok2);
      RoomMadeShrinks(s1, s2, OfDevice(d), now, ok2);
      if ok2 {
        RoomCarries(s1, s2, Everyone, OfDevice(d), now, ok2);
        RoomDecides(s2, s', Everyone, now, ok);
      }
    }
  }

  lemma RoomDecides(s: map<Addr, Session>, s': map<Addr, Session>, b: Bucket, now: Instant, ok: bool)
    requires RoomMade(s, s', b, now, ok)
    ensures ok <==> BucketRoom(s, b, now)
  {
  }

  lemma RoomCarries(s: map<Addr, Session>, s': map<Addr, Session>, b: Bucket, b1: Bucket, now: Instant, ok: bool)
    requires Capped(s) && RoomMade(s, s', b1, now, ok)
    ensures BucketRoom(s', b, now) <==> BucketRoom(s, b, now)
  {
    if BucketRoom(s, b, now) {
      RoomStays(s, s', b, b1, now, ok);
    } else {
      RoomLacks(s, s', b, b1, now, ok);
    }
  }

  /**
   A handshake initiation that names one device: the client is pinned to it, heard now, exactly if
   it was pinned to it before or its three buckets have room or an idle session; then the packet
   goes to the device, and otherwise nowhere.
   */
  lemma InitiationForwarded(
    c: Crypto, t: Table, pkt: seq<byte>, from: Addr, now: Instant, wall: nat, t': Table, out: seq<Packet>, d: DeviceId)
    requires Capped(t.sessions) && Routed(c, t, pkt, from, now, wall, t', out) && Names(c, t, pkt, now, d)
    ensures var pinned := from in t.sessions && t.sessions[from].device == d;
            if pinned || HasRoom(t.sessions - {from}, from.ip, d, now) then
              && from in t'.sessions && t'.sessions[from] == Session(d, now, pinned && t.sessions[from].answered)
              && Reaches(t, d, from, pkt, now, out) && out != []
            else from !in t'.sessions && out == []
  {
    hide HasRoom, Names, Reaches;
    NamedIsTarget(c, t, pkt, from, now, d);
    NamedParts(c, t, pkt, now, d);
    assert IsTarget(c, t, pkt, from, now, d);
    var id :| IsTarget(c, t, pkt, from, now, id) && ClientRouted(t, id, pkt, from, now, t', out);
    ForwardReaches(t, t', d, from, pkt, now);
    ReachedIsSome(t, d, from, pkt, now, Forward(t', d, from, pkt, now));
    if !(from in t.sessions && t.sessions[from].device == d) {
      var s', ok :| NewcomerRouted(t, d, pkt, from, now, s', ok, t', out);
      WithinKeepsCaps(t.sessions - {from}, t.sessions);
      AdmittedExactly(t.sessions - {from}, s', from.ip, d, now, ok);
      AdmittedRoom(t.sessions - {from}, s', from.ip, d, now, ok);
    }
  }

  lemma NamedParts(c: Crypto, t: Table, pkt: seq<byte>, now: Instant, d: DeviceId)
    requires Names(c, t, pkt, now, d)
    ensures |pkt| > 0 && pkt[0] == 1
    ensures d in t.devs && t.devs[d].addr.Some? && t.devs[d].lastSeen.Some? && now < t.devs[d].lastSeen.value + 35 * 1_000_000_000
  {
  }

  lemma ReachedIsSome(t: Table, d: DeviceId, from: Addr, pkt: seq<byte>, now: Instant, out: seq<Packet>)
    requires Reaches(t, d, from, pkt, now, out)
    requires d in t.devs && t.devs[d].addr.Some? && t.devs[d].lastSeen.Some? && now < t.devs[d].lastSeen.value + 35 * 1_000_000_000
    ensures out != []
  {
  }

  /** In every run, so: client packets reach the device they are for. */
  lemma ClientPacketsDelivered(c: Crypto, ts: seq<Table>, es: seq<Event>, n: nat, d: DeviceId)
    requires IsRun(c, ts, es) && n < |es| && es[n].Datagram?
    ensures var t, t', pkt, from, now := ts[n], ts[n + 1], es[n].pkt, es[n].from, es[n].now;
            && (|pkt| >= 4 && (pkt[0] == 2 || pkt[0] == 3 || pkt[0] == 4) && pkt[1] == 0 && pkt[2] == 0 && pkt[3] == 0
                && from in t.sessions && t.sessions[from].device == d && now < t.sessions[from].last + 180 * 1_000_000_000 ==>
                  t' == t.(sessions := t.sessions[from := t.sessions[from].(last := now)]) && Reaches(t, d, from, pkt, now, es[n].out))
            && (Names(c, t, pkt, now, d) ==>
                  var pinned := from in t.sessions && t.sessions[from].device == d;
                  if pinned || HasRoom(t.sessions - {from}, from.ip, d, now) then
                    && from in t'.sessions && t'.sessions[from] == Session(d, now, pinned && t.sessions[from].answered)
                    && Reaches(t, d, from, pkt, now, es[n].out) && es[n].out != []
                  else from !in t'.sessions && es[n].out == [])
  {
    hide Names, HasRoom, Reaches, Routed, TableInv;
    ReachableTables(c, ts, es, n);
    ReachableCapped(ts[n]);
    assert Step(c, ts[n], es[n], ts[n + 1]);
    var t, t', pkt, from, now := ts[n], ts[n + 1], es[n].pkt, es[n].from, es[n].now;
    if Names(c, t, pkt, now, d) {
      InitiationForwarded(c, t, pkt, from, now, es[n].wall, t', es[n].out, d);
    }
    if |pkt| >= 4 && (pkt[0] == 2 || pkt[0] == 3 || pkt[0] == 4) && pkt[1] == 0 && pkt[2] == 0 && pkt[3] == 0
       && from in t.sessions && t.sessions[from].device == d && now < t.sessions[from].last + 180 * 1_000_000_000 {
      PinnedPacketForwarded(c, t, pkt, from, now, es[n].wall, t', es[n].out);
    }
  }

  lemma ReachableCapped(t: Table)
    requires TableInv(t)
    ensures Capped(t.sessions)
  {
  }

  // ---- a device's packets -------------------------------------------------------------------------

  /**
   A DATA frame from an address at which exactly device `d` is known: the payload goes to the client
   if it is pinned to `d` and spoke within 180 s, which a response or transport packet marks as
   answered; otherwise nothing happens.
   */
  lemma AnswersDelivered(
    c: Crypto, t: Table, client: Addr, payload: seq<byte>, from: Addr, now: Instant, wall: nat, t': Table, out: seq<Packet>, d: DeviceId)
    requires Routed(c, t, EncodeData(client, payload), from, now, wall, t', out)
    requires forall o :: (o in t.devs && t.devs[o].addr == Some(from)) <==> o == d
    ensures if client in t.sessions && t.sessions[client].device == d && now < t.sessions[client].last + 180 * 1_000_000_000 then
              var s := t.sessions[client];
              && out == [Packet(client, payload)]
              && t' == t.(sessions := t.sessions[client := s.(answered := s.answered || (|payload| > 0 && (payload[0] == 2 || payload[0] == 4)))])
            else t' == t && out == []
  {
    DataFrameBytes(client, payload);
    var f := EncodeData(client, payload);
    assert f[0] == 0xF0 && f[1] == 3;
    DecodeEncode(client, payload);
    assert SpeaksFor(t, d, from);
    var id :| SpeaksFor(t, id, from) && DataDelivered(t, id, client, payload, now, t', out);
    assert id == d;
  }

  /**
   A HELLO as the device makes it, F0 01, the stamp, its id with its length, and the HMAC under its
   key: taken exactly if its stamp is later than the last one and within two minutes of the hub's
   clock; the device's address is then where it came from, and the ACK, F0 02 and the stamp, goes
   there.
   */
  lemma HelloTakenExactly(
    c: Crypto, t: Table, id: DeviceId, stamp: nat, from: Addr, now: Instant, wall: nat, t': Table, out: seq<Packet>)
    requires |id| < 256 && id in t.devs && stamp < Pow256(8)
    requires var body := [0xF0, 1] + PutBe(8, stamp) + [|id| as byte] + id;
             var mac := c.hmac(t.devs[id].secret, body);
             |mac| == 32 && Routed(c, t, body + mac, from, now, wall, t', out)
    ensures if stamp > t.devs[id].lastTs && stamp <= wall + 120_000 && wall <= stamp + 120_000 then
              && t' == t.(devs := t.devs[id := t.devs[id].(lastTs := stamp, addr := Some(from), lastSeen := Some(now))])
              && out == [Packet(from, [0xF0, 2] + PutBe(8, stamp))]
            else t' == t && out == []
  {
    var body := HelloBody(id, stamp);
    assert body == [0xF0, 1] + PutBe(8, stamp) + [|id| as byte] + id;
    var f := HelloFrame(c, t.devs[id].secret, id, stamp);
    assert f[0] == 0xF0 && f[1] == 1;
    VerifyHelloExact(c, f, t.devs, id, stamp);
  }

  // ---- registrations ----------------------------------------------------------------------------------

  /** A prune keeps exactly the answered sessions heard within 180 s and the others heard within 10 s. */
  lemma PrunedExactly(c: Crypto, t: Table, now: Instant, t': Table, a: Addr)
    requires Step(c, t, PruneAt(now), t')
    ensures t'.devs == t.devs
    ensures a in t'.sessions <==>
              a in t.sessions && now < t.sessions[a].last + (if t.sessions[a].answered then 180 else 10) * 1_000_000_000
    ensures a in t'.sessions ==> t'.sessions[a] == t.sessions[a]
  {
  }

  /**
   A registration gives the device its key and secret, unless another device has the key; what was
   learned of a device registered before, its address and its last HELLO, stays, a new one is silent.
   */
  lemma RegisteredExactly(c: Crypto, t: Table, id: DeviceId, secret: seq<byte>, pub: seq<byte>, t': Table)
    requires Step(c, t, Register(id, secret, pub), t')
    ensures t'.sessions == t.sessions && forall o | o in t.devs && o != id :: o in t'.devs && t'.devs[o] == t.devs[o]
    ensures if exists o :: o in t.devs && o != id && t.devs[o].mac1Key == c.mac1Key(pub) then t'.devs == t.devs
            else
              && t'.devs.Keys == t.devs.Keys + {id}
              && t'.devs[id].secret == secret && t'.devs[id].mac1Key == c.mac1Key(pub)
              && (if id in t.devs then
                    t'.devs[id].addr == t.devs[id].addr && t'.devs[id].lastTs == t.devs[id].lastTs && t'.devs[id].lastSeen == t.devs[id].lastSeen
                  else t'.devs[id].addr.None? && t'.devs[id].lastTs == 0 && t'.devs[id].lastSeen.None?)
  {
  }

  /** A removal takes the device and exactly its sessions. */
  lemma RemovedExactly(c: Crypto, t: Table, id: DeviceId, t': Table, a: Addr, o: DeviceId)
    requires Step(c, t, Unregister(id), t')
    ensures o in t'.devs <==> o in t.devs && o != id
    ensures o in t'.devs ==> t'.devs[o] == t.devs[o]
    ensures a in t'.sessions <==> a in t.sessions && t.sessions[a].device != id
    ensures a in t'.sessions ==> t'.sessions[a] == t.sessions[a]
  {
  }

  // ---- established clients ---------------------------------------------------------------------------

  /** The client sends a packet for `d`: a transport packet or the like, or an initiation that names `d` alone. */
  ghost predicate Speaks(c: Crypto, t: Table, e: Event, a: Addr, d: DeviceId) {
    e.Datagram? && e.from == a
    && ((|e.pkt| >= 4 && (e.pkt[0] == 2 || e.pkt[0] == 3 || e.pkt[0] == 4) && e.pkt[1] == 0 && e.pkt[2] == 0 && e.pkt[3] == 0)
        || Names(c, t, e.pkt, e.now, d))
  }

  /** When the client last spoke, up to step n: at a packet since step m, or else what its session said then. */
  ghost function LastWord(c: Crypto, ts: seq<Table>, es: seq<Event>, m: nat, n: nat, a: Addr, d: DeviceId): Instant
    requires m <= n < |ts| && |ts| == |es| + 1 && a in ts[m].sessions
  {
    if n == m then ts[m].sessions[a].last
    else if Speaks(c, ts[n - 1], es[n - 1], a, d) then es[n - 1].now
    else LastWord(c, ts, es, m, n - 1, a, d)
  }

  /** At no step is the client's last word 180 s old; it initiates with no other device; its device stays. */
  ghost predicate KeepsTalking(c: Crypto, t: Table, e: Event, last: Instant, a: Addr, d: DeviceId) {
    match e
    case Datagram(pkt, from, now, _, _) =>
      now < last + 180 * 1_000_000_000 && (from == a ==> forall o | Names(c, t, pkt, now, o) :: o == d)
    case PruneAt(now) => now < last + 180 * 1_000_000_000
    case Register(_, _, _) => true
    case Unregister(id) => id != d
  }

  lemma TalkingUndisturbed(c: Crypto, t: Table, e: Event, a: Addr, d: DeviceId)
    requires Established(t, a, d) && KeepsTalking(c, t, e, t.sessions[a].last, a, d)
    ensures Undisturbing(c, t, e, a, d)
  {
    if e.Datagram? && e.from == a {
      forall id | IsTarget(c, t, e.pkt, e.from, e.now, id) ensures id == d {
        if |e.pkt| > 0 && e.pkt[0] == 1 {
          TargetIsNamed(c, t, e.pkt, e.from, e.now, id);
        }
      }
    }
  }

  /** A step moves the session's clock exactly when the client speaks. */
  lemma WordHeard(c: Crypto, t: Table, e: Event, t': Table, a: Addr, d: DeviceId)
    requires TableInv(t) && Step(c, t, e, t') && Established(t, a, d) && KeepsTalking(c, t, e, t.sessions[a].last, a, d)
    requires Established(t', a, d)
    requires t'.sessions[a].last == t.sessions[a].last || (e.Datagram? && e.from == a && t'.sessions[a].last == e.now)
    ensures t'.sessions[a].last == if Speaks(c, t, e, a, d) then e.now else t.sessions[a].last
  {
    hide Names, TableInv;
    if Speaks(c, t, e, a, d) {
      ReachableCapped(t);
      if Names(c, t, e.pkt, e.now, d) {
        InitiationForwarded(c, t, e.pkt, a, e.now, e.wall, t', e.out, d);
      } else {
        PinnedPacketForwarded(c, t, e.pkt, a, e.now, e.wall, t', e.out);
      }
    } else if e.Datagram? && e.from == a {
      NotSpoken(c, t, e, t', a, d);
    }
  }

  lemma NotSpoken(c: Crypto, t: Table, e: Event, t': Table, a: Addr, d: DeviceId)
    requires Step(c, t, e, t') && e.Datagram? && e.from == a && !Speaks(c, t, e, a, d) && Established(t, a, d)
    requires KeepsTalking(c, t, e, t.sessions[a].last, a, d)
    ensures a in t'.sessions && t'.sessions[a].last == t.sessions[a].last
  {
    if IsWireGuard(e.pkt) {
      assert e.pkt[1] == e.pkt[1..4][0] && e.pkt[2] == e.pkt[1..4][1] && e.pkt[3] == e.pkt[1..4][2];
      if id :| IsTarget(c, t, e.pkt, e.from, e.now, id) {
        TargetIsNamed(c, t, e.pkt, e.from, e.now, id);
      }
    }
  }

  /**
   Established clients survive, by what they send: a client that the device has answered, and that
   sends it a packet at least every 180 s, stays in the table, pinned and answered, through every
   run of other traffic, prunes and registrations; and the relay counts its silence from its last
   packet.
   */
  lemma {:induction false} EstablishedClientsSurvive(
    c: Crypto, ts: seq<Table>, es: seq<Event>, m: nat, n: nat, a: Addr, d: DeviceId)
    requires IsRun(c, ts, es) && m <= n < |ts| && Established(ts[m], a, d)
    requires forall i {:trigger es[i]} | m <= i < n :: KeepsTalking(c, ts[i], es[i], LastWord(c, ts, es, m, i, a, d), a, d)
    ensures Established(ts[n], a, d) && ts[n].sessions[a].last == LastWord(c, ts, es, m, n, a, d)
    decreases n - m
  {
    hide Step, TableInv, KeepsTalking, Undisturbing, Speaks;
    if m < n {
      EstablishedClientsSurvive(c, ts, es, m, n - 1, a, d);
      ReachableTables(c, ts, es, n - 1);
      var t, e, t' := ts[n - 1], es[n - 1], ts[n];
      TalkingUndisturbed(c, t, e, a, d);
      StepSparesTheEstablished(c, t, e, t', a, d);
      WordHeard(c, t, e, t', a, d);
    }
  }
}

/**
 Whole runs of the relay (vpnrelay.rs): any sequence of datagrams, prunes, registrations and
 removals from the empty table.
 */
module RelayRuns {
  import opened Bytes
  import opened RelayTable
  import opened RelayCaps

  datatype Event =
    | Datagram(pkt: seq<byte>, from: Addr, now: Instant, wall: nat, out: seq<Packet>)
    | PruneAt(now: Instant)
    | Register(id: DeviceId, secret: seq<byte>, serverPub: seq<byte>)
    | Unregister(id: DeviceId)

  ghost predicate Step(c: Crypto, t: Table, e: Event, t': Table) {
    match e
    case Datagram(pkt, from, now, wall, out) => Routed(c, t, pkt, from, now, wall, t', out)
    case PruneAt(now) => t' == Pruned(t, now)
    case Register(id, secret, pub) =>
      var key := c.mac1Key(pub);
      if KeyTaken(t, id, key) then t' == t else t' == Registered(t, id, secret, key)
    case Unregister(id) => t' == Removed(t, id)
  }

  ghost predicate IsRun(c: Crypto, ts: seq<Table>, es: seq<Event>) {
    |ts| == |es| + 1 && ts[0] == EMPTY && forall i | 0 <= i < |es| :: Step(c, ts[i], es[i], ts[i + 1])
  }

  // ---- the table invariant ---------------------------------------------------------------

  ghost predicate TableInv(t: Table) {
    Capped(t.sessions)
    && (forall a | a in t.sessions :: t.sessions[a].device in t.devs)
    && (forall x, y | x in t.devs && y in t.devs && t.devs[x].mac1Key == t.devs[y].mac1Key :: x == y)
  }

  lemma UpdateKeepsCaps(s: map<Addr, Session>, a: Addr, x: Session)
    requires Capped(s) && a in s && x.device == s[a].device
    ensures Capped(s[a := x])
  {
    forall b: Bucket ensures |Members(s[a := x], b)| <= b.Cap() {
      MembersUpdate(s, a, x, b);
    }
  }

  lemma InsertKeepsCaps(s: map<Addr, Session>, from: Addr, id: DeviceId, now: Instant)
    requires Capped(s) && from !in s
    requires forall b | OneOf(b, from.ip, id) :: |Members(s, b)| < b.Cap()
    ensures Capped(s[from := Session(id, now, false)])
  {
    forall b: Bucket ensures |Members(s[from := Session(id, now, false)], b)| <= b.Cap() {
      MembersPut(s, from, Session(id, now, false), b);
      assert b.Holds(from, Session(id, now, false)) ==> OneOf(b, from.ip, id);
    }
  }

  lemma NewcomerKeepsInv(
    t: Table, id: DeviceId, pkt: seq<byte>, from: Addr, now: Instant,
    s': map<Addr, Session>, ok: bool, t': Table, out: seq<Packet>)
    requires TableInv(t) && id in t.devs && NewcomerRouted(t, id, pkt, from, now, s', ok, t', out)
    ensures TableInv(t')
  {
    var s := t.sessions - {from};
    WithinKeepsCaps(s, t.sessions);
    AdmittedRoom(s, s', from.ip, id, now, ok);
    if ok {
      InsertKeepsCaps(s', from, id, now);
    }
  }

  lemma TargetRegistered(c: Crypto, t: Table, pkt: seq<byte>, from: Addr, now: Instant, id: DeviceId)
    requires TableInv(t) && IsTarget(c, t, pkt, from, now, id)
    ensures id in t.devs
  {
  }

  lemma DatagramKeepsInv(c: Crypto, t: Table, pkt: seq<byte>, from: Addr, now: Instant, wall: nat, t': Table, out: seq<Packet>)
    requires TableInv(t) && Routed(c, t, pkt, from, now, wall, t', out)
    ensures TableInv(t')
  {
    if |pkt| > 0 && pkt[0] == MAGIC {
      if |pkt| > 1 && pkt[1] == T_HELLO {
      } else if DecodeData(pkt).Some? && exists id :: SpeaksFor(t, id, from) {
        var (client, payload) := DecodeData(pkt).value;
        var id :| SpeaksFor(t, id, from) && DataDelivered(t, id, client, payload, now, t', out);
        if t' != t {
          UpdateKeepsCaps(t.sessions, client, t'.sessions[client]);
        }
      }
    } else if IsWireGuard(pkt) && exists id :: IsTarget(c, t, pkt, from, now, id) {
      var id :| IsTarget(c, t, pkt, from, now, id) && ClientRouted(t, id, pkt, from, now, t', out);
      TargetRegistered(c, t, pkt, from, now, id);
      if from in t.sessions && t.sessions[from].device == id {
        UpdateKeepsCaps(t.sessions, from, t'.sessions[from]);
      } else {
        var s', ok :| NewcomerRouted(t, id, pkt, from, now, s', ok, t', out);
        NewcomerKeepsInv(t, id, pkt, from, now, s', ok, t', out);
      }
    }
  }

  lemma StepKeepsInv(c: Crypto, t: Table, e: Event, t': Table)
    requires TableInv(t) && Step(c, t, e, t')
    ensures TableInv(t')
  {
    match e
    case Datagram(pkt, from, now, wall, out) => DatagramKeepsInv(c, t, pkt, from, now, wall, t', out);
    case PruneAt(now) => WithinKeepsCaps(t'.sessions, t.sessions);
    case Register(id, secret, pub) =>
      if !KeyTaken(t, id, c.mac1Key(pub)) {
        assert forall o | o in t.devs && o != id :: t.devs[o].mac1Key != c.mac1Key(pub);
      }
    case Unregister(id) => WithinKeepsCaps(t'.sessions, t.sessions);
  }

  /**
   Session caps. In every reachable table: at most 4096 sessions, 256 per device and 64 per
   client IP; every session names a registered device; no two devices share a mac1 key.
   */
  lemma {:induction false} ReachableTables(c: Crypto, ts: seq<Table>, es: seq<Event>, n: nat)
    requires IsRun(c, ts, es) && n < |ts|
    ensures TableInv(ts[n])
    ensures |ts[n].sessions| <= 4096
  {
    if n == 0 {
      forall b: Bucket ensures |Members(EMPTY.sessions, b)| <= b.Cap() {
        assert Members(EMPTY.sessions, b) == {};
      }
    } else {
      ReachableTables(c, ts, es, n - 1);
      StepKeepsInv(c, ts[n - 1], es[n - 1], ts[n]);
    }
    assert Members(ts[n].sessions, Everyone) == ts[n].sessions.Keys;
  }

  // ---- flood isolation over a run ------------------------------------------------------------

  /** What one datagram may displace besides its own sender's session. */
  ghost predicate DisplacesFairly(c: Crypto, t: Table, e: Event, t': Table, gone: set<Addr>)
    requires e.Datagram?
  {
    |gone| <= 2
    && (gone != {} ==>
          exists id :: IsTarget(c, t, e.pkt, e.from, e.now, id)
                       && GoneFairly(t.sessions - {e.from}, gone, e.from.ip, id, e.now)
                       && Isolated(t.sessions - {e.from}, gone, e.from.ip, id))
  }

  lemma KeysGone(s: set<Addr>, s': set<Addr>, t: set<Addr>, t': set<Addr>, from: Addr)
    requires s == t - {from} && s' <= s && (t' == s' || t' == s' + {from})
    ensures t - t' - {from} == s - s'
  {
  }

  lemma NewcomerDisplacesFairly(
    c: Crypto, t: Table, e: Event, id: DeviceId, s': map<Addr, Session>, ok: bool, t': Table)
    requires e.Datagram? && Capped(t.sessions) && IsTarget(c, t, e.pkt, e.from, e.now, id)
    requires Admitted(t.sessions - {e.from}, s', e.from.ip, id, e.now, ok)
    requires t'.sessions.Keys == s'.Keys || t'.sessions.Keys == s'.Keys + {e.from}
    ensures DisplacesFairly(c, t, e, t', t.sessions.Keys - t'.sessions.Keys - {e.from})
  {
    var s := t.sessions - {e.from};
    WithinKeepsCaps(s, t.sessions);
    FloodIsolation(s, s', e.from.ip, id, e.now, ok);
    AdmittedRoom(s, s', e.from.ip, id, e.now, ok);
    KeysGone(s.Keys, s'.Keys, t.sessions.Keys, t'.sessions.Keys, e.from);
  }

  lemma OnlyNewcomersDisplace(c: Crypto, t: Table, e: Event, t': Table)
    requires e.Datagram? && Step(c, t, e, t')
    ensures t.sessions.Keys <= t'.sessions.Keys + {e.from}
            || exists id, s', ok :: IsTarget(c, t, e.pkt, e.from, e.now, id)
                 && NewcomerRouted(t, id, e.pkt, e.from, e.now, s', ok, t', e.out)
  {
  }

  lemma RoutedNewcomerDisplacesFairly(
    c: Crypto, t: Table, e: Event, id: DeviceId, s': map<Addr, Session>, ok: bool, t': Table)
    requires e.Datagram? && Capped(t.sessions) && IsTarget(c, t, e.pkt, e.from, e.now, id)
    requires NewcomerRouted(t, id, e.pkt, e.from, e.now, s', ok, t', e.out)
    ensures DisplacesFairly(c, t, e, t', t.sessions.Keys - t'.sessions.Keys - {e.from})
  {
    hide Capped, IsTarget, Admitted, DisplacesFairly;
    NewcomerDisplacesFairly(c, t, e, id, s', ok, t');
  }

  lemma NothingDisplaced(c: Crypto, t: Table, e: Event, t': Table)
    requires e.Datagram? && t.sessions.Keys <= t'.sessions.Keys + {e.from}
    ensures DisplacesFairly(c, t, e, t', t.sessions.Keys - t'.sessions.Keys - {e.from})
  {
    hide IsTarget, Isolated, GoneFairly;
    assert t.sessions.Keys - t'.sessions.Keys - {e.from} == {};
  }

  lemma StepDisplacesFairly(c: Crypto, t: Table, e: Event, t': Table)
    requires Capped(t.sessions) && e.Datagram? && Step(c, t, e, t')
    ensures DisplacesFairly(c, t, e, t', t.sessions.Keys - t'.sessions.Keys - {e.from})
  {
    hide Capped, Step, IsTarget, NewcomerRouted, DisplacesFairly;
    OnlyNewcomersDisplace(c, t, e, t');
    if id, s', ok :| IsTarget(c, t, e.pkt, e.from, e.now, id) && NewcomerRouted(t, id, e.pkt, e.from, e.now, s', ok, t', e.out) {
      RoutedNewcomerDisplacesFairly(c, t, e, id, s', ok, t');
    } else {
      NothingDisplaced(c, t, e, t');
    }
  }

  /**
   Only a client packet that finds its target and is new to it can displace other clients: at
   most two, each the stalest unanswered or expired session of a full bucket that the packet's own
   session would join, and within the limits of Isolated.
   */
  lemma DatagramFloodIsolation(c: Crypto, ts: seq<Table>, es: seq<Event>, n: nat)
    requires IsRun(c, ts, es) && n < |es| && es[n].Datagram?
    ensures DisplacesFairly(c, ts[n], es[n], ts[n + 1], ts[n].sessions.Keys - ts[n + 1].sessions.Keys - {es[n].from})
  {
    ReachableTables(c, ts, es, n);
    StepDisplacesFairly(c, ts[n], es[n], ts[n + 1]);
  }

  // ---- established clients survive -----------------------------------------------------------

  ghost predicate Established(t: Table, a: Addr, d: DeviceId) {
    a in t.sessions && t.sessions[a].device == d && t.sessions[a].answered
  }

  /** Nothing that ends `a`'s session: it stays under 180 s silent, its device stays, and its packets are for no other. */
  ghost predicate Undisturbing(c: Crypto, t: Table, e: Event, a: Addr, d: DeviceId) {
    match e
    case Datagram(pkt, from, now, wall, out) =>
      (a in t.sessions ==> Since(now, t.sessions[a].last) < SESSION_TTL)
      && (from == a ==> forall id :: IsTarget(c, t, pkt, from, now, id) ==> id == d)
    case PruneAt(now) => a in t.sessions ==> Since(now, t.sessions[a].last) < SESSION_TTL
    case Register(_, _, _) => true
    case Unregister(id) => id != d
  }

  lemma AdmissionSparesTheEstablished(
    s: map<Addr, Session>, s': map<Addr, Session>, ip: Ip, device: DeviceId, now: Instant, ok: bool, a: Addr)
    requires Capped(s) && Admitted(s, s', ip, device, now, ok)
    requires a in s && s[a].answered && Since(now, s[a].last) < SESSION_TTL
    ensures a in s' && s'[a] == s[a]
  {
    AdmittedRoom(s, s', ip, device, now, ok);
    FloodIsolation(s, s', ip, device, now, ok);
    if a !in s' {
      GoneMayGo(s, s.Keys - s'.Keys, ip, device, now, a);
    }
  }

  lemma StepSparesTheEstablished(c: Crypto, t: Table, e: Event, t': Table, a: Addr, d: DeviceId)
    requires TableInv(t) && Step(c, t, e, t') && Established(t, a, d) && Undisturbing(c, t, e, a, d)
    ensures Established(t', a, d)
    ensures t'.sessions[a].last == t.sessions[a].last || (e.Datagram? && e.from == a && t'.sessions[a].last == e.now)
  {
    if e.Datagram? && IsWireGuard(e.pkt) && exists id :: IsTarget(c, t, e.pkt, e.from, e.now, id) {
      var id :| IsTarget(c, t, e.pkt, e.from, e.now, id) && ClientRouted(t, id, e.pkt, e.from, e.now, t', e.out);
      if !(e.from in t.sessions && t.sessions[e.from].device == id) {
        var s', ok :| NewcomerRouted(t, id, e.pkt, e.from, e.now, s', ok, t', e.out);
        WithinKeepsCaps(t.sessions - {e.from}, t.sessions);
        AdmissionSparesTheEstablished(t.sessions - {e.from}, s', e.from.ip, id, e.now, ok, a);
      }
    }
  }

  /** The datagram at `i`, between `m` and `n`, came from `a` at `t`. */
  ghost predicate HeardAt(es: seq<Event>, m: nat, n: nat, a: Addr, t: Instant, i: nat) {
    m <= i < n <= |es| && es[i].Datagram? && es[i].from == a && es[i].now == t
  }

  /**
   Established clients survive: an answered session whose silence stays under 180 s is still in
   the table, pinned to the same device and answered, after any run of other clients' datagrams,
   its own packets (new handshakes with that device included), prunes, registrations and removals of other devices.
   */
  lemma {:induction false} EstablishedClientsSurvive(
    c: Crypto, ts: seq<Table>, es: seq<Event>, m: nat, n: nat, a: Addr, d: DeviceId)
    requires IsRun(c, ts, es) && m <= n < |ts|
    requires Established(ts[m], a, d)
    requires forall i {:trigger es[i]} | m <= i < n :: Undisturbing(c, ts[i], es[i], a, d)
    ensures Established(ts[n], a, d)
    ensures LastHeard(ts, es, m, n, a)
    decreases n - m
  {
    if m < n {
      EstablishedClientsSurvive(c, ts, es, m, n - 1, a, d);
      ReachableTables(c, ts, es, n - 1);
      var t, e, t' := ts[n - 1], es[n - 1], ts[n];
      StepSparesTheEstablished(c, t, e, t', a, d);
      LastHeardGrows(ts, es, m, n, a);
    }
  }

  /** The session's last word is the one it had at `m`, or that of a datagram since. */
  ghost predicate LastHeard(ts: seq<Table>, es: seq<Event>, m: nat, n: nat, a: Addr) {
    m <= n < |ts| && |ts| == |es| + 1 && a in ts[m].sessions && a in ts[n].sessions
    && (ts[n].sessions[a].last == ts[m].sessions[a].last || exists i :: HeardAt(es, m, n, a, ts[n].sessions[a].last, i))
  }

  lemma LastHeardGrows(ts: seq<Table>, es: seq<Event>, m: nat, n: nat, a: Addr)
    requires m < n < |ts| && LastHeard(ts, es, m, n - 1, a) && a in ts[n].sessions
    requires ts[n].sessions[a].last == ts[n - 1].sessions[a].last
             || (es[n - 1].Datagram? && es[n - 1].from == a && ts[n].sessions[a].last == es[n - 1].now)
    ensures LastHeard(ts, es, m, n, a)
  {
    var last, n1 := ts[n].sessions[a].last, n - 1;
    if last == ts[n1].sessions[a].last {
      if i :| HeardAt(es, m, n1, a, last, i) {
        assert HeardAt(es, m, n, a, last, i);
      }
    } else {
      assert HeardAt(es, m, n, a, last, n - 1);
    }
  }

  // ---- no reflection -------------------------------------------------------------------------

  /** Event `e` on table `t` is a HELLO of `id` stamped `ts` that the relay took. */
  ghost predicate HelloTaken(c: Crypto, t: Table, e: Event, id: DeviceId, ts: nat) {
    e.Datagram? && |e.pkt| > 1 && e.pkt[0] == MAGIC && e.pkt[1] == T_HELLO
    && VerifyHello(c, e.pkt, t.devs) == Some((id, ts))
    && id in t.devs && ts > t.devs[id].lastTs && AbsDiff(ts, e.wall) <= CLOCK_SKEW_MS
  }

  ghost predicate SomeHelloTaken(c: Crypto, t: Table, e: Event, id: DeviceId) {
    exists stamp: nat :: HelloTaken(c, t, e, id, stamp)
  }

  /** Event `e` is an initiation from `a` that exactly one registered device, `id`, answers to. */
  ghost predicate Initiated(c: Crypto, t: Table, e: Event, a: Addr, id: DeviceId) {
    e.Datagram? && e.from == a && Matching(c, t.devs, e.pkt) == {id}
  }

  /** Event `e` is a WireGuard packet from `a` received at `now`. */
  ghost predicate Spoke(e: Event, a: Addr, now: Instant) {
    e.Datagram? && e.from == a && IsWireGuard(e.pkt) && e.now == now
  }

  ghost predicate KeptFrom(es: seq<Event>, i: nat, n: nat, id: DeviceId)
    requires n <= |es|
  {
    forall m | i <= m < n :: es[m] != Unregister(id)
  }

  ghost predicate PinnedSince(c: Crypto, ts: seq<Table>, es: seq<Event>, n: nat, a: Addr, id: DeviceId, i: nat)
    requires IsRun(c, ts, es) && n < |ts|
  {
    i < n && Initiated(c, ts[i], es[i], a, id) && KeptFrom(es, i, n, id)
  }

  /** The device's address is the one its HELLO at `k` came from, and it sent none the relay took since. */
  ghost predicate LearnedAt(c: Crypto, ts: seq<Table>, es: seq<Event>, n: nat, id: DeviceId, x: Addr, k: nat)
    requires IsRun(c, ts, es) && n < |ts|
  {
    k < n && es[k].Datagram? && es[k].from == x && SomeHelloTaken(c, ts[k], es[k], id)
    && KeptFrom(es, k, n, id)
    && forall m | k < m < n :: !SomeHelloTaken(c, ts[m], es[m], id)
  }

  ghost predicate SpokeAt(es: seq<Event>, n: nat, a: Addr, now: Instant, j: nat) {
    j < n <= |es| && Spoke(es[j], a, now)
  }

  /** What the history says of every session and learned address of a reachable table. */
  ghost predicate Grounded(c: Crypto, ts: seq<Table>, es: seq<Event>, n: nat)
    requires IsRun(c, ts, es) && n < |ts|
  {
    (forall a | a in ts[n].sessions :: exists i :: PinnedSince(c, ts, es, n, a, ts[n].sessions[a].device, i))
    && (forall a | a in ts[n].sessions :: exists j :: SpokeAt(es, n, a, ts[n].sessions[a].last, j))
    && (forall id | id in ts[n].devs && ts[n].devs[id].addr.Some? ::
          exists k :: LearnedAt(c, ts, es, n, id, ts[n].devs[id].addr.value, k))
  }

  /** Session `a` of `t'` is an old one of the same device, or this very datagram opened it. */
  ghost predicate SameOrOpened(c: Crypto, t: Table, e: Event, t': Table, a: Addr)
    requires a in t'.sessions
  {
    ((a in t.sessions && t.sessions[a].device == t'.sessions[a].device) || Initiated(c, t, e, a, t'.sessions[a].device))
    && ((a in t.sessions && t.sessions[a].last == t'.sessions[a].last) || Spoke(e, a, t'.sessions[a].last))
  }

  lemma NewcomerOrigin(
    c: Crypto, t: Table, e: Event, id: DeviceId, s': map<Addr, Session>, ok: bool, t': Table, a: Addr)
    requires e.Datagram? && Capped(t.sessions) && IsTarget(c, t, e.pkt, e.from, e.now, id) && IsWireGuard(e.pkt)
    requires !(e.from in t.sessions && t.sessions[e.from].device == id)
    requires NewcomerRouted(t, id, e.pkt, e.from, e.now, s', ok, t', e.out) && a in t'.sessions
    ensures SameOrOpened(c, t, e, t', a)
  {
    WithinKeepsCaps(t.sessions - {e.from}, t.sessions);
    AdmittedRoom(t.sessions - {e.from}, s', e.from.ip, id, e.now, ok);
  }

  lemma SessionOrigin(c: Crypto, t: Table, e: Event, t': Table, a: Addr)
    requires TableInv(t) && Step(c, t, e, t') && a in t'.sessions
    ensures SameOrOpened(c, t, e, t', a) && e != Unregister(t'.sessions[a].device)
  {
    if e.Datagram? && !(|e.pkt| > 0 && e.pkt[0] == MAGIC) && IsWireGuard(e.pkt) && exists id :: IsTarget(c, t, e.pkt, e.from, e.now, id) {
      var id :| IsTarget(c, t, e.pkt, e.from, e.now, id) && ClientRouted(t, id, e.pkt, e.from, e.now, t', e.out);
      if !(e.from in t.sessions && t.sessions[e.from].device == id) {
        var s', ok :| NewcomerRouted(t, id, e.pkt, e.from, e.now, s', ok, t', e.out);
        NewcomerOrigin(c, t, e, id, s', ok, t', a);
      }
    }
  }

  /** A learned address after a step is the old one, or this datagram is the HELLO it came with. */
  lemma AddressOrigin(c: Crypto, t: Table, e: Event, t': Table, id: DeviceId)
    requires Step(c, t, e, t') && id in t'.devs && t'.devs[id].addr.Some?
    ensures if SomeHelloTaken(c, t, e, id) then e.from == t'.devs[id].addr.value
            else id in t.devs && t.devs[id].addr == t'.devs[id].addr && e != Unregister(id)
  {
    if SomeHelloTaken(c, t, e, id) {
      assert HelloRouted(c, t, e.pkt, e.from, e.now, e.wall, t', e.out);
    } else if e.Datagram? && |e.pkt| > 1 && e.pkt[0] == MAGIC && e.pkt[1] == T_HELLO {
      assert HelloRouted(c, t, e.pkt, e.from, e.now, e.wall, t', e.out);
      if VerifyHello(c, e.pkt, t.devs).Some? {
        var (x, stamp) := VerifyHello(c, e.pkt, t.devs).value;
        assert !HelloTaken(c, t, e, id, stamp);
      }
    }
  }

  lemma {:induction false} HistoryGrounds(c: Crypto, ts: seq<Table>, es: seq<Event>, n: nat)
    requires IsRun(c, ts, es) && n < |ts|
    ensures Grounded(c, ts, es, n)
  {
    if n > 0 {
      HistoryGrounds(c, ts, es, n - 1);
      ReachableTables(c, ts, es, n - 1);
      var t, e, t' := ts[n - 1], es[n - 1], ts[n];
      forall a | a in t'.sessions
        ensures exists i :: PinnedSince(c, ts, es, n, a, t'.sessions[a].device, i)
        ensures exists j :: SpokeAt(es, n, a, t'.sessions[a].last, j)
      {
        SessionGrounded(c, ts, es, n, a);
      }
      forall id | id in t'.devs && t'.devs[id].addr.Some?
        ensures exists k :: LearnedAt(c, ts, es, n, id, t'.devs[id].addr.value, k)
      {
        AddressGrounded(c, ts, es, n, id);
      }
    }
  }

  lemma SessionGrounded(c: Crypto, ts: seq<Table>, es: seq<Event>, n: nat, a: Addr)
    requires IsRun(c, ts, es) && 0 < n < |ts| && Grounded(c, ts, es, n - 1) && TableInv(ts[n - 1])
    requires a in ts[n].sessions
    ensures exists i :: PinnedSince(c, ts, es, n, a, ts[n].sessions[a].device, i)
    ensures exists j :: SpokeAt(es, n, a, ts[n].sessions[a].last, j)
  {
    hide Step, TableInv, Initiated, Spoke;
    var d := ts[n].sessions[a].device;
    SessionOrigin(c, ts[n - 1], es[n - 1], ts[n], a);
    if Initiated(c, ts[n - 1], es[n - 1], a, d) {
      assert PinnedSince(c, ts, es, n, a, d, n - 1);
    } else {
      var i :| PinnedSince(c, ts, es, n - 1, a, d, i);
      assert PinnedSince(c, ts, es, n, a, d, i);
    }
    if Spoke(es[n - 1], a, ts[n].sessions[a].last) {
      assert SpokeAt(es, n, a, ts[n].sessions[a].last, n - 1);
    } else {
      var j :| SpokeAt(es, n - 1, a, ts[n - 1].sessions[a].last, j);
      assert SpokeAt(es, n, a, ts[n].sessions[a].last, j);
    }
  }

  lemma AddressGrounded(c: Crypto, ts: seq<Table>, es: seq<Event>, n: nat, id: DeviceId)
    requires IsRun(c, ts, es) && 0 < n < |ts| && Grounded(c, ts, es, n - 1)
    requires id in ts[n].devs && ts[n].devs[id].addr.Some?
    ensures exists k :: LearnedAt(c, ts, es, n, id, ts[n].devs[id].addr.value, k)
  {
    hide Step;
    var x := ts[n].devs[id].addr.value;
    AddressOrigin(c, ts[n - 1], es[n - 1], ts[n], id);
    if SomeHelloTaken(c, ts[n - 1], es[n - 1], id) {
      assert LearnedAt(c, ts, es, n, id, x, n - 1);
    } else {
      var k :| LearnedAt(c, ts, es, n - 1, id, x, k);
      assert LearnedAt(c, ts, es, n, id, x, k);
    }
  }

  /** DATA is delivered only by a speaker of the device the client is pinned to, within 180 s. */
  lemma DeliveryIsForAPinnedClient(c: Crypto, t: Table, e: Event, t': Table, p: Packet)
    requires Step(c, t, e, t') && e.Datagram? && p in e.out
    requires |e.pkt| > 0 && e.pkt[0] == MAGIC && !(|e.pkt| > 1 && e.pkt[1] == T_HELLO)
    ensures p.to in t.sessions && Since(e.now, t.sessions[p.to].last) < SESSION_TTL
    ensures SpeaksFor(t, t.sessions[p.to].device, e.from)
    ensures DecodeData(e.pkt) == Some((p.to, p.bytes))
  {
  }

  /**
   No reflection. A payload the relay sends to a client address goes to an address that itself
   (i) sent an initiation that exactly one device answered to, with that device registered ever
   since, and (j) sent a WireGuard packet less than 180 s ago; and it is sent on behalf of a
   datagram from the address that (k) that device's latest authentic HELLO came from.
   */
  lemma NoReflection(c: Crypto, ts: seq<Table>, es: seq<Event>, n: nat, p: Packet)
    requires IsRun(c, ts, es) && n < |es| && es[n].Datagram? && p in es[n].out
    requires |es[n].pkt| > 0 && es[n].pkt[0] == MAGIC && !(|es[n].pkt| > 1 && es[n].pkt[1] == T_HELLO)
    ensures DecodeData(es[n].pkt) == Some((p.to, p.bytes))
    ensures exists id, i, j, k, seen ::
              && id in ts[n].devs
              && PinnedSince(c, ts, es, n, p.to, id, i)
              && SpokeAt(es, n, p.to, seen, j) && Since(es[n].now, seen) < SESSION_TTL
              && LearnedAt(c, ts, es, n, id, es[n].from, k)
  {
    HistoryGrounds(c, ts, es, n);
    DeliveryIsForAPinnedClient(c, ts[n], es[n], ts[n + 1], p);
    var s := ts[n].sessions[p.to];
    var i :| PinnedSince(c, ts, es, n, p.to, s.device, i);
    var j :| SpokeAt(es, n, p.to, s.last, j);
    var k :| LearnedAt(c, ts, es, n, s.device, es[n].from, k);
    assert s.device in ts[n].devs;
  }

  /** Everything else the relay sends: the ACK of a HELLO it took, or a client's packet framed to a live device. */
  lemma OtherOutputs(c: Crypto, ts: seq<Table>, es: seq<Event>, n: nat, p: Packet)
    requires IsRun(c, ts, es) && n < |es| && es[n].Datagram? && p in es[n].out
    ensures var e := es[n];
            || (exists id, stamp: nat :: HelloTaken(c, ts[n], e, id, stamp) && p == Packet(e.from, AckFrame(stamp)))
            || DecodeData(e.pkt) == Some((p.to, p.bytes))
            || (exists id :: IsTarget(c, ts[n], e.pkt, e.from, e.now, id) && id in ts[n].devs && Live(ts[n].devs[id], e.now)
                  && ts[n].devs[id].addr == Some(p.to) && DecodeData(p.bytes) == Some((e.from, e.pkt)))
  {
    var e, t, t' := es[n], ts[n], ts[n + 1];
    if |e.pkt| > 0 && e.pkt[0] == MAGIC {
      if |e.pkt| > 1 && e.pkt[1] == T_HELLO {
        var (id, stamp) := VerifyHello(c, e.pkt, t.devs).value;
        assert HelloTaken(c, t, e, id, stamp);
      } else {
        DeliveryIsForAPinnedClient(c, t, e, t', p);
      }
    } else {
      var id :| IsTarget(c, t, e.pkt, e.from, e.now, id) && ClientRouted(t, id, e.pkt, e.from, e.now, t', e.out);
      DecodeEncode(e.from, e.pkt);
    }
  }

  // ---- HELLO freshness -----------------------------------------------------------------------

  lemma LastTsGrows(c: Crypto, t: Table, e: Event, t': Table, id: DeviceId)
    requires Step(c, t, e, t') && id in t.devs && e != Unregister(id)
    ensures id in t'.devs && t'.devs[id].lastTs >= t.devs[id].lastTs
    ensures forall stamp: nat :: HelloTaken(c, t, e, id, stamp) ==> t'.devs[id].lastTs == stamp > t.devs[id].lastTs
  {
    forall stamp: nat | HelloTaken(c, t, e, id, stamp) ensures t'.devs[id].lastTs == stamp > t.devs[id].lastTs {
      assert HelloRouted(c, t, e.pkt, e.from, e.now, e.wall, t', e.out);
    }
  }

  /** The HELLOs taken from a device carry strictly increasing times until it is removed: no replay is ever taken. */
  lemma {:induction false} HelloTimesIncrease(
    c: Crypto, ts: seq<Table>, es: seq<Event>, i: nat, j: nat, id: DeviceId, x: nat, y: nat)
    requires IsRun(c, ts, es) && i < j < |es|
    requires HelloTaken(c, ts[i], es[i], id, x) && HelloTaken(c, ts[j], es[j], id, y)
    requires KeptFrom(es, i, j, id)
    ensures x < y && es[i].pkt != es[j].pkt
  {
    LastTsGrows(c, ts[i], es[i], ts[i + 1], id);
    var m := i + 1;
    while m < j
      invariant i < m <= j && id in ts[m].devs && ts[m].devs[id].lastTs >= x
    {
      LastTsGrows(c, ts[m], es[m], ts[m + 1], id);
      m := m + 1;
    }
  }
}

/**
 The session caps and what a full cap may evict (vpnrelay.rs): no flood from one address or at
 one device displaces anything outside its own bucket until the whole table is in use.
 */
module RelayCaps {
  import opened Bytes
  import opened RelayTable

  ghost predicate Capped(s: map<Addr, Session>) {
    forall b: Bucket :: |Members(s, b)| <= b.Cap()
  }

  // ---- set facts -------------------------------------------------------------------------

  lemma StrictSubsetSize<A>(x: set<A>, y: set<A>)
    requires x < y
    ensures |x| < |y|
  {
    var e :| e in y && e !in x;
    SubsetSize(x, y - {e});
  }

  lemma MembersShrink(s: map<Addr, Session>, s': map<Addr, Session>, b: Bucket)
    requires s'.Keys <= s.Keys && forall a | a in s' :: s'[a] == s[a]
    ensures Members(s', b) <= Members(s, b) && |Members(s', b)| <= |Members(s, b)|
  {
    SubsetSize(Members(s', b), Members(s, b));
  }

  lemma MembersWithout(s: map<Addr, Session>, b: Bucket, v: Addr)
    requires v in Members(s, b)
    ensures |Members(s - {v}, b)| == |Members(s, b)| - 1
  {
    assert Members(s - {v}, b) == Members(s, b) - {v};
  }

  /** One more session raises only the buckets it is in, each by at most one. */
  lemma MembersPut(s: map<Addr, Session>, a: Addr, x: Session, b: Bucket)
    requires a !in s
    ensures |Members(s[a := x], b)| == |Members(s, b)| + if b.Holds(a, x) then 1 else 0
  {
    if b.Holds(a, x) {
      assert Members(s[a := x], b) == Members(s, b) + {a};
    } else {
      assert Members(s[a := x], b) == Members(s, b);
    }
  }

  /** Replacing a session by one of the same device moves it between no buckets. */
  lemma MembersUpdate(s: map<Addr, Session>, a: Addr, x: Session, b: Bucket)
    requires a in s && x.device == s[a].device
    ensures Members(s[a := x], b) == Members(s, b)
  {
  }

  ghost function Class<K, V>(s: set<K>, f: K -> V, v: V): set<K> {
    set k | k in s && f(k) == v
  }

  ghost function Image<K, V>(s: set<K>, f: K -> V): set<V> {
    set k | k in s :: f(k)
  }

  lemma ImageWithout<K, V>(s: set<K>, f: K -> V, v: V)
    requires v in Image(s, f)
    ensures Image(s - Class(s, f, v), f) == Image(s, f) - {v}
  {
    forall w | w in Image(s, f) - {v} ensures w in Image(s - Class(s, f, v), f) {
      var k :| k in s && f(k) == w;
      assert k in s - Class(s, f, v);
    }
  }

  /** Pigeonhole: a set that `f` splits into classes of at most `c` needs that many classes. */
  lemma {:induction false} Pigeonhole<K, V(!new)>(s: set<K>, f: K -> V, c: nat)
    requires forall v :: |Class(s, f, v)| <= c
    ensures |s| <= c * |Image(s, f)|
    decreases |s|
  {
    if s != {} {
      var k0 :| k0 in s;
      var v := f(k0);
      var mine := Class(s, f, v);
      var rest := s - mine;
      assert k0 in mine && s == mine + rest && v in Image(s, f);
      StrictSubsetSize(rest, s);
      ImageWithout(s, f, v);
      forall w ensures |Class(rest, f, w)| <= c {
        SubsetSize(Class(rest, f, w), Class(s, f, w));
      }
      Pigeonhole(rest, f, c);
      assert |Image(rest, f)| == |Image(s, f)| - 1;
      assert |s| == |mine| + |rest|;
      assert c * |Image(s, f)| == c * |Image(rest, f)| + c;
    }
  }

  // ---- one cap -----------------------------------------------------------------------------

  /** `x` is `y` with some sessions removed. */
  ghost predicate Within(x: map<Addr, Session>, y: map<Addr, Session>) {
    x.Keys <= y.Keys && forall a | a in x :: x[a] == y[a]
  }

  lemma WithinTransitive(x: map<Addr, Session>, y: map<Addr, Session>, z: map<Addr, Session>)
    requires Within(x, y) && Within(y, z)
    ensures Within(x, z)
  {
  }

  lemma WithinKeepsCaps(x: map<Addr, Session>, y: map<Addr, Session>)
    requires Capped(y) && Within(x, y)
    ensures Capped(x)
  {
    forall b: Bucket ensures |Members(x, b)| <= b.Cap() {
      MembersShrink(y, x, b);
    }
  }

  /** The full bucket `b` gave up its victim `v`. */
  ghost predicate TookOne(s: map<Addr, Session>, s': map<Addr, Session>, b: Bucket, now: Instant, v: Addr) {
    |Members(s, b)| == b.Cap() && IsVictim(s, b, now, v) && s' == s - {v}
  }

  lemma RoomMadeCases(s: map<Addr, Session>, s': map<Addr, Session>, b: Bucket, now: Instant, ok: bool)
    requires Capped(s) && RoomMade(s, s', b, now, ok)
    ensures s' == s || exists v :: TookOne(s, s', b, now, v)
  {
    if |Members(s, b)| >= b.Cap() && ok {
      var v :| IsVictim(s, b, now, v) && s' == s - {v};
      assert TookOne(s, s', b, now, v);
    }
  }

  /** `make_room` only removes, and a success leaves the bucket below its cap. */
  lemma RoomMadeShrinks(s: map<Addr, Session>, s': map<Addr, Session>, b: Bucket, now: Instant, ok: bool)
    requires Capped(s) && RoomMade(s, s', b, now, ok)
    ensures Within(s', s) && Capped(s')
    ensures ok ==> |Members(s', b)| < b.Cap()
  {
    RoomMadeCases(s, s', b, now, ok);
    if v :| TookOne(s, s', b, now, v) {
      MembersWithout(s, b, v);
    }
    WithinKeepsCaps(s', s);
  }

  /** The newcomer's three buckets. */
  ghost predicate OneOf(b: Bucket, ip: Ip, device: DeviceId) {
    b == OfIp(ip) || b == OfDevice(device) || b == Everyone
  }

  // ---- admission -----------------------------------------------------------------------------

  /** The table shrinks from cap to cap. */
  lemma AdmittedChain(
    s: map<Addr, Session>, s1: map<Addr, Session>, s2: map<Addr, Session>, s': map<Addr, Session>,
    ip: Ip, device: DeviceId, now: Instant, ok1: bool, ok2: bool, ok: bool)
    requires Capped(s) && AdmittedVia(s, s1, s2, s', ip, device, now, ok1, ok2, ok)
    ensures Within(s1, s) && Within(s2, s1) && Within(s', s2) && Within(s', s)
    ensures Capped(s1) && Capped(s2) && Capped(s')
    ensures ok2 ==> ok1
    ensures ok1 ==> |Members(s1, OfIp(ip))| < MAX_SESSIONS_PER_IP
    ensures ok2 ==> |Members(s2, OfDevice(device))| < MAX_SESSIONS_PER_DEVICE
    ensures ok ==> |Members(s', Everyone)| < MAX_SESSIONS
    ensures s1 == s || exists v :: TookOne(s, s1, OfIp(ip), now, v)
    ensures s2 == s1 || (ok1 && exists v :: TookOne(s1, s2, OfDevice(device), now, v))
    ensures s' == s2 || (ok2 && exists v :: TookOne(s2, s', Everyone, now, v))
  {
    RoomMadeShrinks(s, s1, OfIp(ip), now, ok1);
    RoomMadeCases(s, s1, OfIp(ip), now, ok1);
    if ok1 {
      RoomMadeShrinks(s1, s2, OfDevice(device), now, ok2);
      RoomMadeCases(s1, s2, OfDevice(device), now, ok2);
    }
    if ok2 {
      RoomMadeShrinks(s2, s', Everyone, now, ok);
      RoomMadeCases(s2, s', Everyone, now, ok);
    }
  }

  /** An admitted newcomer fits every cap, whatever mixture of buckets was full. */
  lemma AdmittedRoom(s: map<Addr, Session>, s': map<Addr, Session>, ip: Ip, device: DeviceId, now: Instant, ok: bool)
    requires Capped(s) && Admitted(s, s', ip, device, now, ok)
    ensures Within(s', s) && Capped(s')
    ensures ok ==> forall b | OneOf(b, ip, device) :: |Members(s', b)| < b.Cap()
  {
    var s1, s2, ok1, ok2 :| AdmittedVia(s, s1, s2, s', ip, device, now, ok1, ok2, ok);
    AdmittedChain(s, s1, s2, s', ip, device, now, ok1, ok2, ok);
    WithinTransitive(s', s2, s1);
    MembersShrink(s1, s', OfIp(ip));
    MembersShrink(s2, s', OfDevice(device));
  }

  function Devices(s: map<Addr, Session>): set<DeviceId> {
    set a | a in s :: s[a].device
  }

  function Ips(s: map<Addr, Session>): set<Ip> {
    set a | a in s :: a.ip
  }

  /** A capped table with every slot taken spans at least 16 devices and 64 client IPs. */
  lemma FullTableIsBroad(s: map<Addr, Session>)
    requires Capped(s) && |Members(s, Everyone)| >= MAX_SESSIONS
    ensures |Devices(s)| >= 16 && |Ips(s)| >= 64
  {
    assert Members(s, Everyone) == s.Keys;
    var byDevice := (a: Addr) => if a in s then s[a].device else [];
    forall d: DeviceId ensures |Class(s.Keys, byDevice, d)| <= MAX_SESSIONS_PER_DEVICE {
      assert Class(s.Keys, byDevice, d) == Members(s, OfDevice(d));
      assert OfDevice(d).Cap() == MAX_SESSIONS_PER_DEVICE;
    }
    Pigeonhole(s.Keys, byDevice, MAX_SESSIONS_PER_DEVICE);
    assert Image(s.Keys, byDevice) == Devices(s);
    var byIp := (a: Addr) => a.ip;
    forall i: Ip ensures |Class(s.Keys, byIp, i)| <= MAX_SESSIONS_PER_IP {
      assert Class(s.Keys, byIp, i) == Members(s, OfIp(i));
      assert OfIp(i).Cap() == MAX_SESSIONS_PER_IP;
    }
    Pigeonhole(s.Keys, byIp, MAX_SESSIONS_PER_IP);
    assert Image(s.Keys, byIp) == Ips(s);
  }

  /** `v` had to go: its bucket was full, and of all unanswered or expired sessions in it none was staler. */
  ghost predicate FairlyEvicted(s: map<Addr, Session>, b: Bucket, now: Instant, v: Addr) {
    |Members(s, b)| == b.Cap() && IsVictim(s, b, now, v)
  }

  /**
   One eviction seen from the table before the whole admission (`s0`). As the bucket was still at
   its cap, nothing had left it before.
   */
  lemma TookOneFairly(s0: map<Addr, Session>, s: map<Addr, Session>, s': map<Addr, Session>, b: Bucket, now: Instant, v: Addr)
    requires Capped(s0) && Within(s, s0) && TookOne(s, s', b, now, v)
    ensures FairlyEvicted(s0, b, now, v) && Members(s, b) == Members(s0, b)
  {
    MembersShrink(s0, s, b);
    if Members(s, b) != Members(s0, b) {
      StrictSubsetSize(Members(s, b), Members(s0, b));
    }
    forall a | a in Evictable(s0, b, now) ensures s0[v].last <= s0[a].last {
      assert a in Members(s, b) && a in Evictable(s, b, now);
    }
  }

  lemma EveryVictimFair(
    s: map<Addr, Session>, s1: map<Addr, Session>, s2: map<Addr, Session>, s': map<Addr, Session>,
    ip: Ip, device: DeviceId, now: Instant, ok1: bool, ok2: bool, ok: bool, v: Addr)
    requires Capped(s) && AdmittedVia(s, s1, s2, s', ip, device, now, ok1, ok2, ok)
    requires v in s && v !in s'
    ensures exists b :: OneOf(b, ip, device) && FairlyEvicted(s, b, now, v)
  {
    AdmittedChain(s, s1, s2, s', ip, device, now, ok1, ok2, ok);
    WithinTransitive(s', s2, s1);
    WithinTransitive(s2, s1, s);
    if v !in s1 {
      TookOneFairly(s, s, s1, OfIp(ip), now, v);
      assert OneOf(OfIp(ip), ip, device);
    } else if v !in s2 {
      TookOneFairly(s, s1, s2, OfDevice(device), now, v);
      assert OneOf(OfDevice(device), ip, device);
    } else {
      TookOneFairly(s, s2, s', Everyone, now, v);
      assert OneOf(Everyone, ip, device);
    }
  }

  /** The overall cap evicts only when every slot was taken and neither narrower cap evicted anything. */
  lemma OverallEvictionMeansFull(
    s: map<Addr, Session>, s1: map<Addr, Session>, s2: map<Addr, Session>, s': map<Addr, Session>,
    ip: Ip, device: DeviceId, now: Instant, ok1: bool, ok2: bool, ok: bool)
    requires Capped(s) && AdmittedVia(s, s1, s2, s', ip, device, now, ok1, ok2, ok)
    requires s' != s2
    ensures s2 == s && |Members(s, Everyone)| == MAX_SESSIONS
    ensures |Members(s, OfIp(ip))| < MAX_SESSIONS_PER_IP && |Members(s, OfDevice(device))| < MAX_SESSIONS_PER_DEVICE
  {
    hide AdmittedVia, Evictable, IsVictim, Members, Within, Capped;
    AdmittedChain(s, s1, s2, s', ip, device, now, ok1, ok2, ok);
    WithinTransitive(s2, s1, s);
    var v :| TookOne(s2, s', Everyone, now, v);
    TookOneFairly(s, s2, s', Everyone, now, v);
    SameMembersSame(s2, s);
    Between(s, s1, s2);
  }

  lemma SameMembersSame(x: map<Addr, Session>, y: map<Addr, Session>)
    requires Within(x, y) && Members(x, Everyone) == Members(y, Everyone)
    ensures x == y
  {
    assert Members(x, Everyone) == x.Keys && Members(y, Everyone) == y.Keys;
  }

  lemma Between(x: map<Addr, Session>, y: map<Addr, Session>, z: map<Addr, Session>)
    requires Within(y, x) && Within(z, y) && z == x
    ensures y == x
  {
  }

  lemma AtMostTwo(
    s: map<Addr, Session>, s1: map<Addr, Session>, s2: map<Addr, Session>, s': map<Addr, Session>,
    ip: Ip, device: DeviceId, now: Instant, ok1: bool, ok2: bool, ok: bool)
    requires Capped(s) && AdmittedVia(s, s1, s2, s', ip, device, now, ok1, ok2, ok)
    ensures |s.Keys - s'.Keys| <= 2
  {
    hide AdmittedVia, IsVictim, Members;
    AdmittedChain(s, s1, s2, s', ip, device, now, ok1, ok2, ok);
    if s' != s2 {
      OverallEvictionMeansFull(s, s1, s2, s', ip, device, now, ok1, ok2, ok);
      var v :| TookOne(s2, s', Everyone, now, v);
      SubsetSize(s.Keys - s'.Keys, {v});
    } else if s1 == s && s2 == s1 {
      assert s.Keys - s'.Keys == {};
    } else if s1 == s {
      var v :| TookOne(s1, s2, OfDevice(device), now, v);
      SubsetSize(s.Keys - s'.Keys, {v});
    } else {
      var u :| TookOne(s, s1, OfIp(ip), now, u);
      var v := if s2 == s1 then u else var w :| TookOne(s1, s2, OfDevice(device), now, w); w;
      SubsetSize(s.Keys - s'.Keys, {u, v});
      SubsetSize({u, v} - {u}, {v});
    }
  }

  /**
   What a flood from `ip` at `device` may displace from `s`. If the newcomer's IP or device bucket
   is full, nothing outside those two buckets; something outside them only when all 4096 slots
   are in use, by at least 16 devices and 64 IPs.
   */
  ghost predicate Isolated(s: map<Addr, Session>, gone: set<Addr>, ip: Ip, device: DeviceId) {
    gone <= s.Keys
    && (|Members(s, OfIp(ip))| == MAX_SESSIONS_PER_IP || |Members(s, OfDevice(device))| == MAX_SESSIONS_PER_DEVICE ==>
          forall v | v in gone :: v.ip == ip || s[v].device == device)
    && ((exists v :: v in gone && v.ip != ip && s[v].device != device) ==>
          |Members(s, Everyone)| == MAX_SESSIONS && |Devices(s)| >= 16 && |Ips(s)| >= 64)
  }

  lemma IsolatedVia(
    s: map<Addr, Session>, s1: map<Addr, Session>, s2: map<Addr, Session>, s': map<Addr, Session>,
    ip: Ip, device: DeviceId, now: Instant, ok1: bool, ok2: bool, ok: bool)
    requires Capped(s) && AdmittedVia(s, s1, s2, s', ip, device, now, ok1, ok2, ok)
    ensures Isolated(s, s.Keys - s'.Keys, ip, device)
  {
    if s' != s2 {
      OverallEvictionMeansFull(s, s1, s2, s', ip, device, now, ok1, ok2, ok);
      FullTableIsBroad(s);
    } else {
      AdmittedChain(s, s1, s2, s', ip, device, now, ok1, ok2, ok);
      forall v | v in s && v !in s' ensures v.ip == ip || s[v].device == device {
        if v !in s1 {
          var u :| TookOne(s, s1, OfIp(ip), now, u);
          assert u == v;
        } else {
          var u :| TookOne(s1, s2, OfDevice(device), now, u);
          assert u == v;
        }
      }
    }
  }

  /** Each of `gone` was the stalest unanswered or expired session of a full bucket of the newcomer's. */
  ghost predicate GoneFairly(s: map<Addr, Session>, gone: set<Addr>, ip: Ip, device: DeviceId, now: Instant) {
    forall v | v in gone :: exists b :: OneOf(b, ip, device) && FairlyEvicted(s, b, now, v)
  }

  lemma GoneMayGo(s: map<Addr, Session>, gone: set<Addr>, ip: Ip, device: DeviceId, now: Instant, v: Addr)
    requires GoneFairly(s, gone, ip, device, now) && v in gone
    ensures v in s && MayEvict(s[v], now)
  {
  }

  /**
   Flood isolation for one admission. Every session a newcomer displaces was, in the table before,
   the stalest unanswered or expired one of a full bucket of the newcomer's; at most two go, within
   Isolated's limits.
   */
  lemma FloodIsolation(s: map<Addr, Session>, s': map<Addr, Session>, ip: Ip, device: DeviceId, now: Instant, ok: bool)
    requires Capped(s) && Admitted(s, s', ip, device, now, ok)
    ensures GoneFairly(s, s.Keys - s'.Keys, ip, device, now)
    ensures |s.Keys - s'.Keys| <= 2
    ensures Isolated(s, s.Keys - s'.Keys, ip, device)
  {
    var s1, s2, ok1, ok2 :| AdmittedVia(s, s1, s2, s', ip, device, now, ok1, ok2, ok);
    forall v | v in s.Keys - s'.Keys ensures exists b :: OneOf(b, ip, device) && FairlyEvicted(s, b, now, v) {
      EveryVictimFair(s, s1, s2, s', ip, device, now, ok1, ok2, ok, v);
    }
    AtMostTwo(s, s1, s2, s', ip, device, now, ok1, ok2, ok);
    IsolatedVia(s, s1, s2, s', ip, device, now, ok1, ok2, ok);
  }

  /** A refusal: some bucket of the newcomer's is full of sessions that are answered and live. */
  lemma RefusedOnlyByTheLiving(s: map<Addr, Session>, s': map<Addr, Session>, ip: Ip, device: DeviceId, now: Instant)
    requires Capped(s) && Admitted(s, s', ip, device, now, false)
    ensures exists b :: OneOf(b, ip, device) && |Members(s', b)| == b.Cap()
              && forall a | a in Members(s', b) :: s'[a].answered && !Expired(s'[a], now)
  {
    var s1, s2, ok1, ok2 :| AdmittedVia(s, s1, s2, s', ip, device, now, ok1, ok2, false);
    AdmittedChain(s, s1, s2, s', ip, device, now, ok1, ok2, false);
    var b := if !ok1 then OfIp(ip) else if !ok2 then OfDevice(device) else Everyone;
    assert OneOf(b, ip, device);
    assert |Members(s', b)| <= b.Cap();
    assert Evictable(s', b, now) == {};
    forall a | a in Members(s', b) ensures s'[a].answered && !Expired(s'[a], now) {
      assert a !in Evictable(s', b, now);
    }
  }
}

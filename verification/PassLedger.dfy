/**
 The pass ledger over whole runs (vpn.rs): how many passes of a device are live, under which
 addresses and keys, however issues, revokes, shutdowns and prunes interleave.
 */
module PassLedger {
  import opened Bytes
  import opened PassBook
  import opened ExitStore
  import opened ExitProtocol
  import opened ExitShutdown
  import R = RelayTable

  // ---- lists that only lose passes -----------------------------------------------------------

  predicate RevokedFrom(p: Pass, q: Pass) {
    p.revokedAt.None? && q.revokedAt.Some? && q == p.(revokedAt := q.revokedAt)
  }

  /** `b` is `a` with some passes dropped and some revoked, in the same order. */
  ghost predicate Thinned(a: seq<Pass>, b: seq<Pass>) {
    if |a| == 0 then |b| == 0
    else Thinned(a[1..], b) || (|b| > 0 && (b[0] == a[0] || RevokedFrom(a[0], b[0])) && Thinned(a[1..], b[1..]))
  }

  lemma {:induction false} ThinnedFilter(a: seq<Pass>, f: Pass -> bool)
    ensures Thinned(a, Filter(a, f))
  {
    if |a| > 0 {
      ThinnedFilter(a[1..], f);
      if f(a[0]) {
        assert Filter(a, f)[0] == a[0] && Filter(a, f)[1..] == Filter(a[1..], f);
      } else {
        assert Filter(a, f) == Filter(a[1..], f);
      }
    }
  }

  lemma {:induction false} ThinnedPointwise(a: seq<Pass>, b: seq<Pass>)
    requires |a| == |b| && forall i | 0 <= i < |a| :: b[i] == a[i] || RevokedFrom(a[i], b[i])
    ensures Thinned(a, b)
  {
    if |a| > 0 { ThinnedPointwise(a[1..], b[1..]); }
  }

  lemma {:induction false} ThinnedMember(a: seq<Pass>, b: seq<Pass>, q: Pass)
    requires Thinned(a, b) && q in b
    ensures exists p :: p in a && (q == p || RevokedFrom(p, q))
  {
    if |a| > 0 {
      if Thinned(a[1..], b) {
        ThinnedMember(a[1..], b, q);
        var p :| p in a[1..] && (q == p || RevokedFrom(p, q));
        assert p in a;
      } else if q in b[1..] {
        ThinnedMember(a[1..], b[1..], q);
        var p :| p in a[1..] && (q == p || RevokedFrom(p, q));
        assert p in a;
      } else {
        assert q == b[0] && a[0] in a;
      }
    }
  }

  /** What a live pass of the thinned list was: itself, live then too. */
  lemma ThinnedLive(a: seq<Pass>, b: seq<Pass>, q: Pass, now: nat, now': nat)
    requires Thinned(a, b) && q in b && Live(q, now') && now <= now'
    ensures q in a && Live(q, now)
  {
    ThinnedMember(a, b, q);
  }

  // ---- no clashes ------------------------------------------------------------------------------

  ghost predicate Clashes(p: Pass, ps: seq<Pass>, d: DeviceId, now: nat) {
    exists q :: q in ps && q.device == d && Live(q, now) && (q.address == p.address || q.publicKey == p.publicKey)
  }

  /** The live passes of `d` have addresses in range, all different, and different public keys. */
  ghost predicate Clear(ps: seq<Pass>, d: DeviceId, now: nat) {
    |ps| == 0
    || (Clear(ps[1..], d, now)
        && (ps[0].device == d && Live(ps[0], now) ==>
              FIRST_HOST <= ps[0].address <= LAST_HOST && !Clashes(ps[0], ps[1..], d, now)))
  }

  lemma {:induction false} ThinnedClear(a: seq<Pass>, b: seq<Pass>, d: DeviceId, now: nat, now': nat)
    requires Thinned(a, b) && Clear(a, d, now) && now <= now'
    ensures Clear(b, d, now') && |LiveOf(b, d, now')| <= |LiveOf(a, d, now)|
  {
    if |a| > 0 {
      if Thinned(a[1..], b) {
        ThinnedClear(a[1..], b, d, now, now');
      } else {
        ThinnedClear(a[1..], b[1..], d, now, now');
        if b[0].device == d && Live(b[0], now') && Clashes(b[0], b[1..], d, now') {
          var q :| q in b[1..] && q.device == d && Live(q, now') && (q.address == b[0].address || q.publicKey == b[0].publicKey);
          ThinnedLive(a[1..], b[1..], q, now, now');
        }
      }
    }
  }

  lemma {:induction false} ClearAppend(ps: seq<Pass>, p: Pass, d: DeviceId, now: nat)
    requires Clear(ps, d, now)
    requires p.device == d && Live(p, now) ==> FIRST_HOST <= p.address <= LAST_HOST && !Clashes(p, ps, d, now)
    ensures Clear(ps + [p], d, now)
  {
    var all := ps + [p];
    if |ps| == 0 {
      assert all[1..] == [];
    } else {
      assert all[1..] == ps[1..] + [p];
      assert forall q | q in ps[1..] :: q in ps;
      ClearAppend(ps[1..], p, d, now);
      assert ps[0] in ps;
      forall q | ps[0].device == d && Live(ps[0], now) && q in all[1..] && q.device == d && Live(q, now)
        ensures q.address != ps[0].address && q.publicKey != ps[0].publicKey
      {
        assert q == p || q in ps[1..];
      }
    }
  }

  lemma {:induction false} ClearPairs(ps: seq<Pass>, d: DeviceId, now: nat, i: nat, j: nat)
    requires Clear(ps, d, now) && i < j < |ps|
    requires ps[i].device == d && Live(ps[i], now) && ps[j].device == d && Live(ps[j], now)
    ensures ps[i].address != ps[j].address && ps[i].publicKey != ps[j].publicKey
    ensures FIRST_HOST <= ps[i].address <= LAST_HOST && FIRST_HOST <= ps[j].address <= LAST_HOST
  {
    if i > 0 {
      ClearPairs(ps[1..], d, now, i - 1, j - 1);
    } else {
      assert ps[j] in ps[1..];
      ClearInRange(ps, d, now, j);
    }
  }

  lemma {:induction false} ClearInRange(ps: seq<Pass>, d: DeviceId, now: nat, j: nat)
    requires Clear(ps, d, now) && j < |ps| && ps[j].device == d && Live(ps[j], now)
    ensures FIRST_HOST <= ps[j].address <= LAST_HOST
  {
    if j > 0 {
      ClearInRange(ps[1..], d, now, j - 1);
    }
  }

  // ---- random draws ------------------------------------------------------------------------------

  /** No two passes share an id or a preshared key. */
  ghost predicate UniqueDraws(ps: seq<Pass>) {
    |ps| == 0
    || (UniqueDraws(ps[1..]) && forall q | q in ps[1..] :: q.id != ps[0].id && q.presharedKey != ps[0].presharedKey)
  }

  lemma {:induction false} ThinnedUnique(a: seq<Pass>, b: seq<Pass>)
    requires Thinned(a, b) && UniqueDraws(a)
    ensures UniqueDraws(b)
  {
    if |a| > 0 {
      if Thinned(a[1..], b) {
        ThinnedUnique(a[1..], b);
      } else {
        ThinnedUnique(a[1..], b[1..]);
        forall q | q in b[1..] ensures q.id != b[0].id && q.presharedKey != b[0].presharedKey {
          ThinnedMember(a[1..], b[1..], q);
        }
      }
    }
  }

  lemma {:induction false} UniqueAppend(ps: seq<Pass>, p: Pass)
    requires UniqueDraws(ps) && forall q | q in ps :: q.id != p.id && q.presharedKey != p.presharedKey
    ensures UniqueDraws(ps + [p])
  {
    if |ps| > 0 {
      UniqueAppend(ps[1..], p);
      assert (ps + [p])[1..] == ps[1..] + [p];
      assert ps[0] in ps;
    } else {
      assert (ps + [p])[1..] == [];
    }
  }

  lemma {:induction false} UniqueMeansOne(ps: seq<Pass>, p: Pass, q: Pass)
    requires UniqueDraws(ps) && p in ps && q in ps && (p.id == q.id || p.presharedKey == q.presharedKey)
    ensures p == q
  {
    if p != ps[0] && q != ps[0] {
      UniqueMeansOne(ps[1..], p, q);
    }
  }

  // ---- one step ----------------------------------------------------------------------------------

  predicate Reserves(codec: Codec, w: World, e: Event)
    requires e.IssueSnapshot? ==> InFlight(w, e.k, Started) && w.ops[e.k].kind.Issuing?
  {
    e.IssueSnapshot? && ReservationOf(w, e.k, e.id, e.psk).Reserved?
  }

  lemma HubThins(c: R.Crypto, codec: Codec, w: World, e: Event)
    requires Can(codec, w, e) && !Reserves(codec, w, e)
    ensures Thinned(w.hub.store.passes, HubAfter(c, codec, w, e).store.passes)
  {
    hide Thinned, RevokedFrom, Reserves;
    var a, b := w.hub.store.passes, HubAfter(c, codec, w, e).store.passes;
    if e.SweepList? {
      ThinnedFilter(a, (p: Pass) => Keep(p, w.clock));
    } else if e.ShutDown? || e.OwnerChange? {
      ThinnedFilter(a, (p: Pass) => p.device != e.device);
    } else {
      HubRevokes(c, codec, w, e);
      ThinnedPointwise(a, b);
    }
  }

  /** All other steps change passes in place, and only by revoking. */
  lemma HubRevokes(c: R.Crypto, codec: Codec, w: World, e: Event)
    requires Can(codec, w, e) && !Reserves(codec, w, e) && !e.SweepList? && !e.ShutDown? && !e.OwnerChange?
    ensures var a, b := w.hub.store.passes, HubAfter(c, codec, w, e).store.passes;
            |a| == |b| && forall i | 0 <= i < |a| :: b[i] == a[i] || RevokedFrom(a[i], b[i])
  {
  }

  /** A reservation made at `t`, whenever it then got the lock, clashes with nothing live. */
  lemma ReservedIsClear(s: Store, d: DeviceId, t: nat, hours: nat, key: string, user: string, id: string, psk: string, now: nat)
    requires t <= now
    ensures var r := Reserve(s, d, t, hours, key, user, id, psk);
            r.Reserved? ==>
              && r.pass.device == d && r.pass.id == id && r.pass.presharedKey == psk && r.pass.revokedAt.None?
              && FIRST_HOST <= r.pass.address <= LAST_HOST && !Clashes(r.pass, s.passes, d, now)
              && |LiveOf(s.passes, d, now)| < MAX_LIVE_PER_DEVICE
  {
    AllocateIsLowestFree(s.passes, d, t);
    FilterImplied(s.passes, (p: Pass) => p.device == d && Live(p, now), (p: Pass) => p.device == d && Live(p, t));
    var r := Reserve(s, d, t, hours, key, user, id, psk);
    forall q | r.Reserved? && q in s.passes && q.device == d && Live(q, now)
      ensures q.address != r.pass.address && q.publicKey != r.pass.publicKey
    {
      assert Live(q, t);
    }
  }

  /** The "no free tunnel addresses" refusal is unreachable: the cap of 20 refuses first. */
  lemma NoAddressUnreachable(s: Store, d: DeviceId, t: nat, hours: nat, key: string, user: string, id: string, psk: string)
    ensures !Reserve(s, d, t, hours, key, user, id, psk).NoAddress?
  {
    if |LiveOf(s.passes, d, t)| < MAX_LIVE_PER_DEVICE {
      AllocateSucceeds(s.passes, d, t);
    }
  }

  // ---- the invariant -----------------------------------------------------------------------------

  ghost predicate DeviceLedger(w: World, d: DeviceId) {
    Clear(w.hub.store.passes, d, w.clock) && |LiveOf(w.hub.store.passes, d, w.clock)| <= MAX_LIVE_PER_DEVICE
  }

  predicate Timed(w: World, o: Op) {
    o.kind.Issuing? ==> o.kind.t <= w.clock
  }

  ghost predicate Ledger(w: World) {
    (forall d :: DeviceLedger(w, d))
    && UniqueDraws(w.hub.store.passes)
    && (forall p | p in w.hub.store.passes :: p.id in w.drawn && p.presharedKey in w.drawn)
    && (forall k | k in w.ops :: Timed(w, w.ops[k]))
  }

  lemma ThinStep(c: R.Crypto, codec: Codec, w: World, e: Event, w': World)
    requires Ledger(w) && Step(c, codec, w, e, w') && !Reserves(codec, w, e)
    ensures (forall d :: DeviceLedger(w', d)) && UniqueDraws(w'.hub.store.passes)
    ensures forall p | p in w'.hub.store.passes :: p.id in w'.drawn && p.presharedKey in w'.drawn
  {
    hide HubAfter, OpAfter, OpsAfter, DeviceAfter, ChangesAfter, OwnersAfter, Thinned, UniqueDraws, Clear;
    HubThins(c, codec, w, e);
    var a, b := w.hub.store.passes, w'.hub.store.passes;
    forall d ensures DeviceLedger(w', d) {
      assert DeviceLedger(w, d);
      ThinnedClear(a, b, d, w.clock, w'.clock);
    }
    ThinnedUnique(a, b);
    forall q | q in b ensures q.id in w'.drawn && q.presharedKey in w'.drawn {
      ThinnedMember(a, b, q);
    }
  }

  lemma ReserveStep(c: R.Crypto, codec: Codec, w: World, e: Event, w': World)
    requires Ledger(w) && Step(c, codec, w, e, w') && Reserves(codec, w, e)
    ensures (forall d :: DeviceLedger(w', d)) && UniqueDraws(w'.hub.store.passes)
    ensures forall p | p in w'.hub.store.passes :: p.id in w'.drawn && p.presharedKey in w'.drawn
  {
    var i, p, ps := w.ops[e.k].kind, ReservationOf(w, e.k, e.id, e.psk).pass, w.hub.store.passes;
    assert Timed(w, w.ops[e.k]);
    ReservedIsClear(w.hub.store, e.k.device, i.t, i.hours, i.clientKey, i.user, e.id, e.psk, w.clock);
    assert w'.hub.store.passes == ps + [p];
    forall d ensures DeviceLedger(w', d) {
      assert DeviceLedger(w, d);
      ClearAppend(ps, p, d, w.clock);
      FilterAppend(ps, p, (p: Pass) => p.device == d && Live(p, w.clock));
    }
    UniqueAppend(ps, p);
  }

  lemma TimesStep(c: R.Crypto, codec: Codec, w: World, e: Event, w': World)
    requires (forall k | k in w.ops :: Timed(w, w.ops[k])) && Step(c, codec, w, e, w')
    ensures forall k | k in w'.ops :: Timed(w', w'.ops[k])
  {
    hide HubAfter, DeviceAfter, ChangesAfter, DrawnAfter, OwnersAfter, OpAfter;
    forall k | k in w'.ops ensures Timed(w', w'.ops[k]) {
      if Subject(e) == Some(k) {
        OpAfterKeeps(c, codec, w, e);
      } else {
        BystanderMoves(c, codec, w, e, w', k);
      }
    }
  }

  lemma {:induction false} LedgerHolds(c: R.Crypto, codec: Codec, ws: seq<World>, es: seq<Event>, n: nat)
    requires IsRun(c, codec, ws, es) && n <= |es|
    ensures Ledger(ws[n])
  {
    if n > 0 {
      LedgerHolds(c, codec, ws, es, n - 1);
      var w, e, w' := ws[n - 1], es[n - 1], ws[n];
      TimesStep(c, codec, w, e, w');
      if Reserves(codec, w, e) {
        ReserveStep(c, codec, w, e, w');
      } else {
        ThinStep(c, codec, w, e, w');
      }
    }
  }

  /**
   In every reachable state a device has at most 20 live passes, with addresses in
   10.77.0.2..254 and different in every two of them, as are their public keys.
   */
  lemma LivePasses(c: R.Crypto, codec: Codec, ws: seq<World>, es: seq<Event>, n: nat, d: DeviceId)
    requires IsRun(c, codec, ws, es) && n <= |es|
    ensures var ps, now := ws[n].hub.store.passes, ws[n].clock;
            && |LiveOf(ps, d, now)| <= 20
            && (forall p | p in ps && p.device == d && Live(p, now) :: 2 <= p.address <= 254)
            && (forall i, j | 0 <= i < j < |ps| && ps[i].device == d && Live(ps[i], now) && ps[j].device == d && Live(ps[j], now) ::
                  ps[i].address != ps[j].address && ps[i].publicKey != ps[j].publicKey)
  {
    LedgerHolds(c, codec, ws, es, n);
    var ps, now := ws[n].hub.store.passes, ws[n].clock;
    assert DeviceLedger(ws[n], d);
    forall p | p in ps && p.device == d && Live(p, now) ensures 2 <= p.address <= 254 {
      var j :| 0 <= j < |ps| && ps[j] == p;
      ClearInRange(ps, d, now, j);
    }
    forall i, j | 0 <= i < j < |ps| && ps[i].device == d && Live(ps[i], now) && ps[j].device == d && Live(ps[j], now)
      ensures ps[i].address != ps[j].address && ps[i].publicKey != ps[j].publicKey
    {
      ClearPairs(ps, d, now, i, j);
    }
  }
}

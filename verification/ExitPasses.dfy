/**
 The life of a pass (vpn.rs): when one is issued and what it holds, how long it is live, and that
 a revocation, a withdrawn issue and a shut-down each end it for good; and, told by the store's
 entries alone, what the locked commits of an enable, an issue and a sweep leave.
 */
module ExitPasses {
  import opened Bytes
  import opened PassBook
  import opened ExitStore
  import opened ExitProtocol
  import opened ExitShutdown
  import opened ExitSteps
  import opened PassLedger
  import R = RelayTable

  // ---- issuing ---------------------------------------------------------------------------------

  /** Unrevoked and before its expiry. */
  predicate Usable(p: Pass, now: nat) {
    p.revokedAt.None? && now < p.expiresAt
  }

  /**
   A pass is reserved exactly for an enabled device with fewer than 20 usable passes, none of which
   has the key.
   */
  lemma ReserveExactly(s: Store, d: DeviceId, t: nat, hours: nat, key: string, user: string, id: string, psk: string)
    ensures Reserve(s, d, t, hours, key, user, id, psk).Reserved? <==>
              && d in s.devices
              && (forall p | p in s.passes && p.device == d && Usable(p, t) :: p.publicKey != key)
              && |Filter(s.passes, (p: Pass) => p.device == d && Usable(p, t))| < 20
  {
    hide Filter, Allocate;
    NoAddressUnreachable(s, d, t, hours, key, user, id, psk);
    SameCount(s.passes, d, t);
  }

  /**
   It is then the caller's, under that key, usable for exactly the hours asked from the time of the
   request, with an address of 2..254 that no usable pass of the device has.
   */
  lemma ReservedPass(s: Store, d: DeviceId, t: nat, hours: nat, key: string, user: string, id: string, psk: string)
    requires Reserve(s, d, t, hours, key, user, id, psk).Reserved?
    ensures var p := Reserve(s, d, t, hours, key, user, id, psk).pass;
            && p.id == id && p.device == d && p.owner == user && p.publicKey == key && p.presharedKey == psk
            && (forall x: nat :: Usable(p, x) <==> x < t + hours * 3600)
            && 2 <= p.address <= 254
            && (forall q | q in s.passes && q.device == d && Usable(q, t) :: q.address != p.address)
  {
    AllocateIsLowestFree(s.passes, d, t);
    var p := Reserve(s, d, t, hours, key, user, id, psk).pass;
    forall q | q in s.passes && q.device == d && Usable(q, t) ensures q.address != p.address {
      assert Live(q, t);
    }
  }

  lemma SameCount(ps: seq<Pass>, d: DeviceId, t: nat)
    ensures |LiveOf(ps, d, t)| == |Filter(ps, (p: Pass) => p.device == d && Usable(p, t))|
  {
    var f, g := (p: Pass) => p.device == d && Live(p, t), (p: Pass) => p.device == d && Usable(p, t);
    FilterImplied(ps, f, g);
    FilterImplied(ps, g, f);
  }

  /** The pass an issue holds is what its request asked for. */
  predicate AsAsked(o: Op, d: DeviceId) {
    Seen(o) && o.kind.Issuing? ==>
      && o.pass.Some? && o.pass.value.device == d && o.pass.value.owner == o.kind.user
      && o.pass.value.publicKey == o.kind.clientKey && o.pass.value.revokedAt.None?
      && o.pass.value.expiresAt == o.kind.t + o.kind.hours * 3600
  }

  lemma AsAskedStep(c: R.Crypto, codec: Codec, w: World, e: Event, w': World, k: OpKey)
    requires Known(w) && Step(c, codec, w, e, w') && k in w'.ops && (k in w.ops ==> AsAsked(w.ops[k], k.device))
    ensures AsAsked(w'.ops[k], k.device)
  {
    hide Known, HubAfter, OpAfter, DeviceAfter, ChangesAfter, DrawnAfter, OwnersAfter;
    if Seen(w'.ops[k]) && w'.ops[k].kind.Issuing? {
      SeenMoves(c, codec, w, e, w', k);
      if !Held(w, k) {
        if Subject(e) == Some(k) {
          OpAfterKeeps(c, codec, w, e);
          FreshAsAsked(c, codec, w, e, k);
        } else {
          KnownParts(w);
          OthersMove(c, codec, w, e, w', k);
        }
      }
    }
  }

  lemma FreshAsAsked(c: R.Crypto, codec: Codec, w: World, e: Event, k: OpKey)
    requires Can(codec, w, e) && Subject(e) == Some(k) && e.IssueSnapshot? && OpAfter(c, codec, w, e).Some?
    ensures AsAsked(OpAfter(c, codec, w, e).value, k.device)
  {
    var i := w.ops[k].kind;
    ReservedPass(w.hub.store, k.device, i.t, i.hours, i.clientKey, i.user, e.id, e.psk);
    ReservedExpiry(w.hub.store, k.device, i.t, i.hours, i.clientKey, i.user, e.id, e.psk);
  }

  lemma ReservedExpiry(s: Store, d: DeviceId, t: nat, hours: nat, key: string, user: string, id: string, psk: string)
    requires Reserve(s, d, t, hours, key, user, id, psk).Reserved?
    ensures var p := Reserve(s, d, t, hours, key, user, id, psk).pass; p.revokedAt.None? && p.expiresAt == t + hours * 3600
  {
  }

  lemma {:induction false} AsAskedHolds(c: R.Crypto, codec: Codec, ws: seq<World>, es: seq<Event>, n: nat, k: OpKey)
    requires IsRun(c, codec, ws, es) && n <= |es| && k in ws[n].ops
    ensures AsAsked(ws[n].ops[k], k.device)
  {
    hide Step, Known, AsAsked;
    assert n > 0;
    KnownHolds(c, codec, ws, es, n - 1);
    if k in ws[n - 1].ops {
      AsAskedHolds(c, codec, ws, es, n - 1, k);
    }
    AsAskedStep(c, codec, ws[n - 1], es[n - 1], ws[n], k);
  }

  /**
   A granted pass, in every run: the caller's, for its device and key, usable exactly until the hours
   asked have passed since the time of the request.
   */
  lemma GrantedPassIs(c: R.Crypto, codec: Codec, ws: seq<World>, es: seq<Event>, n: nat)
    requires IsRun(c, codec, ws, es) && n < |es| && Grants(ws[n], es[n])
    ensures var o, d := ws[n].ops[es[n].k], es[n].k.device;
            && o.kind.Issuing? && o.pass.Some?
            && var p, i := o.pass.value, o.kind;
               && p.device == d && p.owner == i.user && p.publicKey == i.clientKey
               && (forall x: nat :: Usable(p, x) <==> x < i.t + i.hours * 3600)
  {
    EnablingAtTheEnd(c, codec, ws, es, n, es[n].k);
    AsAskedHolds(c, codec, ws, es, n, es[n].k);
  }

  /** The sweep drops a pass exactly a week after it was revoked or expired. */
  lemma PrunedExactly(s: Store, now: nat, p: Pass)
    ensures p in PruneStore(s, now).passes <==>
              p in s.passes
              && (Usable(p, now) || now < (if p.revokedAt.Some? then p.revokedAt.value else p.expiresAt) + 604800)
  {
  }

  /** An enabled device keeps its HELLO secret and who enabled it; another gets a fresh one. */
  lemma EnableKeepsSecret(s: Store, d: DeviceId, user: string, secret: seq<byte>, now: nat)
    ensures var cfg := EnableCfg(s, d, user, secret, now);
            if d in s.devices then cfg == s.devices[d] else cfg.secret == Hex(secret) && cfg.enabledBy == user && !cfg.dirty
  {
  }

  // ---- passes that are over -----------------------------------------------------------------------

  /** Every pass of this id is revoked, and the id will not be drawn again. */
  ghost predicate Over(w: World, id: string) {
    id in w.drawn && forall q | q in w.hub.store.passes && q.id == id :: q.revokedAt.Some?
  }

  lemma OverStays(c: R.Crypto, codec: Codec, w: World, e: Event, w': World, id: string)
    requires Step(c, codec, w, e, w') && Over(w, id)
    ensures Over(w', id)
  {
    hide OpAfter, OpsAfter, DeviceAfter, ChangesAfter, OwnersAfter;
    if Reserves(codec, w, e) {
      ReservedLast(c, codec, w, e, w');
    } else {
      KeptOrRevoked(c, codec, w, e, w');
    }
  }

  lemma ReservedLast(c: R.Crypto, codec: Codec, w: World, e: Event, w': World)
    requires Step(c, codec, w, e, w') && Reserves(codec, w, e)
    ensures exists p: Pass :: p.id == e.id && e.id !in w.drawn && w'.drawn >= w.drawn && p.device == e.k.device
                              && w'.hub.store.passes == w.hub.store.passes + [p]
  {
    hide OpAfter, OpsAfter, DeviceAfter, ChangesAfter, OwnersAfter;
    var p := ReservationOf(w, e.k, e.id, e.psk).pass;
    assert w'.hub.store.passes == w.hub.store.passes + [p];
    ReservedHas(w, e.k, e.id, e.psk);
  }

  lemma ReservedHas(w: World, k: OpKey, id: string, psk: string)
    requires InFlight(w, k, Started) && w.ops[k].kind.Issuing?
    ensures var r := ReservationOf(w, k, id, psk); r.Reserved? ==> r.pass.id == id && r.pass.device == k.device
  {
  }

  lemma KeptOrRevoked(c: R.Crypto, codec: Codec, w: World, e: Event, w': World)
    requires Step(c, codec, w, e, w') && !Reserves(codec, w, e)
    ensures w'.drawn == w.drawn
    ensures forall q | q in w'.hub.store.passes :: exists p :: p in w.hub.store.passes && (q == p || RevokedFrom(p, q))
  {
    hide OpAfter, OpsAfter, DeviceAfter, ChangesAfter, OwnersAfter, HubAfter, Thinned, RevokedFrom;
    HubThins(c, codec, w, e);
    forall q | q in w'.hub.store.passes ensures exists p :: p in w.hub.store.passes && (q == p || RevokedFrom(p, q)) {
      ThinnedMember(w.hub.store.passes, w'.hub.store.passes, q);
    }
  }

  lemma {:induction false} OverHolds(c: R.Crypto, codec: Codec, ws: seq<World>, es: seq<Event>, m: nat, n: nat, id: string)
    requires IsRun(c, codec, ws, es) && m <= n <= |es| && Over(ws[m], id)
    ensures Over(ws[n], id)
    decreases n
  {
    hide Step, Over;
    if m < n {
      OverHolds(c, codec, ws, es, m, n - 1, id);
      OverStays(c, codec, ws[n - 1], es[n - 1], ws[n], id);
    }
  }

  /** A revocation is final: in every run, once a revoke found the pass, no pass of that id is ever unrevoked again. */
  lemma RevocationIsFinal(c: R.Crypto, codec: Codec, ws: seq<World>, es: seq<Event>, m: nat, n: nat, p: Pass)
    requires IsRun(c, codec, ws, es) && m < n <= |es| && es[m].RevokeSnapshot? && es[m].k in ws[m].ops
    requires p in ws[m].hub.store.passes && p.device == es[m].k.device && ws[m].ops[es[m].k].kind == Revoking(p.id)
    ensures forall q | q in ws[n].hub.store.passes && q.id == p.id :: q.revokedAt.Some?
  {
    hide Step, Ledger;
    LedgerHolds(c, codec, ws, es, m);
    RevokeStamps(c, codec, ws[m], es[m], ws[m + 1], p);
    OverHolds(c, codec, ws, es, m + 1, n, p.id);
  }

  lemma RevokeStamps(c: R.Crypto, codec: Codec, w: World, e: Event, w': World, p: Pass)
    requires Ledger(w) && Step(c, codec, w, e, w') && e.RevokeSnapshot?
    requires p in w.hub.store.passes && p.device == e.k.device && w.ops[e.k].kind == Revoking(p.id)
    ensures Over(w', p.id)
  {
    hide OpAfter, OpsAfter, DeviceAfter, ChangesAfter, OwnersAfter;
    var ps := w.hub.store.passes;
    var i := FindId(ps, p.id, Some(p.device), false);
    Found(ps, p);
    var ps' := RevokeAt(ps, i, w.clock);
    assert w'.hub.store.passes == ps';
    OnlyOneOfId(ps, ps', i, p.id);
  }

  lemma Found(ps: seq<Pass>, p: Pass)
    requires p in ps
    ensures FindId(ps, p.id, Some(p.device), false) < |ps|
    ensures p.revokedAt.None? ==> FindId(ps, p.id, None, true) < |ps|
  {
    var j :| 0 <= j < |ps| && ps[j] == p;
  }

  /** Draws being unique, revoking one pass of an id revokes all. */
  lemma OnlyOneOfId(ps: seq<Pass>, ps': seq<Pass>, i: nat, id: string)
    requires UniqueDraws(ps) && |ps'| == |ps| && i < |ps| && ps[i].id == id && ps'[i].revokedAt.Some?
    requires forall j | 0 <= j < |ps| && j != i :: ps'[j] == ps[j]
    requires ps'[i].id == id
    ensures forall q | q in ps' && q.id == id :: q.revokedAt.Some?
  {
    forall q | q in ps' && q.id == id ensures q.revokedAt.Some? {
      var j :| 0 <= j < |ps'| && ps'[j] == q;
      if j != i {
        assert q in ps && ps[i] in ps;
        DistinctIds(ps, i, j);
      }
    }
  }

  lemma {:induction false} DistinctIds(ps: seq<Pass>, i: nat, j: nat)
    requires UniqueDraws(ps) && i < |ps| && j < |ps| && i != j
    ensures ps[i].id != ps[j].id
  {
    if i > 0 && j > 0 {
      DistinctIds(ps[1..], i - 1, j - 1);
    } else if i == 0 {
      assert ps[j] in ps[1..];
    } else {
      assert ps[i] in ps[1..];
    }
  }

  /** An issue that is not granted leaves no usable pass behind, then or ever after. */
  lemma WithdrawnIsOver(c: R.Crypto, codec: Codec, ws: seq<World>, es: seq<Event>, m: nat, n: nat)
    requires IsRun(c, codec, ws, es) && m < n <= |es| && es[m].IssueEnd? && !Grants(ws[m], es[m])
    ensures es[m].k in ws[m].ops && ws[m].ops[es[m].k].pass.Some?
    ensures forall q | q in ws[n].hub.store.passes && q.id == ws[m].ops[es[m].k].pass.value.id :: q.revokedAt.Some?
  {
    hide Ledger;
    KnownHolds(c, codec, ws, es, m);
    assert Step(c, codec, ws[m], es[m], ws[m + 1]);
    RollbackEnds(c, codec, ws[m], es[m], ws[m + 1]);
    OverHolds(c, codec, ws, es, m + 1, n, ws[m].ops[es[m].k].pass.value.id);
  }

  lemma RollbackEnds(c: R.Crypto, codec: Codec, w: World, e: Event, w': World)
    requires Known(w) && Step(c, codec, w, e, w') && e.IssueEnd? && !Grants(w, e)
    ensures Over(w', w.ops[e.k].pass.value.id)
  {
    hide OpAfter, OpsAfter, DeviceAfter, ChangesAfter, OwnersAfter;
    var ps, id := w.hub.store.passes, w.ops[e.k].pass.value.id;
    assert OpKnown(w, e.k);
    assert id in w.drawn;
    var i := FindId(ps, id, None, true);
    if i < |ps| {
      OnlyOneOfId(ps, w'.hub.store.passes, i, id);
    } else {
      forall q | q in ps && q.id == id ensures q.revokedAt.Some? {
        if q.revokedAt.None? { Found(ps, q); }
      }
    }
  }

  // ---- shut-downs end passes ---------------------------------------------------------------------------

  /** The pass was reserved by a step from m on. */
  ghost predicate ReservedSince(es: seq<Event>, m: nat, n: nat, q: Pass)
    requires n <= |es|
  {
    exists i :: m <= i < n && es[i].IssueSnapshot? && es[i].id == q.id && es[i].k.device == q.device
  }

  /** A shut-down ends every pass of the device: one that is unrevoked later was reserved after it. */
  lemma {:induction false} ShutdownEndsPasses(c: R.Crypto, codec: Codec, ws: seq<World>, es: seq<Event>, m: nat, n: nat, q: Pass)
    requires IsRun(c, codec, ws, es) && m < n <= |es| && SwitchesOff(es[m], q.device)
    requires q in ws[n].hub.store.passes && q.revokedAt.None?
    ensures ReservedSince(es, m + 1, n, q)
    decreases n
  {
    hide HubAfter, OpAfter, OpsAfter, DeviceAfter, ChangesAfter, OwnersAfter, DrawnAfter;
    var w, e, w' := ws[n - 1], es[n - 1], ws[n];
    assert Step(c, codec, w, e, w');
    if m == n - 1 {
      SwitchedOffLeavesNone(c, codec, w, e, q.device, q);
    } else if Reserves(codec, w, e) {
      ReservedLast(c, codec, w, e, w');
      if q in w.hub.store.passes {
        ShutdownEndsPasses(c, codec, ws, es, m, n - 1, q);
        Later(es, m + 1, n, q);
      }
    } else {
      KeptOrRevoked(c, codec, w, e, w');
      ShutdownEndsPasses(c, codec, ws, es, m, n - 1, q);
      Later(es, m + 1, n, q);
    }
  }

  lemma Later(es: seq<Event>, m: nat, n: nat, q: Pass)
    requires 0 < n <= |es| && ReservedSince(es, m, n - 1, q)
    ensures ReservedSince(es, m, n, q)
  {
  }

  /**
   What a shut-down leaves of a store: no entry of the device, every other entry, and every pass of
   another device; of its own passes none when the exit is shut down or changes owner, and all,
   ended now if they were not before, when it is disabled.
   */
  lemma SwitchedOffExactly(c: R.Crypto, codec: Codec, w: World, e: Event, w': World, d: DeviceId)
    requires Step(c, codec, w, e, w') && SwitchesOff(e, d)
    ensures w'.hub.store.devices == w.hub.store.devices - {d}
    ensures var ps, ps' := w.hub.store.passes, w'.hub.store.passes;
            if e.DisableEnd? then
              |ps'| == |ps| && forall i | 0 <= i < |ps| ::
                ps'[i] == if ps[i].device == d && ps[i].revokedAt.None? then ps[i].(revokedAt := Some(w.clock)) else ps[i]
            else ps' == Filter(ps, (p: Pass) => p.device != d)
  {
    hide OpAfter, OpsAfter, DeviceAfter, ChangesAfter, DrawnAfter, OwnersAfter;
  }

  /** A revoke stamps the pass of that id on the device, unless it was revoked before, and touches nothing else. */
  lemma RevokedExactly(c: R.Crypto, codec: Codec, w: World, e: Event, w': World, i: nat)
    requires Ledger(w) && Step(c, codec, w, e, w') && e.RevokeSnapshot? && e.k in w.ops && i < |w.hub.store.passes|
    ensures w'.hub.store.devices == w.hub.store.devices && |w'.hub.store.passes| == |w.hub.store.passes|
    ensures var p := w.hub.store.passes[i];
            w'.hub.store.passes[i]
            == if w.ops[e.k].kind == Revoking(p.id) && p.device == e.k.device && p.revokedAt.None?
               then p.(revokedAt := Some(w.clock)) else p
  {
    hide OpAfter, OpsAfter, DeviceAfter, ChangesAfter, DrawnAfter, OwnersAfter;
    var ps, id, d := w.hub.store.passes, w.ops[e.k].kind.passId, e.k.device;
    var j := FindId(ps, id, Some(d), false);
    if ps[i].id == id && ps[i].device == d {
      Found(ps, ps[i]);
      if i != j { DistinctIds(ps, i, j); }
    }
  }

  // ---- what the commits leave ----------------------------------------------------------------------------

  /** The device's entry is on, and whether it is marked for a retry. */
  predicate Entry(w: World, d: DeviceId, dirty: bool) {
    d in w.hub.store.devices && w.hub.store.devices[d].dirty == dirty
  }

  /**
   A sweep's commit clears the mark exactly if its push was answered well and neither epoch nor
   version moved since its snapshot; it does nothing else to any entry.
   */
  lemma SweepCommitsExactly(c: R.Crypto, codec: Codec, w: World, k: OpKey, w': World)
    requires Step(c, codec, w, SweepEnd(k), w')
    ensures var o, d, s, s' := w.ops[k], k.device, w.hub.store, w'.hub.store;
            if o.phase == Answered(true) && o.epoch == s.Epoch(d) && o.version == s.Version(d) && d in s.devices then
              s'.devices == s.devices[d := s.devices[d].(dirty := false)]
            else s'.devices == s.devices
  {
    hide OpAfter, OpsAfter, DeviceAfter, ChangesAfter, DrawnAfter, OwnersAfter;
  }

  /**
   An issue's commit grants the pass exactly if the exit was not shut down since its snapshot and the
   owner was still the one read; it then marks the entry exactly if the push failed or the version
   moved, and touches no entry otherwise.
   */
  lemma IssueCommitsExactly(c: R.Crypto, codec: Codec, w: World, k: OpKey, w': World)
    requires Step(c, codec, w, IssueEnd(k), w')
    ensures var o, d, s, s' := w.ops[k], k.device, w.hub.store, w'.hub.store;
            && (Grants(w, IssueEnd(k)) <==> o.epoch == s.Epoch(d) && o.phase.kept)
            && (if Grants(w, IssueEnd(k)) && (!o.phase.ok || o.version != s.Version(d)) && d in s.devices then
                  s'.devices == s.devices[d := s.devices[d].(dirty := true)]
                else s'.devices == s.devices)
            && (Grants(w, IssueEnd(k)) ==> s'.passes == s.passes)
  {
    hide OpAfter, OpsAfter, DeviceAfter, ChangesAfter, DrawnAfter, OwnersAfter;
  }

  /**
   An enable's commit turns the exit on exactly if it was not shut down since its snapshot and no
   other device has the server key it reports; the entry is then marked exactly if passes changed.
   */
  lemma EnableCommitsExactly(c: R.Crypto, codec: Codec, w: World, k: OpKey, w': World)
    requires Step(c, codec, w, EnableEnd(k), w')
    ensures var o, d, s, s' := w.ops[k], k.device, w.hub.store, w'.hub.store;
            var key := codec.decode(o.phase.serverKey);
            if o.epoch == s.Epoch(d)
               && !(key.Some? && exists x :: x in w.hub.relay.devs && x != d && w.hub.relay.devs[x].mac1Key == c.mac1Key(key.value)) then
              s'.devices == s.devices[d := o.cfg.(serverPublicKey := o.phase.serverKey, dirty := o.version != s.Version(d))]
            else s'.devices == s.devices && w'.hub.relay == w.hub.relay
  {
    hide OpAfter, OpsAfter, DeviceAfter, ChangesAfter, DrawnAfter, OwnersAfter;
  }
}

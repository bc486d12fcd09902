/**
 What holds of the exit protocol's operations in every run, orderly or not (vpn.rs): how a step
 moves operations, counters, entries and passes, and two results that need no more. A retry mark
 is cleared only on a snapshot that no pass change has overtaken; and the rollback of an issue
 changes a pass exactly when its owner read had gone stale.
 */
module ExitSteps {
  import opened Bytes
  import opened PassBook
  import opened ExitStore
  import opened ExitProtocol
  import opened ExitShutdown
  import opened PassLedger
  import R = RelayTable

  // ---- what is known of an operation --------------------------------------------------------------

  predicate On(w: World, d: DeviceId) {
    d in w.hub.store.devices
  }

  predicate Dirty(w: World, d: DeviceId) {
    On(w, d) && w.hub.store.devices[d].dirty
  }

  predicate Current(w: World, k: OpKey)
    requires k in w.ops
  {
    w.ops[k].epoch == w.hub.store.Epoch(k.device)
  }

  /** A snapshot's counters are behind the store's, and a pass change or shutdown since shows in all that count it. */
  predicate Counts(w: World, k: OpKey)
    requires k in w.ops
  {
    var o, d, s := w.ops[k], k.device, w.hub.store;
    Seen(o) ==>
      && o.epoch <= s.Epoch(d) && o.version <= s.Version(d) && o.changes <= w.Changes(d)
      && (o.epoch < s.Epoch(d) ==> o.changes < w.Changes(d))
      && (o.changes < w.Changes(d) ==> o.version < s.Version(d))
  }

  /** The pass an issue made: a shutdown since has revoked or dropped it. */
  ghost predicate OwnPass(w: World, k: OpKey)
    requires k in w.ops
  {
    var o, d := w.ops[k], k.device;
    Seen(o) && o.kind.Issuing? ==>
      && o.pass.Some? && o.pass.value.id in w.drawn
      && (forall q | q in w.hub.store.passes && q.id == o.pass.value.id :: q.device == d && (!Current(w, k) ==> q.revokedAt.Some?))
  }

  /** An answer from the device means that the push reached it. */
  predicate Pushed(o: Op) {
    match o.phase
    case Answered(ok) => ok ==> o.reached
    case OwnerCompared(ok, _) => ok ==> o.reached
    case Reported(_) => o.reached
    case Vetted(_) => o.reached
    case _ => true
  }

  /** The same passes in the same order, but for some revoked on the way from `a` to `b`. */
  ghost predicate SomeRevoked(a: seq<Pass>, b: seq<Pass>) {
    |a| == |b| && forall i | 0 <= i < |a| :: b[i] == a[i] || RevokedFrom(a[i], b[i])
  }

  /** While the version stands, the device's passes are those of the snapshot, but for what a rollback revoked. */
  ghost predicate Snapped(w: World, k: OpKey)
    requires k in w.ops
  {
    Seen(w.ops[k]) && w.ops[k].version == w.hub.store.Version(k.device) ==>
      SomeRevoked(OfDevice(w.ops[k].passes, k.device), OfDevice(w.hub.store.passes, k.device))
  }

  ghost predicate OpKnown(w: World, k: OpKey)
    requires k in w.ops
  {
    PhaseFits(w.ops[k]) && Pushed(w.ops[k]) && Counts(w, k) && OwnPass(w, k) && Snapped(w, k)
  }

  ghost predicate Numbered(w: World) {
    forall k | k in w.ops :: k.n < w.nextOp
  }

  /** The invariant of every run. */
  ghost predicate Known(w: World) {
    Ledger(w) && Numbered(w) && forall k | k in w.ops :: OpKnown(w, k)
  }

  // ---- how a step moves operations ---------------------------------------------------------------

  predicate SameSnapshot(o: Op, o': Op) {
    o'.kind == o.kind && o'.cfg == o.cfg && o'.passes == o.passes && o'.epoch == o.epoch && o'.version == o.version
    && o'.pass == o.pass && o'.changes == o.changes && (Seen(o') <==> Seen(o))
  }

  predicate FreshSnapshot(w: World, k: OpKey)
    requires k in w.ops
  {
    var o, d := w.ops[k], k.device;
    Seen(o) && o.passes == w.hub.store.passes && o.epoch == w.hub.store.Epoch(d) && o.version == w.hub.store.Version(d)
    && o.changes == w.Changes(d) && !o.reached && !o.crossed
    && (o.phase.Pushing? || (o.phase.Listed? && o.kind.Sweeping?)) && !o.kind.Disabling?
  }

  /** The step ends an operation whose push reached this device. */
  ghost predicate Crosses(c: R.Crypto, codec: Codec, w: World, e: Event, d: DeviceId)
    requires Can(codec, w, e)
  {
    Subject(e).Some? && Subject(e).value.device == d && w.ops[Subject(e).value].reached && OpAfter(c, codec, w, e).None?
  }

  lemma HeldSubjectMoves(c: R.Crypto, codec: Codec, w: World, e: Event, k: OpKey)
    requires Can(codec, w, e) && Subject(e) == Some(k) && PhaseFits(w.ops[k])
    requires OpAfter(c, codec, w, e).Some? && !e.EnableSnapshot? && !e.IssueSnapshot? && !e.RevokeSnapshot?
    ensures var o, o' := w.ops[k], OpAfter(c, codec, w, e).value;
            && SameSnapshot(o, o') && o'.crossed == o.crossed
            && o'.reached == (o.reached || e.Deliver? || e.DisableReach?)
            && (o'.owner == o.owner || e.SweepOwner?)
  {
  }

  lemma SubjectMoves(c: R.Crypto, codec: Codec, w: World, e: Event, w': World, k: OpKey)
    requires Step(c, codec, w, e, w') && Subject(e) == Some(k) && k in w'.ops
    requires PhaseFits(w.ops[k])
    ensures w'.ops[k].kind == w.ops[k].kind
    ensures Seen(w.ops[k]) || !Seen(w'.ops[k]) ==>
              && SameSnapshot(w.ops[k], w'.ops[k]) && w'.ops[k].crossed == w.ops[k].crossed
              && w'.ops[k].reached == (w.ops[k].reached || e.Deliver? || e.DisableReach?)
              && (w'.ops[k].owner == w.ops[k].owner || e.SweepOwner?)
    ensures !Seen(w.ops[k]) && Seen(w'.ops[k]) ==>
              && FreshSnapshot(w', k) && w'.ops[k].owner == w.ops[k].owner
              && (e.EnableSnapshot? || e.IssueSnapshot? || e.RevokeSnapshot?)
  {
    if e.EnableSnapshot? || e.IssueSnapshot? || e.RevokeSnapshot? {
    } else {
      HeldSubjectMoves(c, codec, w, e, k);
    }
  }

  lemma OthersStay(c: R.Crypto, codec: Codec, w: World, e: Event, w': World, k: OpKey)
    requires Step(c, codec, w, e, w') && Subject(e) != Some(k) && k in w'.ops && k in w.ops && k.n < w.nextOp
    ensures w'.ops[k] == (if Crosses(c, codec, w, e, k.device) then w.ops[k].(crossed := true) else w.ops[k])
  {
    hide HubAfter, OpAfter, DeviceAfter, ChangesAfter, DrawnAfter, OwnersAfter;
  }

  lemma OthersOpen(c: R.Crypto, codec: Codec, w: World, e: Event, w': World, k: OpKey)
    requires Step(c, codec, w, e, w') && Subject(e) != Some(k) && k in w'.ops && k !in w.ops
    ensures k.n == w.nextOp && !w'.ops[k].reached && !w'.ops[k].crossed && (!Seen(w'.ops[k]) || e.SweepList?)
  {
    hide HubAfter, OpAfter, DeviceAfter, ChangesAfter, DrawnAfter, OwnersAfter;
  }

  lemma SweepOpens(c: R.Crypto, codec: Codec, w: World, e: Event, w': World, k: OpKey)
    requires Step(c, codec, w, e, w') && e.SweepList? && k in w'.ops && k !in w.ops
    ensures FreshSnapshot(w', k) && w'.ops[k].phase.Listed? && w'.ops[k].kind.Sweeping? && Dirty(w', k.device)
    ensures w'.ops[k].cfg == w'.hub.store.devices[k.device]
  {
    hide OpAfter, DeviceAfter, DrawnAfter, OwnersAfter;
  }

  lemma OthersMove(c: R.Crypto, codec: Codec, w: World, e: Event, w': World, k: OpKey)
    requires Step(c, codec, w, e, w') && Numbered(w) && Subject(e) != Some(k) && k in w'.ops
    ensures if k in w.ops then
              w'.ops[k] == (if Crosses(c, codec, w, e, k.device) then w.ops[k].(crossed := true) else w.ops[k])
            else
              k.n == w.nextOp && !w'.ops[k].reached && !w'.ops[k].crossed
              && (!Seen(w'.ops[k])
                  || (e.SweepList? && FreshSnapshot(w', k) && w'.ops[k].phase.Listed? && w'.ops[k].kind.Sweeping? && Dirty(w', k.device)
                      && w'.ops[k].cfg == w'.hub.store.devices[k.device]))
  {
    hide Step, Crosses, FreshSnapshot, Seen, Dirty;
    if k in w.ops {
      OthersStay(c, codec, w, e, w', k);
    } else {
      OthersOpen(c, codec, w, e, w', k);
      if e.SweepList? { SweepOpens(c, codec, w, e, w', k); }
    }
  }

  lemma OpsStay(c: R.Crypto, codec: Codec, w: World, e: Event, w': World, k: OpKey)
    requires Step(c, codec, w, e, w') && k in w.ops && !e.Restart?
    ensures k in w'.ops || (Subject(e) == Some(k) && OpAfter(c, codec, w, e).None?)
  {
    hide HubAfter, OpAfter, DeviceAfter, ChangesAfter, DrawnAfter, OwnersAfter;
  }

  lemma NumberedStep(c: R.Crypto, codec: Codec, w: World, e: Event, w': World)
    requires Numbered(w) && Step(c, codec, w, e, w')
    ensures Numbered(w')
  {
    forall k | k in w'.ops ensures k.n < w'.nextOp {
      if Subject(e) != Some(k) {
        OthersMove(c, codec, w, e, w', k);
      }
    }
  }

  /** The operation had its snapshot before the step. */
  predicate Held(w: World, k: OpKey) {
    k in w.ops && Seen(w.ops[k])
  }

  /** An operation with a snapshot either had it before, or took it in this very step. */
  lemma SeenMoves(c: R.Crypto, codec: Codec, w: World, e: Event, w': World, k: OpKey)
    requires Known(w) && Step(c, codec, w, e, w') && k in w'.ops && Seen(w'.ops[k])
    ensures !Held(w, k) ==> FreshSnapshot(w', k)
    ensures Held(w, k) ==>
              && SameSnapshot(w.ops[k], w'.ops[k]) && !e.Restart?
              && (w'.ops[k].crossed <==> w.ops[k].crossed || (Subject(e) != Some(k) && Crosses(c, codec, w, e, k.device)))
  {
    hide HubAfter, OpAfter, DeviceAfter, ChangesAfter, DrawnAfter, OwnersAfter, Crosses;
    if Subject(e) == Some(k) {
      assert OpKnown(w, k);
      SubjectMoves(c, codec, w, e, w', k);
    } else {
      OthersMove(c, codec, w, e, w', k);
    }
  }

  // ---- how a step moves the store --------------------------------------------------------------------

  lemma VersionStep(c: R.Crypto, codec: Codec, w: World, e: Event, w': World, d: DeviceId)
    requires Step(c, codec, w, e, w') && !e.Restart?
    ensures w'.hub.store.Version(d) >= w.hub.store.Version(d)
    ensures ChangesPasses(codec, w, e, d) ==> w'.hub.store.Version(d) > w.hub.store.Version(d)
  {
    hide OpAfter, OpsAfter, DeviceAfter, ChangesAfter, DrawnAfter, OwnersAfter;
  }

  lemma ChangesStep(c: R.Crypto, codec: Codec, w: World, e: Event, w': World, d: DeviceId)
    requires Step(c, codec, w, e, w')
    ensures w'.Changes(d) == w.Changes(d) + if ChangesPasses(codec, w, e, d) then 1 else 0
  {
    hide HubAfter, OpAfter, OpsAfter, DeviceAfter, DrawnAfter, OwnersAfter;
  }

  lemma CountsMove(c: R.Crypto, codec: Codec, w: World, e: Event, w': World, d: DeviceId)
    requires Step(c, codec, w, e, w') && !e.Restart?
    ensures w'.hub.store.Epoch(d) == w.hub.store.Epoch(d) + if SwitchesOff(e, d) then 1 else 0
    ensures w'.Changes(d) == w.Changes(d) + if ChangesPasses(codec, w, e, d) then 1 else 0
    ensures w'.hub.store.Version(d) >= w.hub.store.Version(d)
    ensures ChangesPasses(codec, w, e, d) ==> w'.hub.store.Version(d) > w.hub.store.Version(d)
  {
    EpochStep(c, codec, w, e, w', d);
    VersionStep(c, codec, w, e, w', d);
    ChangesStep(c, codec, w, e, w', d);
  }

  lemma EntryComesAndGoes(c: R.Crypto, codec: Codec, w: World, e: Event, w': World, d: DeviceId)
    requires Step(c, codec, w, e, w') && !e.Restart?
    ensures !On(w', d) ==> !On(w, d) || SwitchesOff(e, d)
    ensures On(w', d) && !On(w, d) ==> e.EnableEnd? && e.k.device == d && Current(w, e.k)
    ensures On(w', d) ==> !SwitchesOff(e, d)
  {
    hide OpAfter, OpsAfter, DeviceAfter, ChangesAfter, DrawnAfter, OwnersAfter;
  }

  lemma EntryChanges(c: R.Crypto, codec: Codec, w: World, e: Event, w': World, d: DeviceId)
    requires Step(c, codec, w, e, w') && !e.Restart?
    ensures On(w, d) && On(w', d) && w'.hub.store.devices[d] != w.hub.store.devices[d] ==>
              || (e.EnableEnd? && e.k.device == d && Current(w, e.k))
              || (e.SweepEnd? && e.k.device == d && w'.hub.store.devices[d] == w.hub.store.devices[d].(dirty := false))
              || w'.hub.store.devices[d] == w.hub.store.devices[d].(dirty := true)
    ensures e.EnableEnd? && e.k.device == d && On(w', d) && (!On(w, d) || w'.hub.store.devices[d] != w.hub.store.devices[d]) ==>
              && EnableOutcomeOf(c, codec, w.hub, d, ReportedCfg(w.ops[e.k]), w.ops[e.k].epoch) == Enabled
              && w'.hub.store.devices[d].secret == w.ops[e.k].cfg.secret
              && (Dirty(w', d) <==> w.hub.store.Version(d) != w.ops[e.k].version)
  {
    hide OpAfter, OpsAfter, DeviceAfter, ChangesAfter, DrawnAfter, OwnersAfter;
  }

  lemma EntryCleared(c: R.Crypto, codec: Codec, w: World, e: Event, w': World, d: DeviceId)
    requires Step(c, codec, w, e, w') && !e.Restart?
    ensures Dirty(w, d) && On(w', d) && !Dirty(w', d) ==>
              || (e.EnableEnd? && e.k.device == d && Current(w, e.k))
              || (e.SweepEnd? && e.k.device == d && Current(w, e.k) && w.ops[e.k].phase.ok && w.ops[e.k].version == w.hub.store.Version(d))
  {
    hide OpAfter, OpsAfter, DeviceAfter, ChangesAfter, DrawnAfter, OwnersAfter;
  }

  /** Who changes a device's entry, and how. */
  lemma EntryMoves(c: R.Crypto, codec: Codec, w: World, e: Event, w': World, d: DeviceId)
    requires Step(c, codec, w, e, w') && !e.Restart?
    ensures !On(w', d) ==> !On(w, d) || SwitchesOff(e, d)
    ensures On(w', d) && !On(w, d) ==> e.EnableEnd? && e.k.device == d && Current(w, e.k)
    ensures On(w', d) ==> !SwitchesOff(e, d)
    ensures On(w, d) && On(w', d) && w'.hub.store.devices[d] != w.hub.store.devices[d] ==>
              || (e.EnableEnd? && e.k.device == d && Current(w, e.k))
              || (e.SweepEnd? && e.k.device == d && w'.hub.store.devices[d] == w.hub.store.devices[d].(dirty := false))
              || w'.hub.store.devices[d] == w.hub.store.devices[d].(dirty := true)
    ensures e.EnableEnd? && e.k.device == d && On(w', d) && (!On(w, d) || w'.hub.store.devices[d] != w.hub.store.devices[d]) ==>
              && EnableOutcomeOf(c, codec, w.hub, d, ReportedCfg(w.ops[e.k]), w.ops[e.k].epoch) == Enabled
              && w'.hub.store.devices[d].secret == w.ops[e.k].cfg.secret
              && (Dirty(w', d) <==> w.hub.store.Version(d) != w.ops[e.k].version)
    ensures Dirty(w, d) && On(w', d) && !Dirty(w', d) ==>
              || (e.EnableEnd? && e.k.device == d && Current(w, e.k))
              || (e.SweepEnd? && e.k.device == d && Current(w, e.k) && w.ops[e.k].phase.ok && w.ops[e.k].version == w.hub.store.Version(d))
  {
    hide HubAfter, OpAfter, OpsAfter, DeviceAfter, ChangesAfter, DrawnAfter, OwnersAfter;
    EntryComesAndGoes(c, codec, w, e, w', d);
    EntryChanges(c, codec, w, e, w', d);
    EntryCleared(c, codec, w, e, w', d);
  }

  // ---- how a step moves passes -----------------------------------------------------------------------

  /** The snapshot's passes of the device are the store's, but for dead ones pruned since. */
  ghost predicate SamePasses(snap: seq<Pass>, ps: seq<Pass>, d: DeviceId, now: nat) {
    (forall p | p in ps && p.device == d :: p in snap)
    && (forall p | p in snap && p.device == d :: p in ps || !Live(p, now))
  }

  /** Only passes of other devices differ. */
  predicate Elsewhere(ps: seq<Pass>, ps': seq<Pass>, d: DeviceId) {
    |ps'| == |ps| && forall i | 0 <= i < |ps| :: ps'[i] == ps[i] || (ps[i].device != d && ps'[i].device != d)
  }

  lemma ElsewhereNames(ps: seq<Pass>, ps': seq<Pass>, d: DeviceId)
    requires Elsewhere(ps, ps', d)
    ensures OfDevice(ps', d) == OfDevice(ps, d)
  {
    FilterPointwise(ps, ps', (p: Pass) => p.device == d);
  }

  lemma ElsewhereKeeps(ps: seq<Pass>, ps': seq<Pass>, d: DeviceId, now: nat)
    requires Elsewhere(ps, ps', d)
    ensures SamePasses(ps, ps', d, now)
  {
    forall p | p in ps && p.device == d ensures p in ps' {
      var i :| 0 <= i < |ps| && ps[i] == p;
      assert ps'[i] == p;
    }
  }

  /** The rollback of an issue can only touch its own pass, so no other device's. */
  lemma RollbackElsewhere(c: R.Crypto, codec: Codec, w: World, k: OpKey, d: DeviceId)
    requires Can(codec, w, IssueEnd(k)) && OpKnown(w, k) && k.device != d
    ensures Elsewhere(w.hub.store.passes, HubAfter(c, codec, w, IssueEnd(k)).store.passes, d)
  {
    hide OpAfter, OpsAfter, DeviceAfter, ChangesAfter, DrawnAfter, OwnersAfter;
    var ps := w.hub.store.passes;
    assert forall j | 0 <= j < |ps| :: ps[j] in ps;
  }

  /** It changes nothing while the owner is the one read: the pass is unrevoked only in its own epoch. */
  lemma RollbackIdle(c: R.Crypto, codec: Codec, w: World, k: OpKey)
    requires Can(codec, w, IssueEnd(k)) && OpKnown(w, k) && (Current(w, k) ==> w.ops[k].phase.kept)
    ensures HubAfter(c, codec, w, IssueEnd(k)).store.passes == w.hub.store.passes
  {
    var ps := w.hub.store.passes;
    assert forall j | 0 <= j < |ps| :: ps[j] in ps;
  }

  lemma RollbackRevokes(c: R.Crypto, codec: Codec, w: World, k: OpKey, d: DeviceId)
    requires Can(codec, w, IssueEnd(k))
    ensures SomeRevoked(OfDevice(w.hub.store.passes, d), OfDevice(HubAfter(c, codec, w, IssueEnd(k)).store.passes, d))
  {
    OfDeviceRevoked(w.hub.store.passes, HubAfter(c, codec, w, IssueEnd(k)).store.passes, d);
  }

  lemma {:induction false} OfDeviceRevoked(a: seq<Pass>, b: seq<Pass>, d: DeviceId)
    requires SomeRevoked(a, b)
    ensures SomeRevoked(OfDevice(a, d), OfDevice(b, d))
  {
    if |a| > 0 {
      OfDeviceRevoked(a[1..], b[1..], d);
    }
  }

  /** An issue's rollback has nothing of `d` to revoke. */
  predicate Spares(w: World, e: Event, d: DeviceId) {
    e.IssueEnd? && e.k.device == d && e.k in w.ops && w.ops[e.k].phase.OwnerCompared? && Current(w, e.k) ==> w.ops[e.k].phase.kept
  }

  /** The step may drop passes from the list. */
  predicate Thins(e: Event) {
    e.SweepList? || e.ShutDown? || e.OwnerChange?
  }

  /** Revokes and disables of other devices leave this one's passes, as do all steps that touch none. */
  lemma OthersElsewhere(c: R.Crypto, codec: Codec, w: World, e: Event, d: DeviceId)
    requires Can(codec, w, e) && !ChangesPasses(codec, w, e, d) && !e.IssueEnd? && !Thins(e) && !Reserves(codec, w, e)
    ensures Elsewhere(w.hub.store.passes, HubAfter(c, codec, w, e).store.passes, d)
  {
  }

  lemma ReservedElsewhere(c: R.Crypto, codec: Codec, w: World, e: Event, d: DeviceId)
    requires Can(codec, w, e) && !ChangesPasses(codec, w, e, d) && Reserves(codec, w, e)
    ensures SamePasses(w.hub.store.passes, HubAfter(c, codec, w, e).store.passes, d, w.clock)
  {
    assert HubAfter(c, codec, w, e).store.passes == w.hub.store.passes + [ReservationOf(w, e.k, e.id, e.psk).pass];
  }

  lemma ThinningKeeps(c: R.Crypto, codec: Codec, w: World, e: Event, d: DeviceId)
    requires Can(codec, w, e) && Thins(e) && !SwitchesOff(e, d)
    ensures SamePasses(w.hub.store.passes, HubAfter(c, codec, w, e).store.passes, d, w.clock)
  {
  }

  lemma PassesMove(c: R.Crypto, codec: Codec, w: World, e: Event, d: DeviceId)
    requires Known(w) && Can(codec, w, e) && !ChangesPasses(codec, w, e, d) && Spares(w, e, d)
    ensures SamePasses(w.hub.store.passes, HubAfter(c, codec, w, e).store.passes, d, w.clock)
  {
    hide HubAfter, OpKnown, Elsewhere, Reserves;
    var ps, ps' := w.hub.store.passes, HubAfter(c, codec, w, e).store.passes;
    if e.IssueEnd? {
      assert OpKnown(w, e.k);
      if e.k.device == d {
        RollbackIdle(c, codec, w, e.k);
      } else {
        RollbackElsewhere(c, codec, w, e.k, d);
        ElsewhereKeeps(ps, ps', d, w.clock);
      }
    } else if Thins(e) {
      ThinningKeeps(c, codec, w, e, d);
    } else if Reserves(codec, w, e) {
      ReservedElsewhere(c, codec, w, e, d);
    } else {
      OthersElsewhere(c, codec, w, e, d);
      ElsewhereKeeps(ps, ps', d, w.clock);
    }
  }

  lemma PruneNames(s: Store, now: nat, d: DeviceId)
    requires PruneStore(s, now).Version(d) == s.Version(d)
    ensures OfDevice(PruneStore(s, now).passes, d) == OfDevice(s.passes, d)
  {
    forall p | p in s.passes && p.device == d ensures Keep(p, now) {
      assert !Keep(p, now) ==> p in Dead(s.passes, now);
    }
    FilterFilter(s.passes, (p: Pass) => Keep(p, now), (p: Pass) => p.device == d);
  }

  /** The remaining steps change passes in place, and only those of a device whose version they move. */
  lemma InPlace(c: R.Crypto, codec: Codec, w: World, e: Event, d: DeviceId)
    requires Can(codec, w, e) && HubAfter(c, codec, w, e).store.Version(d) == w.hub.store.Version(d)
    requires !e.SweepList? && !e.ShutDown? && !e.OwnerChange? && !e.IssueEnd? && !Reserves(codec, w, e)
    ensures Elsewhere(w.hub.store.passes, HubAfter(c, codec, w, e).store.passes, d)
  {
    hide OpAfter, OpsAfter, DeviceAfter, ChangesAfter, DrawnAfter, OwnersAfter;
  }

  /** A version names a pass list: while it stands, so do the device's passes, rollbacks apart. */
  lemma VersionNamesPasses(c: R.Crypto, codec: Codec, w: World, e: Event, d: DeviceId)
    requires Can(codec, w, e) && !e.IssueEnd?
    requires HubAfter(c, codec, w, e).store.Version(d) == w.hub.store.Version(d)
    ensures OfDevice(HubAfter(c, codec, w, e).store.passes, d) == OfDevice(w.hub.store.passes, d)
  {
    var ps := w.hub.store.passes;
    if e.SweepList? {
      PruneNames(w.hub.store, w.clock, d);
    } else if e.ShutDown? || e.OwnerChange? {
      FilterFilter(ps, (p: Pass) => p.device != e.device, (p: Pass) => p.device == d);
    } else if Reserves(codec, w, e) {
      FilterAppend(ps, ReservationOf(w, e.k, e.id, e.psk).pass, (p: Pass) => p.device == d);
    } else {
      InPlace(c, codec, w, e, d);
      ElsewhereNames(ps, HubAfter(c, codec, w, e).store.passes, d);
    }
  }

  /** Rollbacks included, where they spare the device. */
  lemma VersionKeepsPasses(c: R.Crypto, codec: Codec, w: World, e: Event, d: DeviceId)
    requires Known(w) && Can(codec, w, e) && Spares(w, e, d)
    requires HubAfter(c, codec, w, e).store.Version(d) == w.hub.store.Version(d)
    ensures OfDevice(HubAfter(c, codec, w, e).store.passes, d) == OfDevice(w.hub.store.passes, d)
  {
    if e.IssueEnd? {
      assert OpKnown(w, e.k);
      if e.k.device == d {
        RollbackIdle(c, codec, w, e.k);
      } else {
        RollbackElsewhere(c, codec, w, e.k, d);
        ElsewhereNames(w.hub.store.passes, HubAfter(c, codec, w, e).store.passes, d);
      }
    } else {
      VersionNamesPasses(c, codec, w, e, d);
    }
  }

  lemma VersionKeepsMost(c: R.Crypto, codec: Codec, w: World, e: Event, d: DeviceId)
    requires Can(codec, w, e) && HubAfter(c, codec, w, e).store.Version(d) == w.hub.store.Version(d)
    ensures SomeRevoked(OfDevice(w.hub.store.passes, d), OfDevice(HubAfter(c, codec, w, e).store.passes, d))
  {
    if e.IssueEnd? {
      RollbackRevokes(c, codec, w, e.k, d);
    } else {
      VersionNamesPasses(c, codec, w, e, d);
    }
  }

  // ---- the invariant over a step -----------------------------------------------------------------------

  lemma CountsStep(c: R.Crypto, codec: Codec, w: World, e: Event, w': World, k: OpKey)
    requires Known(w) && Step(c, codec, w, e, w') && k in w'.ops
    ensures Counts(w', k)
  {
    if Seen(w'.ops[k]) {
      SeenMoves(c, codec, w, e, w', k);
      if Held(w, k) {
        assert OpKnown(w, k);
        CountsMove(c, codec, w, e, w', k.device);
      }
    }
  }

  lemma PushedStep(c: R.Crypto, codec: Codec, w: World, e: Event, w': World, k: OpKey)
    requires Known(w) && Step(c, codec, w, e, w') && k in w'.ops
    ensures Pushed(w'.ops[k])
  {
    if Subject(e) == Some(k) {
      assert OpKnown(w, k);
      PushedAfter(c, codec, w, e);
    } else {
      BystanderMoves(c, codec, w, e, w', k);
      if k in w.ops {
        assert OpKnown(w, k);
      }
    }
  }

  lemma PushedAfter(c: R.Crypto, codec: Codec, w: World, e: Event)
    requires Can(codec, w, e) && Subject(e).Some? && OpAfter(c, codec, w, e).Some?
    requires Pushed(w.ops[Subject(e).value])
    ensures Pushed(OpAfter(c, codec, w, e).value)
  {
  }

  lemma KnownOf(w: World, k: OpKey)
    requires Known(w) && k in w.ops
    ensures OpKnown(w, k)
  {
  }

  /** A snapshot's version that is still, or again, the store's was so before the step. */
  lemma VersionStands(w: World, w': World, k: OpKey)
    requires k in w.ops && Counts(w, k) && Seen(w.ops[k]) && w.ops[k].version == w'.hub.store.Version(k.device)
    requires w'.hub.store.Version(k.device) >= w.hub.store.Version(k.device)
    ensures w.ops[k].version == w.hub.store.Version(k.device)
  {
  }

  lemma SnappedStep(c: R.Crypto, codec: Codec, w: World, e: Event, w': World, k: OpKey)
    requires Known(w) && Step(c, codec, w, e, w') && k in w'.ops
    ensures Snapped(w', k)
  {
    hide Known, HubAfter, OpAfter, OpsAfter, DeviceAfter, ChangesAfter, DrawnAfter, OwnersAfter, Counts, OwnPass,
      Pushed, PhaseFits;
    if Seen(w'.ops[k]) {
      SeenMoves(c, codec, w, e, w', k);
      if Held(w, k) && w'.ops[k].version == w'.hub.store.Version(k.device) {
        KnownOf(w, k);
        CountsMove(c, codec, w, e, w', k.device);
        VersionStands(w, w', k);
        VersionKeepsMost(c, codec, w, e, k.device);
      }
    }
  }

  lemma OwnPassStep(c: R.Crypto, codec: Codec, w: World, e: Event, w': World, k: OpKey)
    requires Known(w) && Step(c, codec, w, e, w') && k in w'.ops
    ensures OwnPass(w', k)
  {
    if Seen(w'.ops[k]) && w'.ops[k].kind.Issuing? {
      SeenMoves(c, codec, w, e, w', k);
      if Held(w, k) {
        assert OpKnown(w, k);
        EpochStep(c, codec, w, e, w', k.device);
        var id := w'.ops[k].pass.value.id;
        forall q | q in w'.hub.store.passes && q.id == id
          ensures q.device == k.device && (!Current(w', k) ==> q.revokedAt.Some?)
        {
          OwnPassKept(c, codec, w, e, w', k, q);
        }
      } else {
        FreshOwnPass(c, codec, w, e, w', k);
      }
    }
  }

  lemma OwnPassKept(c: R.Crypto, codec: Codec, w: World, e: Event, w': World, k: OpKey, q: Pass)
    requires Ledger(w) && Step(c, codec, w, e, w') && k in w.ops && k in w'.ops && Seen(w.ops[k]) && w.ops[k].kind.Issuing?
    requires OwnPass(w, k) && w.ops[k].epoch <= w.hub.store.Epoch(k.device) && SameSnapshot(w.ops[k], w'.ops[k])
    requires w'.hub.store.Epoch(k.device) == w.hub.store.Epoch(k.device) + if SwitchesOff(e, k.device) then 1 else 0
    requires q in w'.hub.store.passes && q.id == w'.ops[k].pass.value.id
    ensures q.device == k.device && (!Current(w', k) ==> q.revokedAt.Some?)
  {
    if Reserves(codec, w, e) {
      assert w'.hub.store.passes == w.hub.store.passes + [ReservationOf(w, e.k, e.id, e.psk).pass];
      assert q in w.hub.store.passes;
    } else {
      HubThins(c, codec, w, e);
      ThinnedMember(w.hub.store.passes, w'.hub.store.passes, q);
      var p :| p in w.hub.store.passes && (q == p || RevokedFrom(p, q));
      if SwitchesOff(e, k.device) {
        SwitchedOffLeavesNone(c, codec, w, e, k.device, q);
      }
    }
  }

  /** After a shutdown every pass of the device that is left is revoked. */
  lemma SwitchedOffLeavesNone(c: R.Crypto, codec: Codec, w: World, e: Event, d: DeviceId, q: Pass)
    requires Can(codec, w, e) && SwitchesOff(e, d) && q in HubAfter(c, codec, w, e).store.passes && q.device == d
    ensures q.revokedAt.Some?
  {
    if e.DisableEnd? {
      var ps := RevokeAll(w.hub.store.passes, d, w.clock);
      var i :| 0 <= i < |ps| && ps[i] == q;
    }
  }

  lemma FreshOwnPass(c: R.Crypto, codec: Codec, w: World, e: Event, w': World, k: OpKey)
    requires Known(w) && Step(c, codec, w, e, w') && k in w'.ops && FreshSnapshot(w', k) && !Held(w, k) && w'.ops[k].kind.Issuing?
    ensures OwnPass(w', k)
  {
    hide Known, HubAfter, OpAfter, DeviceAfter, ChangesAfter, DrawnAfter, OwnersAfter;
    if Subject(e) == Some(k) {
      OpAfterKeeps(c, codec, w, e);
      FreshReservation(c, codec, w, e, w', k);
    } else {
      KnownParts(w);
      OthersMove(c, codec, w, e, w', k);
    }
  }

  lemma KnownParts(w: World)
    requires Known(w)
    ensures Ledger(w) && Numbered(w)
  {
  }

  lemma FreshReservation(c: R.Crypto, codec: Codec, w: World, e: Event, w': World, k: OpKey)
    requires Known(w) && Step(c, codec, w, e, w') && Subject(e) == Some(k) && k in w'.ops && e.IssueSnapshot? && Seen(w'.ops[k])
    ensures OwnPass(w', k)
  {
    hide DeviceAfter, ChangesAfter, OwnersAfter, OpKnown;
    assert Reserves(codec, w, e);
    assert w'.hub.store.passes == w.hub.store.passes + [ReservationOf(w, k, e.id, e.psk).pass];
  }

  lemma KnownStep(c: R.Crypto, codec: Codec, w: World, e: Event, w': World)
    requires Known(w) && Ledger(w') && Step(c, codec, w, e, w')
    ensures Known(w')
  {
    hide Step, Ledger, Pushed, Counts, OwnPass, Snapped, PhaseFits;
    NumberedStep(c, codec, w, e, w');
    FitStep(c, codec, w, e, w');
    forall k | k in w'.ops ensures OpKnown(w', k) {
      PushedStep(c, codec, w, e, w', k);
      CountsStep(c, codec, w, e, w', k);
      OwnPassStep(c, codec, w, e, w', k);
      SnappedStep(c, codec, w, e, w', k);
    }
  }

  lemma FitStep(c: R.Crypto, codec: Codec, w: World, e: Event, w': World)
    requires Known(w) && Step(c, codec, w, e, w')
    ensures forall k | k in w'.ops :: PhaseFits(w'.ops[k])
  {
    hide Step;
    forall k | k in w.ops ensures PhaseFits(w.ops[k]) {
      assert OpKnown(w, k);
    }
    PhasesStep(c, codec, w, e, w');
  }

  lemma {:induction false} KnownHolds(c: R.Crypto, codec: Codec, ws: seq<World>, es: seq<Event>, n: nat)
    requires IsRun(c, codec, ws, es) && n <= |es|
    ensures Known(ws[n])
  {
    hide Step, Ledger, OpKnown;
    LedgerHolds(c, codec, ws, es, n);
    if n > 0 {
      KnownHolds(c, codec, ws, es, n - 1);
      KnownStep(c, codec, ws[n - 1], es[n - 1], ws[n]);
    }
  }

  // ---- the results ---------------------------------------------------------------------------------------

  /**
   In every run, whatever overlaps: a retry mark is cleared only by the end of an enable or sweep
   of that device whose push reached it, with no shutdown and no pass change since its snapshot.
   The snapshot's passes of the device are then the store's, but for any that an issue's rollback
   has revoked since (RollbackChangesExactly says when one does).
   */
  lemma ClearingIsFounded(c: R.Crypto, codec: Codec, ws: seq<World>, es: seq<Event>, n: nat, d: DeviceId)
    requires IsRun(c, codec, ws, es) && n < |es|
    requires Dirty(ws[n], d) && On(ws[n + 1], d) && !Dirty(ws[n + 1], d)
    ensures (es[n].EnableEnd? || es[n].SweepEnd?) && es[n].k.device == d && es[n].k in ws[n].ops
    ensures var w, o := ws[n], ws[n].ops[es[n].k];
            && o.reached && o.epoch == w.hub.store.Epoch(d) && o.version == w.hub.store.Version(d) && o.changes == w.Changes(d)
            && SomeRevoked(OfDevice(o.passes, d), OfDevice(w.hub.store.passes, d))
  {
    KnownHolds(c, codec, ws, es, n);
    assert Step(c, codec, ws[n], es[n], ws[n + 1]);
    ClearedBy(c, codec, ws[n], es[n], ws[n + 1], d);
  }

  lemma ClearedBy(c: R.Crypto, codec: Codec, w: World, e: Event, w': World, d: DeviceId)
    requires Known(w) && Step(c, codec, w, e, w') && Dirty(w, d) && On(w', d) && !Dirty(w', d)
    ensures (e.EnableEnd? || e.SweepEnd?) && e.k.device == d && e.k in w.ops
    ensures var o := w.ops[e.k];
            && o.reached && o.epoch == w.hub.store.Epoch(d) && o.version == w.hub.store.Version(d) && o.changes == w.Changes(d)
            && SomeRevoked(OfDevice(o.passes, d), OfDevice(w.hub.store.passes, d))
  {
    assert !e.Restart?;
    EntryMoves(c, codec, w, e, w', d);
    assert OpKnown(w, e.k);
  }

  /**
   Exactly when an issue's rollback changes a pass, in any run: the exit was not shut down since
   the snapshot, yet the owner is no longer the one read before it, and the pass is still unrevoked.
   It then revokes a pass without moving the version that names the pass list.
   */
  lemma RollbackChangesExactly(c: R.Crypto, codec: Codec, ws: seq<World>, es: seq<Event>, n: nat)
    requires IsRun(c, codec, ws, es) && n < |es| && es[n].IssueEnd?
    ensures var w, k, d := ws[n], es[n].k, es[n].k.device;
            && k in w.ops && w.ops[k].pass.Some? && w.ops[k].phase.OwnerCompared?
            && (ws[n + 1].hub.store.passes != w.hub.store.passes <==>
                  Current(w, k) && !w.ops[k].phase.kept
                  && exists q :: q in w.hub.store.passes && q.id == w.ops[k].pass.value.id && q.revokedAt.None?)
            && ws[n + 1].hub.store.Version(d) == w.hub.store.Version(d)
  {
    KnownHolds(c, codec, ws, es, n);
    assert Step(c, codec, ws[n], es[n], ws[n + 1]);
    var w, k := ws[n], es[n].k;
    var ps := w.hub.store.passes;
    assert OpKnown(w, k);
    var i := FindId(ps, w.ops[k].pass.value.id, None, true);
    assert forall j | 0 <= j < |ps| :: ps[j] in ps;
    if i < |ps| && Current(w, k) && !w.ops[k].phase.kept {
      assert ws[n + 1].hub.store.passes[i] != ps[i];
    }
  }
}

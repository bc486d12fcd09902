/**
 A lost revoke cannot hide (vpn.rs). Over every run that is orderly for a device (below), whatever
 happens to other devices: while it is enabled, not marked for retry and has no operation in
 flight, it holds exactly the peers its store says, every live pass its owner issued and none
 that was revoked.
 */
module ExitAgreement {
  import opened Bytes
  import opened PassBook
  import opened ExitStore
  import opened ExitProtocol
  import opened ExitShutdown
  import opened ExitSteps
  import opened PassLedger
  import R = RelayTable

  // ---- orderly steps ---------------------------------------------------------------------------

  /**
   What the agreement on device `d` asks of a run; other devices may do as they like. A push
   reaches `d` only if no other push that reached it has a window (snapshot to end) overlapping
   its own; an owner of `d` read before a snapshot is still the owner at the snapshot; and the hub
   is not restarted with operations on `d` in flight. Pushes that reach nothing may land anywhere.
   */
  ghost predicate Orderly(w: World, e: Event, d: DeviceId) {
    match e
    case EnableSnapshot(k, _) => OwnerStands(w, k, d)
    case IssueSnapshot(k, _, _) => OwnerStands(w, k, d)
    case RevokeSnapshot(k) => OwnerStands(w, k, d)
    case Deliver(k, _) => Alone(w, k, d)
    case DisableReach(k) => Alone(w, k, d)
    case Restart => forall k | k in w.ops :: k.device != d
    case _ => true
  }

  predicate OwnerStands(w: World, k: OpKey, d: DeviceId) {
    k in w.ops && k.device == d ==> w.ops[k].owner == w.OwnerOf(d)
  }

  ghost predicate Alone(w: World, k: OpKey, d: DeviceId) {
    k in w.ops && k.device == d ==>
      !w.ops[k].crossed && forall j | j in w.ops && j != k && j.device == d :: !w.ops[j].reached
  }

  ghost predicate OrderlyRun(c: R.Crypto, codec: Codec, ws: seq<World>, es: seq<Event>, d: DeviceId) {
    IsRun(c, codec, ws, es) && forall i | 0 <= i < |es| :: Orderly(ws[i], es[i], d)
  }

  // ---- what a device holds -----------------------------------------------------------------------

  ghost predicate Complete(w: World, d: DeviceId, peers: seq<Peer>) {
    forall p | p in w.hub.store.passes && p.device == d && Live(p, w.clock) && Owned(p, w.OwnerOf(d)) :: PeerOf(p) in peers
  }

  ghost predicate Sound(w: World, d: DeviceId, peers: seq<Peer>) {
    (forall p | p in w.hub.store.passes && p.device == d && p.revokedAt.Some? :: PeerOf(p) !in peers)
    && (forall x | x in peers && x.expiresAt > w.clock :: Backed(w, d, x))
  }

  ghost predicate Backed(w: World, d: DeviceId, x: Peer) {
    exists p :: p in w.hub.store.passes && p.device == d && Live(p, w.clock) && Owned(p, w.OwnerOf(d)) && PeerOf(p) == x
  }

  /** The device's config is the store's: same HELLO secret, every live owned pass, no revoked one, nothing else unexpired. */
  ghost predicate InSync(w: World, d: DeviceId) {
    On(w, d) && d in w.device
    && w.device[d].secret == w.hub.store.devices[d].secret
    && Complete(w, d, w.device[d].peers) && Sound(w, d, w.device[d].peers)
  }

  // ---- the invariant, operation by operation ------------------------------------------------------

  ghost predicate Faithful(w: World, k: OpKey)
    requires k in w.ops
  {
    var o, d := w.ops[k], k.device;
    Seen(o) ==>
      UniqueDraws(o.passes)
      && (o.changes == w.Changes(d) ==> SamePasses(o.passes, w.hub.store.passes, d, w.clock))
      && (o.version == w.hub.store.Version(d) ==> OfDevice(o.passes, d) == OfDevice(w.hub.store.passes, d))
  }

  /** Where the exit stands, as seen by an uncrossed operation. */
  predicate Standing(w: World, k: OpKey)
    requires k in w.ops
  {
    var o, d := w.ops[k], k.device;
    Seen(o) ==>
      && (!o.crossed && !Current(w, k) ==> !On(w, d))
      && (Current(w, k) && !o.kind.Enabling? ==> On(w, d))
      && (o.kind.Sweeping? && !o.crossed && Current(w, k) ==> Dirty(w, d))
      && (!o.crossed && Current(w, k) && On(w, d) ==> o.cfg.secret == w.hub.store.devices[d].secret)
  }

  /** Of an operation's phase, against the device's present epoch and owner. */
  predicate Behaves(o: Op, epoch: nat, owner: Option<string>) {
    && (o.kind.Disabling? ==> o.phase.Started?)
    && (Seen(o) && o.epoch == epoch && !o.phase.Listed? && !o.phase.Rechecked? ==> o.owner == owner)
    && (o.phase.TakingBack? || o.phase.TellingOff? ==> o.reached && o.epoch != epoch)
    && (o.phase.OwnerCompared? && o.epoch == epoch ==> o.phase.kept)
    && (o.reached ==> !o.crossed && (Seen(o) || o.kind.Disabling?))
    && (o.phase.Listed? || o.phase.Rechecked? ==> !o.reached)
  }

  predicate Behaved(w: World, k: OpKey)
    requires k in w.ops
  {
    Behaves(w.ops[k], w.hub.store.Epoch(k.device), w.OwnerOf(k.device))
  }

  /** What a push that reached the device left there. */
  ghost predicate Applied(w: World, k: OpKey)
    requires k in w.ops
  {
    var o, d := w.ops[k], k.device;
    o.reached && !o.kind.Disabling? ==>
      d in w.device && w.device[d].secret == o.cfg.secret
      && exists t: nat :: t <= w.clock && w.device[d].peers == Peers(o.passes, d, t, o.owner)
  }

  /** An issue or revoke under way, which will bring the device its change or mark it for retry. */
  predicate Excuse(w: World, k: OpKey, d: DeviceId) {
    k in w.ops && k.device == d && Seen(w.ops[k]) && (w.ops[k].kind.Issuing? || w.ops[k].kind.Revoking?)
    && w.ops[k].epoch == w.hub.store.Epoch(d)
  }

  /** A pass change since an uncrossed snapshot is either still under way or has left its mark. */
  ghost predicate Explained(w: World, k: OpKey)
    requires k in w.ops
  {
    var o, d := w.ops[k], k.device;
    Seen(o) && !o.crossed && Current(w, k) && o.changes != w.Changes(d) && On(w, d) ==>
      Dirty(w, d) || exists j :: j != k && Excuse(w, j, d)
  }

  ghost predicate OnePush(w: World, d: DeviceId) {
    forall j, k | j in w.ops && k in w.ops && j.device == d && k.device == d && w.ops[j].reached && w.ops[k].reached :: j == k
  }

  ghost predicate Quiet(w: World, d: DeviceId) {
    forall k | k in w.ops && k.device == d :: !w.ops[k].reached && !Excuse(w, k, d)
  }

  ghost predicate Settled(w: World, d: DeviceId) {
    On(w, d) && !Dirty(w, d) && Quiet(w, d) ==> InSync(w, d)
  }

  ghost predicate OpInv(w: World, k: OpKey)
    requires k in w.ops
  {
    Faithful(w, k) && Standing(w, k) && Behaved(w, k) && Applied(w, k) && Explained(w, k)
  }

  /** What is known in every run, and of the operations on `d`, more. */
  ghost predicate Inv(w: World, d: DeviceId) {
    Known(w) && OnePush(w, d)
    && (forall k | k in w.ops && k.device == d :: OpInv(w, k))
    && Settled(w, d)
  }

  lemma Knows(w: World, d: DeviceId, k: OpKey)
    requires Inv(w, d) && k in w.ops && k.device == d
    ensures Known(w) && OnePush(w, d) && OpKnown(w, k) && OpInv(w, k)
  {
  }

  /** So a rollback has nothing of the device to revoke. */
  lemma InvSpares(codec: Codec, w: World, e: Event, d: DeviceId)
    requires Inv(w, d) && Can(codec, w, e)
    ensures Spares(w, e, d)
  {
    if e.IssueEnd? && e.k.device == d {
      Knows(w, d, e.k);
    }
  }

  /** A step that may clear the flag or replace the entry ends an operation that reached the device. */
  lemma EntryMovesCross(c: R.Crypto, codec: Codec, w: World, e: Event, w': World, d: DeviceId)
    requires Inv(w, d) && Step(c, codec, w, e, w') && !e.Restart?
    requires (On(w', d) && !On(w, d)) || (Dirty(w, d) && On(w', d) && !Dirty(w', d))
             || (On(w, d) && On(w', d) && w'.hub.store.devices[d].secret != w.hub.store.devices[d].secret)
    ensures Crosses(c, codec, w, e, d) && (e.EnableEnd? || e.SweepEnd?) && e.k.device == d && Current(w, e.k)
  {
    EntryMoves(c, codec, w, e, w', d);
    Knows(w, d, e.k);
  }

  // ---- each invariant over a step ---------------------------------------------------------------------

  lemma OnePushStep(c: R.Crypto, codec: Codec, w: World, e: Event, w': World, d: DeviceId)
    requires Inv(w, d) && Orderly(w, e, d) && Step(c, codec, w, e, w')
    ensures OnePush(w', d)
  {
    hide Inv, Step, Orderly;
    forall j, k | j in w'.ops && k in w'.ops && j.device == d && k.device == d && w'.ops[j].reached && w'.ops[k].reached
      ensures j == k
    {
      ReachedMoves(c, codec, w, e, w', j);
      ReachedMoves(c, codec, w, e, w', k);
      OneReached(codec, w, e, d, j, k);
    }
  }

  predicate Reaching(w: World, e: Event, k: OpKey) {
    k in w.ops && (w.ops[k].reached || (Subject(e) == Some(k) && (e.Deliver? || e.DisableReach?)))
  }

  lemma OneReached(codec: Codec, w: World, e: Event, d: DeviceId, j: OpKey, k: OpKey)
    requires Inv(w, d) && Orderly(w, e, d) && Reaching(w, e, j) && Reaching(w, e, k) && j.device == d && k.device == d
    ensures j == k
  {
    Knows(w, d, k);
  }

  lemma ReachedMoves(c: R.Crypto, codec: Codec, w: World, e: Event, w': World, k: OpKey)
    requires Inv(w, k.device) && Step(c, codec, w, e, w') && k in w'.ops && w'.ops[k].reached
    ensures Reaching(w, e, k)
  {
    hide Inv;
    if Subject(e) == Some(k) {
      Knows(w, k.device, k);
      SubjectMoves(c, codec, w, e, w', k);
    } else {
      InvKnown(w, k.device);
      OthersMove(c, codec, w, e, w', k);
    }
  }

  lemma FaithfulStep(c: R.Crypto, codec: Codec, w: World, e: Event, w': World, k: OpKey)
    requires Inv(w, k.device) && Ledger(w') && Step(c, codec, w, e, w') && k in w'.ops
    ensures Faithful(w', k)
  {
    hide Inv, Known, Ledger, HubAfter, OpAfter, OpsAfter, DeviceAfter, ChangesAfter, DrawnAfter, OwnersAfter;
    var d := k.device;
    if Seen(w'.ops[k]) {
      InvKnown(w, d);
      SeenMoves(c, codec, w, e, w', k);
      if Held(w, k) {
        Knows(w, d, k);
        CountsMove(c, codec, w, e, w', d);
        InvSpares(codec, w, e, d);
        if w'.ops[k].version == w'.hub.store.Version(d) {
          VersionKeepsPasses(c, codec, w, e, d);
        }
        if w'.ops[k].changes == w'.Changes(d) {
          PassesMove(c, codec, w, e, d);
        }
      } else {
        LedgerUnique(w');
      }
    }
  }

  lemma LedgerUnique(w: World)
    requires Ledger(w)
    ensures UniqueDraws(w.hub.store.passes)
  {
  }

  lemma StandingStep(c: R.Crypto, codec: Codec, w: World, e: Event, w': World, k: OpKey)
    requires Inv(w, k.device) && Step(c, codec, w, e, w') && k in w'.ops
    ensures Standing(w', k)
  {
    hide Inv, Known, HubAfter, OpAfter, OpsAfter, DeviceAfter, ChangesAfter, DrawnAfter, OwnersAfter;
    if Seen(w'.ops[k]) {
      InvKnown(w, k.device);
      SeenMoves(c, codec, w, e, w', k);
      if Held(w, k) {
        HeldStanding(c, codec, w, e, w', k);
      } else {
        FreshStanding(c, codec, w, e, w', k);
      }
    }
  }

  lemma HeldStanding(c: R.Crypto, codec: Codec, w: World, e: Event, w': World, k: OpKey)
    requires Inv(w, k.device) && Step(c, codec, w, e, w') && k in w'.ops && Held(w, k) && !e.Restart?
    requires SameSnapshot(w.ops[k], w'.ops[k])
    requires w'.ops[k].crossed <==> w.ops[k].crossed || (Subject(e) != Some(k) && Crosses(c, codec, w, e, k.device))
    ensures Standing(w', k)
  {
    hide Inv, Known, HubAfter, OpAfter, OpsAfter, DeviceAfter, ChangesAfter, DrawnAfter, OwnersAfter;
    var d := k.device;
    Knows(w, d, k);
    CountsMove(c, codec, w, e, w', d);
    EntryMoves(c, codec, w, e, w', d);
    if (On(w', d) && !On(w, d)) || (Dirty(w, d) && On(w', d) && !Dirty(w', d))
       || (On(w, d) && On(w', d) && w'.hub.store.devices[d].secret != w.hub.store.devices[d].secret) {
      EntryMovesCross(c, codec, w, e, w', d);
      if Subject(e) == Some(k) { SubjectStays(c, codec, w, e, w', k); }
    }
  }

  lemma FreshStanding(c: R.Crypto, codec: Codec, w: World, e: Event, w': World, k: OpKey)
    requires Known(w) && Step(c, codec, w, e, w') && k in w'.ops && FreshSnapshot(w', k) && !Held(w, k)
    ensures Standing(w', k)
  {
    if Subject(e) == Some(k) {
      assert OpKnown(w, k);
      SubjectMoves(c, codec, w, e, w', k);
      FreshSubjectStanding(c, codec, w, e, w', k);
    } else {
      OthersMove(c, codec, w, e, w', k);
    }
  }

  lemma FreshSubjectStanding(c: R.Crypto, codec: Codec, w: World, e: Event, w': World, k: OpKey)
    requires Step(c, codec, w, e, w') && Subject(e) == Some(k) && k in w'.ops && PhaseFits(w.ops[k])
    requires e.EnableSnapshot? || e.IssueSnapshot? || e.RevokeSnapshot?
    requires FreshSnapshot(w', k)
    ensures Standing(w', k)
  {
  }

  lemma BehavedStep(c: R.Crypto, codec: Codec, w: World, e: Event, w': World, k: OpKey)
    requires Inv(w, k.device) && Orderly(w, e, k.device) && Step(c, codec, w, e, w') && k in w'.ops
    ensures Behaved(w', k)
  {
    hide Inv, Known, Orderly, HubAfter, OpAfter, DeviceAfter, ChangesAfter, DrawnAfter, OwnersAfter, Behaves, OpKnown,
      OpInv;
    InvKnown(w, k.device);
    if Subject(e) == Some(k) {
      SubjectBehaved(c, codec, w, e, w', k);
    } else {
      OthersMove(c, codec, w, e, w', k);
      if k in w.ops {
        OtherBehaved(c, codec, w, e, w', k);
      } else {
        NewBehaves(w'.ops[k], w'.hub.store.Epoch(k.device), w'.OwnerOf(k.device));
      }
    }
  }

  lemma SubjectBehaved(c: R.Crypto, codec: Codec, w: World, e: Event, w': World, k: OpKey)
    requires Inv(w, k.device) && Orderly(w, e, k.device) && Step(c, codec, w, e, w') && Subject(e) == Some(k) && k in w'.ops
    ensures Behaved(w', k)
  {
    hide Inv, Known, Orderly, OpAfter, HubAfter, DeviceAfter, ChangesAfter, DrawnAfter, OwnersAfter, Behaves,
      Faithful, Standing, Applied, Explained, Counts, OwnPass, Snapped, Pushed;
    Knows(w, k.device, k);
    EpochStep(c, codec, w, e, w', k.device);
    OwnerMoves(c, codec, w, e, w', k.device);
    SubjectBehaves(c, codec, w, e, k);
    assert OpAfter(c, codec, w, e).Some? && w'.ops[k] == OpAfter(c, codec, w, e).value;
  }

  predicate Snapshots(e: Event) {
    e.EnableSnapshot? || e.IssueSnapshot? || e.RevokeSnapshot?
  }

  lemma SubjectBehaves(c: R.Crypto, codec: Codec, w: World, e: Event, k: OpKey)
    requires Orderly(w, e, k.device) && Can(codec, w, e) && Subject(e) == Some(k) && OpAfter(c, codec, w, e).Some?
    requires Behaved(w, k) && PhaseFits(w.ops[k]) && Pushed(w.ops[k])
    ensures !SwitchesOff(e, k.device)
    ensures Behaves(OpAfter(c, codec, w, e).value, w.hub.store.Epoch(k.device), w.OwnerOf(k.device))
  {
    hide Orderly, OpAfter, Behaves;
    if Snapshots(e) {
      SnapshotBehaves(c, codec, w, e, k);
    } else if e.Deliver? || e.DisableReach? {
      ReachBehaves(c, codec, w, e, k);
    } else {
      PhaseBehaves(c, codec, w, e, k);
    }
    StaysOn(c, codec, w, e, k);
  }

  lemma StaysOn(c: R.Crypto, codec: Codec, w: World, e: Event, k: OpKey)
    requires Can(codec, w, e) && Subject(e) == Some(k) && OpAfter(c, codec, w, e).Some?
    ensures !SwitchesOff(e, k.device)
  {
  }

  lemma SnapshotBehaves(c: R.Crypto, codec: Codec, w: World, e: Event, k: OpKey)
    requires Orderly(w, e, k.device) && Can(codec, w, e) && Subject(e) == Some(k) && OpAfter(c, codec, w, e).Some? && Snapshots(e)
    ensures Behaves(OpAfter(c, codec, w, e).value, w.hub.store.Epoch(k.device), w.OwnerOf(k.device))
  {
  }

  lemma ReachBehaves(c: R.Crypto, codec: Codec, w: World, e: Event, k: OpKey)
    requires Orderly(w, e, k.device) && Can(codec, w, e) && Subject(e) == Some(k) && (e.Deliver? || e.DisableReach?)
    requires Behaved(w, k)
    ensures Behaves(OpAfter(c, codec, w, e).value, w.hub.store.Epoch(k.device), w.OwnerOf(k.device))
  {
  }

  lemma PhaseBehaves(c: R.Crypto, codec: Codec, w: World, e: Event, k: OpKey)
    requires Can(codec, w, e) && Subject(e) == Some(k) && OpAfter(c, codec, w, e).Some?
    requires !Snapshots(e) && !e.Deliver? && !e.DisableReach?
    requires Behaved(w, k) && PhaseFits(w.ops[k]) && Pushed(w.ops[k])
    ensures Behaves(OpAfter(c, codec, w, e).value, w.hub.store.Epoch(k.device), w.OwnerOf(k.device))
  {
  }

  lemma NewBehaves(o: Op, epoch: nat, owner: Option<string>)
    requires !o.reached && !o.crossed && (!Seen(o) || (o.phase.Listed? && !o.kind.Disabling?))
    ensures Behaves(o, epoch, owner)
  {
  }

  /** Two pushes never reach one device at a time, so a crossing spares those that reached it. */
  lemma CrossedUnreached(c: R.Crypto, codec: Codec, w: World, e: Event, k: OpKey)
    requires OnePush(w, k.device) && Can(codec, w, e) && k in w.ops && Subject(e) != Some(k) && Crosses(c, codec, w, e, k.device)
    ensures !w.ops[k].reached
  {
  }

  lemma OtherBehaved(c: R.Crypto, codec: Codec, w: World, e: Event, w': World, k: OpKey)
    requires Inv(w, k.device) && Step(c, codec, w, e, w') && k in w.ops && k in w'.ops && Subject(e) != Some(k)
    requires w'.ops[k] == (if Crosses(c, codec, w, e, k.device) then w.ops[k].(crossed := true) else w.ops[k])
    ensures Behaved(w', k)
  {
    hide Inv, Known, HubAfter, OpAfter, OpsAfter, DeviceAfter, ChangesAfter, DrawnAfter, OwnersAfter, Faithful,
      Standing, Applied, Explained, OwnPass, Snapped, Pushed;
    Knows(w, k.device, k);
    SurvivorIsNoRestart(c, codec, w, e, w', k);
    EpochStep(c, codec, w, e, w', k.device);
    OwnerMoves(c, codec, w, e, w', k.device);
    if Crosses(c, codec, w, e, k.device) {
      CrossedUnreached(c, codec, w, e, k);
    }
  }

  lemma SurvivorIsNoRestart(c: R.Crypto, codec: Codec, w: World, e: Event, w': World, k: OpKey)
    requires Step(c, codec, w, e, w') && k in w'.ops
    ensures !e.Restart?
  {
    hide HubAfter, OpAfter, DeviceAfter, ChangesAfter, DrawnAfter, OwnersAfter;
  }

  lemma OwnerMoves(c: R.Crypto, codec: Codec, w: World, e: Event, w': World, d: DeviceId)
    requires Step(c, codec, w, e, w')
    ensures SwitchesOff(e, d) || w'.OwnerOf(d) == w.OwnerOf(d)
  {
    hide HubAfter, OpAfter, OpsAfter, DeviceAfter, ChangesAfter, DrawnAfter;
  }

  /** While a push that reached the device is in flight, no other step touches what the device holds. */
  lemma DeviceMoves(c: R.Crypto, codec: Codec, w: World, e: Event, w': World, k: OpKey)
    requires Inv(w, k.device) && Orderly(w, e, k.device) && Step(c, codec, w, e, w') && k in w.ops && w.ops[k].reached
    requires Subject(e) != Some(k)
    ensures k.device in w.device ==> k.device in w'.device && w'.device[k.device] == w.device[k.device]
  {
    hide HubAfter, OpAfter, OpsAfter, ChangesAfter, DrawnAfter, OwnersAfter, Known, Faithful, Standing, Applied,
      Explained, Settled;
    if e.TakeBackDisable? && e.k.device == k.device {
      Knows(w, k.device, e.k);
    }
  }

  lemma AppliedStep(c: R.Crypto, codec: Codec, w: World, e: Event, w': World, k: OpKey)
    requires Inv(w, k.device) && Orderly(w, e, k.device) && Step(c, codec, w, e, w') && k in w'.ops
    ensures Applied(w', k)
  {
    hide Inv, Known, Orderly, HubAfter, OpAfter, OpsAfter, DeviceAfter, ChangesAfter, DrawnAfter;
    if w'.ops[k].reached && !w'.ops[k].kind.Disabling? {
      ReachedMoves(c, codec, w, e, w', k);
      Knows(w, k.device, k);
      if Subject(e) != Some(k) {
        OthersMove(c, codec, w, e, w', k);
        DeviceMoves(c, codec, w, e, w', k);
      } else {
        AppliedSubject(c, codec, w, e, w', k);
      }
    }
  }

  lemma AppliedSubject(c: R.Crypto, codec: Codec, w: World, e: Event, w': World, k: OpKey)
    requires Step(c, codec, w, e, w') && Subject(e) == Some(k) && k in w'.ops && PhaseFits(w.ops[k])
    requires Behaved(w, k) && Applied(w, k) && w'.ops[k].reached && !w'.ops[k].kind.Disabling?
    ensures Applied(w', k)
  {
    hide HubAfter, ChangesAfter, DrawnAfter, OwnersAfter;
    SubjectMoves(c, codec, w, e, w', k);
    if e.Deliver? {
      assert w'.device[k.device].peers == Peers(w'.ops[k].passes, k.device, e.t, w'.ops[k].owner);
    } else {
      assert w'.device == w.device;
      var t: nat :| t <= w.clock && w.device[k.device].peers == Peers(w.ops[k].passes, k.device, t, w.ops[k].owner);
      assert t <= w'.clock && w'.device[k.device].peers == Peers(w'.ops[k].passes, k.device, t, w'.ops[k].owner);
    }
  }

  // ---- pass changes are explained ---------------------------------------------------------------------

  /** An issue or revoke that ends without having reached the device leaves it marked. */
  lemma ExcuseEndsMarked(c: R.Crypto, codec: Codec, w: World, e: Event, w': World, j: OpKey, d: DeviceId)
    requires Step(c, codec, w, e, w') && Subject(e) == Some(j) && OpAfter(c, codec, w, e).None?
    requires Excuse(w, j, d) && On(w, d) && !w.ops[j].reached && Behaved(w, j) && Pushed(w.ops[j]) && PhaseFits(w.ops[j])
    ensures Dirty(w', d)
  {
    hide OpsAfter, DeviceAfter, ChangesAfter, DrawnAfter, OwnersAfter;
  }

  /** A pass change on an enabled device opens an excuse. */
  lemma ChangeOpensExcuse(c: R.Crypto, codec: Codec, w: World, e: Event, w': World, d: DeviceId)
    requires Step(c, codec, w, e, w') && ChangesPasses(codec, w, e, d) && !SwitchesOff(e, d) && On(w, d)
    ensures Subject(e) == Some(e.k) && !Held(w, e.k) && Excuse(w', e.k, d)
  {
  }

  lemma ExcuseStays(c: R.Crypto, codec: Codec, w: World, e: Event, w': World, j: OpKey, d: DeviceId)
    requires Inv(w, d) && Step(c, codec, w, e, w') && Excuse(w, j, d) && j in w'.ops && !SwitchesOff(e, d)
    ensures Excuse(w', j, d)
  {
    hide Inv, Known, HubAfter, OpAfter, OpsAfter, DeviceAfter, ChangesAfter, DrawnAfter, OwnersAfter;
    Knows(w, d, j);
    SurvivorIsNoRestart(c, codec, w, e, w', j);
    EpochStep(c, codec, w, e, w', d);
    if Subject(e) == Some(j) {
      SubjectMoves(c, codec, w, e, w', j);
    } else {
      OthersMove(c, codec, w, e, w', j);
    }
  }

  lemma ExplainedStep(c: R.Crypto, codec: Codec, w: World, e: Event, w': World, k: OpKey)
    requires Inv(w, k.device) && Step(c, codec, w, e, w') && k in w'.ops
    ensures Explained(w', k)
  {
    hide Inv, Known, HubAfter, OpAfter, OpsAfter, DeviceAfter, ChangesAfter, DrawnAfter, OwnersAfter, Crosses;
    var d := k.device;
    if Seen(w'.ops[k]) && !w'.ops[k].crossed && Current(w', k) && w'.ops[k].changes != w'.Changes(d) && On(w', d) && !Dirty(w', d) {
      InvKnown(w, d);
      SeenMoves(c, codec, w, e, w', k);
      Uncrossed(c, codec, w, e, w', k);
      ExcusedStep(c, codec, w, e, w', k);
    }
  }

  lemma Uncrossed(c: R.Crypto, codec: Codec, w: World, e: Event, w': World, k: OpKey)
    requires Known(w) && Step(c, codec, w, e, w') && Held(w, k) && k in w'.ops && !w'.ops[k].crossed
    ensures !w.ops[k].crossed && !Crosses(c, codec, w, e, k.device)
  {
    hide HubAfter, OpsAfter, DeviceAfter, ChangesAfter, DrawnAfter, OwnersAfter;
    assert OpKnown(w, k);
    if Subject(e) == Some(k) {
      SubjectMoves(c, codec, w, e, w', k);
      SubjectStays(c, codec, w, e, w', k);
    } else {
      OthersMove(c, codec, w, e, w', k);
    }
  }

  lemma SubjectStays(c: R.Crypto, codec: Codec, w: World, e: Event, w': World, k: OpKey)
    requires Step(c, codec, w, e, w') && Subject(e) == Some(k) && k in w'.ops
    ensures OpAfter(c, codec, w, e).Some?
  {
    hide HubAfter, OpAfter, DeviceAfter, ChangesAfter, DrawnAfter, OwnersAfter;
  }

  /** The excuse for a change an operation has not seen outlives a step that leaves the device on and unmarked. */
  lemma ExcusedStep(c: R.Crypto, codec: Codec, w: World, e: Event, w': World, k: OpKey)
    requires Inv(w, k.device) && Step(c, codec, w, e, w') && Held(w, k) && k in w'.ops && !e.Restart?
    requires SameSnapshot(w.ops[k], w'.ops[k]) && !w.ops[k].crossed && !Crosses(c, codec, w, e, k.device)
    requires Current(w', k) && w'.ops[k].changes != w'.Changes(k.device) && On(w', k.device) && !Dirty(w', k.device)
    ensures exists j :: j != k && Excuse(w', j, k.device)
  {
    hide Inv, Known, HubAfter, OpAfter, OpsAfter, DeviceAfter, ChangesAfter, DrawnAfter, OwnersAfter, Crosses;
    var d := k.device;
    Knows(w, d, k);
    CountsMove(c, codec, w, e, w', d);
    if !On(w, d) || Dirty(w, d) {
      EntryMovesCross(c, codec, w, e, w', d);
    }
    if ChangesPasses(codec, w, e, d) {
      ChangeOpensExcuse(c, codec, w, e, w', d);
    } else {
      var j :| j != k && Excuse(w, j, d);
      OpsStay(c, codec, w, e, w', j);
      if j in w'.ops {
        ExcuseStays(c, codec, w, e, w', j, d);
      } else {
        Knows(w, d, j);
        EndedUnreached(c, codec, w, e, j);
        ExcuseEndsMarked(c, codec, w, e, w', j, d);
      }
    }
  }

  lemma EndedUnreached(c: R.Crypto, codec: Codec, w: World, e: Event, j: OpKey)
    requires Can(codec, w, e) && Subject(e) == Some(j) && OpAfter(c, codec, w, e).None? && !Crosses(c, codec, w, e, j.device)
    ensures !w.ops[j].reached
  {
    hide OpAfter;
  }

  // ---- coming to rest ----------------------------------------------------------------------------------

  /** The peer list a push of `snap` brought the device at `t`; the device's passes are as they were. */
  ghost predicate Listing(w: World, d: DeviceId, snap: seq<Pass>, t: nat, peers: seq<Peer>) {
    t <= w.clock && peers == Peers(snap, d, t, w.OwnerOf(d)) && SamePasses(snap, w.hub.store.passes, d, w.clock)
  }

  lemma ListingComplete(w: World, d: DeviceId, snap: seq<Pass>, t: nat, peers: seq<Peer>)
    requires Listing(w, d, snap, t, peers)
    ensures Complete(w, d, peers)
  {
    forall p | p in w.hub.store.passes && p.device == d && Live(p, w.clock) && Owned(p, w.OwnerOf(d)) ensures PeerOf(p) in peers {
      assert p in snap && Live(p, t);
    }
  }

  /** No revoked pass is listed: preshared keys tell the passes of the snapshot apart. */
  lemma ListingUnrevoked(w: World, d: DeviceId, snap: seq<Pass>, t: nat, peers: seq<Peer>, p: Pass)
    requires Listing(w, d, snap, t, peers) && UniqueDraws(snap)
    requires p in w.hub.store.passes && p.device == d && p.revokedAt.Some?
    ensures PeerOf(p) !in peers
  {
    assert p in snap;
    forall q | q in snap && q.device == d && Live(q, t) ensures PeerOf(q) != PeerOf(p) {
      if q.presharedKey == p.presharedKey {
        UniqueMeansOne(snap, p, q);
      }
    }
  }

  lemma ListingBacked(w: World, d: DeviceId, snap: seq<Pass>, t: nat, peers: seq<Peer>, x: Peer)
    requires Listing(w, d, snap, t, peers) && x in peers && x.expiresAt > w.clock
    ensures Backed(w, d, x)
  {
    var p :| p in snap && p.device == d && Live(p, t) && Owned(p, w.OwnerOf(d)) && PeerOf(p) == x;
    assert Live(p, w.clock) && p in w.hub.store.passes;
  }

  /** A current push with no pass change since its snapshot left the device exactly what the store says. */
  lemma PushSyncs(w: World, k: OpKey)
    requires k in w.ops && Faithful(w, k) && Applied(w, k) && Behaved(w, k)
    requires w.ops[k].reached && Seen(w.ops[k]) && !w.ops[k].kind.Disabling? && Current(w, k)
    requires w.ops[k].changes == w.Changes(k.device)
    ensures Complete(w, k.device, w.device[k.device].peers) && Sound(w, k.device, w.device[k.device].peers)
  {
    hide SamePasses, Backed, Peers, Complete;
    var o, d := w.ops[k], k.device;
    var peers := w.device[d].peers;
    var t: nat :| t <= w.clock && peers == Peers(o.passes, d, t, o.owner);
    assert Listing(w, d, o.passes, t, peers);
    ListingComplete(w, d, o.passes, t, peers);
    forall p | p in w.hub.store.passes && p.device == d && p.revokedAt.Some? ensures PeerOf(p) !in peers {
      ListingUnrevoked(w, d, o.passes, t, peers, p);
    }
    forall x | x in peers && x.expiresAt > w.clock ensures Backed(w, d, x) {
      ListingBacked(w, d, o.passes, t, peers, x);
    }
  }

  /** Time and pruning leave a device in step. */
  lemma PeersKeep(w: World, w': World, d: DeviceId, peers: seq<Peer>)
    requires Complete(w, d, peers) && Sound(w, d, peers)
    requires SamePasses(w.hub.store.passes, w'.hub.store.passes, d, w.clock) && w.clock <= w'.clock && w'.OwnerOf(d) == w.OwnerOf(d)
    ensures Complete(w', d, peers) && Sound(w', d, peers)
  {
    forall p | p in w'.hub.store.passes && p.device == d && Live(p, w'.clock) && Owned(p, w'.OwnerOf(d)) ensures PeerOf(p) in peers {
      assert Live(p, w.clock);
    }
    forall x | x in peers && x.expiresAt > w'.clock ensures Backed(w', d, x) {
      assert Backed(w, d, x);
      var p :| p in w.hub.store.passes && p.device == d && Live(p, w.clock) && Owned(p, w.OwnerOf(d)) && PeerOf(p) == x;
      assert p in w'.hub.store.passes && Live(p, w'.clock);
    }
  }


  /** In a step after which the device is at rest, nothing but an ending push touched it or its passes. */
  lemma RestingStep(c: R.Crypto, codec: Codec, w: World, e: Event, w': World, d: DeviceId)
    requires Inv(w, d) && Orderly(w, e, d) && Step(c, codec, w, e, w') && !e.Restart?
    requires On(w', d) && Quiet(w', d)
    requires On(w, d) || Crosses(c, codec, w, e, d)
    ensures SamePasses(w.hub.store.passes, w'.hub.store.passes, d, w.clock) && w.clock <= w'.clock && w'.OwnerOf(d) == w.OwnerOf(d)
    ensures d in w.device ==> d in w'.device && w'.device[d] == w.device[d]
  {
    hide Inv, Known, Orderly, HubAfter, OpAfter, OpsAfter, DeviceAfter, ChangesAfter, DrawnAfter, ChangesPasses,
      Crosses, Quiet, SamePasses;
    InvKnown(w, d);
    EntryMoves(c, codec, w, e, w', d);
    OwnerMoves(c, codec, w, e, w', d);
    RestingUnchanged(c, codec, w, e, w', d);
    InvSpares(codec, w, e, d);
    PassesMove(c, codec, w, e, d);
    RestingDevice(c, codec, w, e, w', d);
  }

  lemma RestingUnchanged(c: R.Crypto, codec: Codec, w: World, e: Event, w': World, d: DeviceId)
    requires Step(c, codec, w, e, w') && Quiet(w', d) && !SwitchesOff(e, d)
    requires On(w, d) || Crosses(c, codec, w, e, d)
    requires Inv(w, d)
    ensures !ChangesPasses(codec, w, e, d)
  {
    hide Inv, Known, HubAfter, OpAfter, OpsAfter, DeviceAfter, ChangesAfter, DrawnAfter, OwnersAfter;
    if ChangesPasses(codec, w, e, d) {
      if On(w, d) {
        ChangeOpensExcuse(c, codec, w, e, w', d);
      } else {
        Knows(w, d, e.k);
      }
    }
  }

  lemma TakeBackMeansOff(codec: Codec, w: World, e: Event, d: DeviceId)
    requires Inv(w, d) && Can(codec, w, e) && e.TakeBackDisable? && e.k.device == d
    ensures !On(w, d)
  {
    Knows(w, d, e.k);
  }

  /** A device nothing is in flight to, after the step, keeps what it holds in the step. */
  lemma RestingDevice(c: R.Crypto, codec: Codec, w: World, e: Event, w': World, d: DeviceId)
    requires Inv(w, d) && Step(c, codec, w, e, w') && !e.Restart?
    requires On(w', d) && Quiet(w', d) && (On(w, d) || Crosses(c, codec, w, e, d))
    ensures w'.clock >= w.clock
    ensures d in w.device ==> d in w'.device && w'.device[d] == w.device[d]
  {
    hide Inv, Known, HubAfter, ChangesAfter, DrawnAfter, OwnersAfter;
    if e.TakeBackDisable? && e.k.device == d {
      TakeBackMeansOff(codec, w, e, d);
      EntryMoves(c, codec, w, e, w', d);
    } else {
      QuietDevice(c, codec, w, e, w', d);
    }
  }

  lemma QuietDevice(c: R.Crypto, codec: Codec, w: World, e: Event, w': World, d: DeviceId)
    requires Step(c, codec, w, e, w') && Quiet(w', d) && (e.TakeBackDisable? ==> e.k.device != d)
    ensures d in w.device ==> d in w'.device && w'.device[d] == w.device[d]
  {
    hide HubAfter, ChangesAfter, DrawnAfter, OwnersAfter, Excuse;
  }

  /** What was in flight to a device now at rest has just ended. */
  lemma OnlyTheEndingOne(c: R.Crypto, codec: Codec, w: World, e: Event, w': World, d: DeviceId, j: OpKey)
    requires Inv(w, d) && Step(c, codec, w, e, w') && !e.Restart? && !SwitchesOff(e, d) && Quiet(w', d)
    requires j in w.ops && j.device == d && (w.ops[j].reached || Excuse(w, j, d))
    ensures Subject(e) == Some(j) && OpAfter(c, codec, w, e).None?
  {
    hide Inv, Known, HubAfter, OpAfter, OpsAfter, DeviceAfter, ChangesAfter, DrawnAfter, OwnersAfter;
    OpsStay(c, codec, w, e, w', j);
    Knows(w, d, j);
    if j in w'.ops {
      if Excuse(w, j, d) {
        ExcuseStays(c, codec, w, e, w', j, d);
      } else if Subject(e) == Some(j) {
        SubjectMoves(c, codec, w, e, w', j);
      } else {
        OthersMove(c, codec, w, e, w', j);
      }
    }
  }

  lemma OnlyTheEndingExcused(c: R.Crypto, codec: Codec, w: World, e: Event, w': World, d: DeviceId)
    requires Inv(w, d) && Step(c, codec, w, e, w') && !e.Restart? && !SwitchesOff(e, d) && Quiet(w', d)
    ensures forall j | Excuse(w, j, d) :: Subject(e) == Some(j)
  {
    forall j | Excuse(w, j, d) ensures Subject(e) == Some(j) {
      OnlyTheEndingOne(c, codec, w, e, w', d, j);
    }
  }

  /** The push that ends now and leaves the device clean was current, with no pass change since its snapshot. */
  lemma EndingPushSyncs(c: R.Crypto, codec: Codec, w: World, e: Event, w': World, d: DeviceId, k: OpKey)
    requires Step(c, codec, w, e, w') && !e.Restart? && Subject(e) == Some(k) && k.device == d && OpKnown(w, k) && OpInv(w, k)
    requires OpAfter(c, codec, w, e).None? && w.ops[k].reached
    requires On(w', d) && !Dirty(w', d)
    requires forall j | Excuse(w, j, d) :: Subject(e) == Some(j)
    ensures Seen(w.ops[k]) && !w.ops[k].kind.Disabling? && Current(w, k) && w.ops[k].changes == w.Changes(d)
    ensures w'.hub.store.devices[d].secret == w.ops[k].cfg.secret
  {
    hide HubAfter, OpAfter, OpsAfter, DeviceAfter, ChangesAfter, DrawnAfter, OwnersAfter, Excuse;
    if On(w, d) && !Dirty(w, d) {
      EndedIsCurrent(c, codec, w, e, w', k);
      NoChangeUnseen(w, e, d, k);
    } else {
      ClearedIsCurrent(c, codec, w, e, w', k);
    }
  }

  lemma ClearedIsCurrent(c: R.Crypto, codec: Codec, w: World, e: Event, w': World, k: OpKey)
    requires Step(c, codec, w, e, w') && !e.Restart? && Subject(e) == Some(k) && w.ops[k].reached
    requires On(w', k.device) && !Dirty(w', k.device) && (!On(w, k.device) || Dirty(w, k.device))
    requires OpKnown(w, k) && Standing(w, k) && Behaved(w, k)
    ensures Seen(w.ops[k]) && !w.ops[k].kind.Disabling? && Current(w, k) && w.ops[k].changes == w.Changes(k.device)
    ensures w'.hub.store.devices[k.device].secret == w.ops[k].cfg.secret
  {
    hide HubAfter, OpAfter, OpsAfter, DeviceAfter, ChangesAfter, DrawnAfter, OwnersAfter;
    EntryMoves(c, codec, w, e, w', k.device);
    CleanEndUnchanged(c, codec, w, e, w', k);
  }

  lemma NoChangeUnseen(w: World, e: Event, d: DeviceId, k: OpKey)
    requires k in w.ops && k.device == d && Subject(e) == Some(k) && On(w, d) && !Dirty(w, d)
    requires forall j | Excuse(w, j, d) :: Subject(e) == Some(j)
    requires Explained(w, k) && Seen(w.ops[k]) && !w.ops[k].crossed && Current(w, k)
    ensures w.ops[k].changes == w.Changes(d)
  {
  }

  lemma EndedIsCurrent(c: R.Crypto, codec: Codec, w: World, e: Event, w': World, k: OpKey)
    requires Step(c, codec, w, e, w') && !e.Restart? && Subject(e) == Some(k) && OpAfter(c, codec, w, e).None?
    requires On(w, k.device) && On(w', k.device) && w.ops[k].reached && OpKnown(w, k) && Behaved(w, k) && Standing(w, k)
    ensures Seen(w.ops[k]) && !w.ops[k].kind.Disabling? && Current(w, k) && !SwitchesOff(e, k.device) && !w.ops[k].crossed
    ensures w'.hub.store.devices[k.device].secret == w.ops[k].cfg.secret
  {
    hide HubAfter, OpsAfter, DeviceAfter, ChangesAfter, DrawnAfter, OwnersAfter;
    EntryMoves(c, codec, w, e, w', k.device);
  }

  /** An enable or sweep that clears the mark saw the current version, so every change. */
  lemma CleanEndUnchanged(c: R.Crypto, codec: Codec, w: World, e: Event, w': World, k: OpKey)
    requires Step(c, codec, w, e, w') && (e == EnableEnd(k) || e == SweepEnd(k)) && Current(w, k)
    requires On(w', k.device) && !Dirty(w', k.device) && (!On(w, k.device) || Dirty(w, k.device))
    requires OpKnown(w, k) && Standing(w, k) && Behaved(w, k) && w.ops[k].reached
    ensures w.ops[k].changes == w.Changes(k.device)
    ensures w'.hub.store.devices[k.device].secret == w.ops[k].cfg.secret
  {
    hide OpAfter, OpsAfter, DeviceAfter, ChangesAfter, DrawnAfter, OwnersAfter;
  }

  lemma SettledStep(c: R.Crypto, codec: Codec, w: World, e: Event, w': World, d: DeviceId)
    requires Inv(w, d) && Orderly(w, e, d) && Step(c, codec, w, e, w') && !e.Restart?
    ensures Settled(w', d)
  {
    hide Inv, Known, Orderly, HubAfter, OpAfter, OpsAfter, DeviceAfter, ChangesAfter, DrawnAfter, OwnersAfter, Quiet,
      InSync;
    if On(w', d) && !Dirty(w', d) && Quiet(w', d) {
      if Crosses(c, codec, w, e, d) {
        SettledByPush(c, codec, w, e, w', d);
      } else {
        SettledWithoutPush(c, codec, w, e, w', d);
      }
    }
  }

  lemma SettledByPush(c: R.Crypto, codec: Codec, w: World, e: Event, w': World, d: DeviceId)
    requires Inv(w, d) && Orderly(w, e, d) && Step(c, codec, w, e, w') && !e.Restart?
    requires On(w', d) && !Dirty(w', d) && Quiet(w', d) && Crosses(c, codec, w, e, d)
    ensures InSync(w', d)
  {
    hide Inv, Known, Orderly, HubAfter, OpAfter, OpsAfter, DeviceAfter, ChangesAfter, DrawnAfter, OwnersAfter, Quiet,
      SamePasses, Complete, Sound;
    var k := Subject(e).value;
    Knows(w, d, k);
    EntryMoves(c, codec, w, e, w', d);
    OnlyTheEndingExcused(c, codec, w, e, w', d);
    EndingPushSyncs(c, codec, w, e, w', d, k);
    RestingStep(c, codec, w, e, w', d);
    PushSyncs(w, k);
    PeersKeep(w, w', d, w.device[d].peers);
  }

  lemma SettledWithoutPush(c: R.Crypto, codec: Codec, w: World, e: Event, w': World, d: DeviceId)
    requires Inv(w, d) && Orderly(w, e, d) && Step(c, codec, w, e, w') && !e.Restart?
    requires On(w', d) && !Dirty(w', d) && Quiet(w', d) && !Crosses(c, codec, w, e, d)
    ensures InSync(w', d)
  {
    hide Inv, Known, Orderly, HubAfter, OpAfter, OpsAfter, DeviceAfter, ChangesAfter, DrawnAfter, OwnersAfter,
      SamePasses, Complete, Sound;
    if !On(w, d) || Dirty(w, d) || w'.hub.store.devices[d].secret != w.hub.store.devices[d].secret {
      EntryMovesCross(c, codec, w, e, w', d);
    }
    if !Quiet(w, d) {
      var j :| j in w.ops && j.device == d && (w.ops[j].reached || Excuse(w, j, d));
      EndingMarks(c, codec, w, e, w', d, j);
    }
    InvSettled(w, d);
    RestingStep(c, codec, w, e, w', d);
    PeersKeep(w, w', d, w.device[d].peers);
  }

  lemma EndingMarks(c: R.Crypto, codec: Codec, w: World, e: Event, w': World, d: DeviceId, j: OpKey)
    requires Inv(w, d) && Step(c, codec, w, e, w') && !e.Restart? && On(w', d) && Quiet(w', d) && On(w, d)
    requires j in w.ops && j.device == d && (w.ops[j].reached || Excuse(w, j, d)) && !Crosses(c, codec, w, e, d)
    ensures Dirty(w', d)
  {
    hide Inv, Known, Quiet, HubAfter, OpAfter, OpsAfter, DeviceAfter, ChangesAfter, DrawnAfter, OwnersAfter;
    EntryMoves(c, codec, w, e, w', d);
    OnlyTheEndingOne(c, codec, w, e, w', d, j);
    Knows(w, d, j);
    ExcuseEndsMarked(c, codec, w, e, w', j, d);
  }

  lemma InvSettled(w: World, d: DeviceId)
    requires Inv(w, d)
    ensures Settled(w, d)
  {
  }

  lemma InvKnown(w: World, d: DeviceId)
    requires Inv(w, d)
    ensures Known(w)
  {
  }

  // ---- the theorems --------------------------------------------------------------------------------------

  lemma InvStep(c: R.Crypto, codec: Codec, w: World, e: Event, w': World, d: DeviceId)
    requires Inv(w, d) && Known(w') && Orderly(w, e, d) && Step(c, codec, w, e, w')
    ensures Inv(w', d)
  {
    hide Step, Known, Orderly, Settled, Faithful, Standing, Behaved, Applied, Explained;
    OnePushStep(c, codec, w, e, w', d);
    forall k | k in w'.ops && k.device == d ensures OpInv(w', k) {
      KnownLedger(w');
      FaithfulStep(c, codec, w, e, w', k);
      StandingStep(c, codec, w, e, w', k);
      BehavedStep(c, codec, w, e, w', k);
      AppliedStep(c, codec, w, e, w', k);
      ExplainedStep(c, codec, w, e, w', k);
    }
    if e.Restart? {
      RestartSettled(c, codec, w, w', d);
    } else {
      SettledStep(c, codec, w, e, w', d);
    }
  }

  lemma KnownLedger(w: World)
    requires Known(w)
    ensures Ledger(w)
  {
  }

  lemma RestartSettled(c: R.Crypto, codec: Codec, w: World, w': World, d: DeviceId)
    requires Step(c, codec, w, Restart, w') && Orderly(w, Restart, d) && Settled(w, d)
    ensures Settled(w', d)
  {
    if On(w', d) && !Dirty(w', d) {
      PeersKeep(w, w', d, w.device[d].peers);
    }
  }

  lemma {:induction false} InvHolds(c: R.Crypto, codec: Codec, ws: seq<World>, es: seq<Event>, n: nat, d: DeviceId)
    requires OrderlyRun(c, codec, ws, es, d) && n <= |es|
    ensures Inv(ws[n], d)
  {
    hide Step, Known, Orderly, Inv, Init;
    KnownHolds(c, codec, ws, es, n);
    if n == 0 {
      InitInv(ws[0], d);
    } else {
      InvHolds(c, codec, ws, es, n - 1, d);
      InvStep(c, codec, ws[n - 1], es[n - 1], ws[n], d);
    }
  }

  lemma InitInv(w: World, d: DeviceId)
    requires Init(w) && Known(w)
    ensures Inv(w, d)
  {
  }

  /**
   A lost revoke cannot hide. At any point of a run orderly for the device where nothing is in
   flight to it, if its exit is on and not marked for retry, then the device holds the store's
   HELLO secret; a peer with the keys, address and expiry of every unexpired, unrevoked pass its
   owner issued; no peer with those of a revoked pass; and nothing unexpired besides.
   */
  lemma NoLostRevoke(c: R.Crypto, codec: Codec, ws: seq<World>, es: seq<Event>, n: nat, d: DeviceId)
    requires OrderlyRun(c, codec, ws, es, d) && n <= |es|
    requires On(ws[n], d) && !Dirty(ws[n], d) && forall k | k in ws[n].ops :: k.device != d
    ensures InSync(ws[n], d)
    ensures var w, owner := ws[n], ws[n].OwnerOf(d);
            var ps, peers := w.hub.store.passes, w.device[d].peers;
            && w.device[d].secret == w.hub.store.devices[d].secret
            && (forall p | p in ps && p.device == d && p.revokedAt.None? && p.expiresAt > w.clock && (p.owner == "" || owner == Some(p.owner)) ::
                  exists x :: x in peers && x.publicKey == p.publicKey && x.presharedKey == p.presharedKey
                              && x.address == p.address && x.expiresAt == p.expiresAt)
            && (forall p, x | p in ps && p.device == d && p.revokedAt.Some? && x in peers ::
                  !(x.publicKey == p.publicKey && x.presharedKey == p.presharedKey && x.address == p.address && x.expiresAt == p.expiresAt))
            && (forall x | x in peers && x.expiresAt > w.clock ::
                  exists p :: p in ps && p.device == d && p.revokedAt.None? && p.expiresAt > w.clock && (p.owner == "" || owner == Some(p.owner))
                              && x.publicKey == p.publicKey && x.presharedKey == p.presharedKey
                              && x.address == p.address && x.expiresAt == p.expiresAt)
  {
    InvHolds(c, codec, ws, es, n, d);
    InvSettled(ws[n], d);
    hide Inv, Step, Init;
    assert InSync(ws[n], d);
    HoldsItsPasses(ws[n], d);
    HoldsNoRevoked(ws[n], d);
    HoldsNothingElse(ws[n], d);
  }

  lemma HoldsItsPasses(w: World, d: DeviceId)
    requires InSync(w, d)
    ensures var ps, peers, owner := w.hub.store.passes, w.device[d].peers, w.OwnerOf(d);
            forall p | p in ps && p.device == d && p.revokedAt.None? && p.expiresAt > w.clock && (p.owner == "" || owner == Some(p.owner)) ::
              exists x :: x in peers && x.publicKey == p.publicKey && x.presharedKey == p.presharedKey
                          && x.address == p.address && x.expiresAt == p.expiresAt
  {
    var ps, peers, owner := w.hub.store.passes, w.device[d].peers, w.OwnerOf(d);
    forall p | p in ps && p.device == d && p.revokedAt.None? && p.expiresAt > w.clock && (p.owner == "" || owner == Some(p.owner))
      ensures exists x :: x in peers && x.publicKey == p.publicKey && x.presharedKey == p.presharedKey
                          && x.address == p.address && x.expiresAt == p.expiresAt
    {
      assert Live(p, w.clock) && Owned(p, owner);
      assert PeerOf(p) in peers;
    }
  }

  lemma HoldsNoRevoked(w: World, d: DeviceId)
    requires InSync(w, d)
    ensures forall p, x | p in w.hub.store.passes && p.device == d && p.revokedAt.Some? && x in w.device[d].peers ::
              !(x.publicKey == p.publicKey && x.presharedKey == p.presharedKey && x.address == p.address && x.expiresAt == p.expiresAt)
  {
    forall p, x | p in w.hub.store.passes && p.device == d && p.revokedAt.Some? && x in w.device[d].peers
      ensures !(x.publicKey == p.publicKey && x.presharedKey == p.presharedKey && x.address == p.address && x.expiresAt == p.expiresAt)
    {
      assert PeerOf(p) !in w.device[d].peers;
    }
  }

  lemma HoldsNothingElse(w: World, d: DeviceId)
    requires InSync(w, d)
    ensures var ps, owner := w.hub.store.passes, w.OwnerOf(d);
            forall x | x in w.device[d].peers && x.expiresAt > w.clock ::
              exists p :: p in ps && p.device == d && p.revokedAt.None? && p.expiresAt > w.clock && (p.owner == "" || owner == Some(p.owner))
                          && x.publicKey == p.publicKey && x.presharedKey == p.presharedKey
                          && x.address == p.address && x.expiresAt == p.expiresAt
  {
    var ps, owner := w.hub.store.passes, w.OwnerOf(d);
    forall x | x in w.device[d].peers && x.expiresAt > w.clock
      ensures exists p :: p in ps && p.device == d && p.revokedAt.None? && p.expiresAt > w.clock && (p.owner == "" || owner == Some(p.owner))
                          && x.publicKey == p.publicKey && x.presharedKey == p.presharedKey
                          && x.address == p.address && x.expiresAt == p.expiresAt
    {
      assert Backed(w, d, x);
      var p :| p in ps && p.device == d && Live(p, w.clock) && Owned(p, owner) && PeerOf(p) == x;
    }
  }

  /** Where the run is orderly for the device, what a cleared mark rests on is exactly the store's passes. */
  lemma ClearingSawEveryPass(c: R.Crypto, codec: Codec, ws: seq<World>, es: seq<Event>, n: nat, d: DeviceId)
    requires OrderlyRun(c, codec, ws, es, d) && n < |es|
    requires Dirty(ws[n], d) && On(ws[n + 1], d) && !Dirty(ws[n + 1], d)
    ensures es[n].EnableEnd? || es[n].SweepEnd?
    ensures es[n].k in ws[n].ops && es[n].k.device == d
    ensures OfDevice(ws[n].ops[es[n].k].passes, d) == OfDevice(ws[n].hub.store.passes, d)
  {
    hide Known, Orderly, Inv, Init, HubAfter, OpAfter, OpsAfter, DeviceAfter, ChangesAfter, DrawnAfter, OwnersAfter;
    ClearingIsFounded(c, codec, ws, es, n, d);
    InvHolds(c, codec, ws, es, n, d);
    Knows(ws[n], d, es[n].k);
    assert Step(c, codec, ws[n], es[n], ws[n + 1]);
  }

  /**
   Where the run is orderly for its device, the rollback of an issue (its owner changed, or the
   exit was shut down) finds nothing left to revoke.
   */
  lemma RollbackFindsNothing(c: R.Crypto, codec: Codec, ws: seq<World>, es: seq<Event>, n: nat)
    requires n < |es| && es[n].IssueEnd? && OrderlyRun(c, codec, ws, es, es[n].k.device)
    ensures ws[n + 1].hub.store.passes == ws[n].hub.store.passes
  {
    var k := es[n].k;
    InvHolds(c, codec, ws, es, n, k.device);
    assert Step(c, codec, ws[n], es[n], ws[n + 1]);
    Knows(ws[n], k.device, k);
    RollbackIdle(c, codec, ws[n], k);
  }
}

/**
 What each operation reads, sends and does next (vpn.rs), told by the hub's tables and the devices:
 what a snapshot holds, what a push leaves on the device, when a sweep goes on, when a revoke marks
 the entry, and that no push that reached a device and was refused is forgotten.
 */
module ExitOperations {
  import opened Bytes
  import opened PassBook
  import opened ExitStore
  import opened ExitProtocol
  import R = RelayTable

  function Epoch(s: Store, d: DeviceId): nat {
    if d in s.epochs then s.epochs[d] else 0
  }

  function Version(s: Store, d: DeviceId): nat {
    if d in s.versions then s.versions[d] else 0
  }

  function Owner(w: World, d: DeviceId): Option<string> {
    if d in w.owners then Some(w.owners[d]) else None
  }

  // ---- reading ---------------------------------------------------------------------------------

  /** An enable, an issue and a revoke begin with the owner as it is; nothing else in flight moves. */
  lemma BeginsWithOwner(c: R.Crypto, codec: Codec, w: World, e: Event, w': World)
    requires Step(c, codec, w, e, w') && (e.EnableStart? || e.IssueStart? || e.RevokeStart?)
    ensures var k := OpKey(w.nextOp, e.device);
            && w'.ops.Keys == w.ops.Keys + {k} && w'.ops[k].owner == Owner(w, e.device) && w'.ops[k].phase == Started
            && forall o | o in w.ops && o != k :: w'.ops[o] == w.ops[o]
    ensures w'.hub == w.hub && w'.device == w.device
  {
  }

  /**
   A snapshot holds the store as the same locked section leaves it: all passes, and the device's epoch
   and version. An enable's is always taken, an issue's if the pass was reserved, a revoke's if the
   pass was found and the exit is on; the operation is over otherwise.
   */
  lemma SnapshotIsTheStore(c: R.Crypto, codec: Codec, w: World, e: Event, w': World)
    requires Step(c, codec, w, e, w') && (e.EnableSnapshot? || e.IssueSnapshot? || e.RevokeSnapshot?)
    ensures var k, s, s' := e.k, w.hub.store, w'.hub.store;
            && k in w.ops
            && (k in w'.ops <==>
                  e.EnableSnapshot? || (e.IssueSnapshot? && |s'.passes| > |s.passes|)
                  || (e.RevokeSnapshot? && k.device in s.devices && exists p :: p in s.passes && p.device == k.device && Revoking(p.id) == w.ops[k].kind))
            && (k in w'.ops ==>
                  var o := w'.ops[k];
                  && o.phase == Pushing && !o.reached && o.owner == w.ops[k].owner
                  && o.passes == s'.passes && o.epoch == Epoch(s', k.device) && o.version == Version(s', k.device)
                  && (k.device in s.devices ==> o.cfg == s.devices[k.device])
                  && (e.IssueSnapshot? ==> o.pass.Some? && o.pass.value in s'.passes && o.pass.value.id == e.id && e.k.device in s.devices))
  {
    hide DeviceAfter, ChangesAfter, DrawnAfter, OwnersAfter;
    if e.RevokeSnapshot? {
      FoundExactly(w.hub.store.passes, w.ops[e.k].kind.passId, e.k.device);
    }
  }

  lemma FoundExactly(ps: seq<Pass>, id: string, d: DeviceId)
    ensures FindId(ps, id, Some(d), false) < |ps| <==> exists p :: p in ps && p.device == d && p.id == id
  {
    var i := FindId(ps, id, Some(d), false);
    if i < |ps| { assert ps[i] in ps; }
  }

  /** A sweep lists exactly the marked devices, each with the store as its purge left it. */
  lemma SweepsTheMarked(c: R.Crypto, codec: Codec, w: World, w': World, k: OpKey)
    requires Step(c, codec, w, SweepList, w') && k !in w.ops
    ensures var s' := w'.hub.store;
            && s'.devices == w.hub.store.devices
            && (k in w'.ops <==> k.n == w.nextOp && k.device in s'.devices && s'.devices[k.device].dirty)
            && (k in w'.ops ==>
                  var o := w'.ops[k];
                  && o.kind == Sweeping && o.phase == Listed && o.cfg == s'.devices[k.device]
                  && o.passes == s'.passes && o.epoch == Epoch(s', k.device) && o.version == Version(s', k.device))
  {
    hide HubAfter, PruneStore, DeviceAfter, ChangesAfter, DrawnAfter, OwnersAfter;
    PurgeKeepsEntries(c, codec, w);
  }

  lemma PurgeKeepsEntries(c: R.Crypto, codec: Codec, w: World)
    ensures HubAfter(c, codec, w, SweepList) == w.hub.(store := PruneStore(w.hub.store, w.clock))
    ensures PruneStore(w.hub.store, w.clock).devices == w.hub.store.devices
  {
  }

  /** It drops a device that was shut down since, and reads the owner just before the push. */
  lemma SweepGoesOn(c: R.Crypto, codec: Codec, w: World, e: Event, w': World)
    requires Step(c, codec, w, e, w') && (e.SweepRecheck? || e.SweepOwner?)
    ensures e.SweepRecheck? ==> (e.k in w'.ops <==> w.ops[e.k].epoch == Epoch(w.hub.store, e.k.device))
    ensures e.SweepOwner? ==> e.k in w'.ops && w'.ops[e.k] == w.ops[e.k].(owner := Owner(w, e.k.device), phase := Pushing)
    ensures w'.hub == w.hub && w'.device == w.device
  {
    hide ChangesAfter, DrawnAfter, OwnersAfter;
  }

  // ---- pushing -----------------------------------------------------------------------------------

  /**
   A push leaves on the device the secret of its snapshot, a peer with the keys, address and expiry of
   every pass of the snapshot for this device that is unrevoked, unexpired and its owner's or nobody's,
   and no other; and no other device changes.
   */
  lemma PushLeaves(c: R.Crypto, codec: Codec, w: World, k: OpKey, t: nat, w': World)
    requires Step(c, codec, w, Deliver(k, t), w')
    ensures var o, d := w.ops[k], k.device;
            && w'.device.Keys == w.device.Keys + {d}
            && (forall x | x in w.device && x != d :: w'.device[x] == w.device[x])
            && w'.device[d].secret == o.cfg.secret
            && (forall p | p in o.passes && p.device == d && p.revokedAt.None? && p.expiresAt > t && (p.owner == "" || o.owner == Some(p.owner)) ::
                  exists x :: x in w'.device[d].peers && x.publicKey == p.publicKey && x.presharedKey == p.presharedKey
                              && x.address == p.address && x.expiresAt == p.expiresAt)
            && (forall x | x in w'.device[d].peers ::
                  exists p :: p in o.passes && p.device == d && p.revokedAt.None? && p.expiresAt > t && (p.owner == "" || o.owner == Some(p.owner))
                              && x.publicKey == p.publicKey && x.presharedKey == p.presharedKey
                              && x.address == p.address && x.expiresAt == p.expiresAt)
    ensures w'.hub == w.hub
  {
    hide OpAfter, OpsAfter, ChangesAfter, DrawnAfter, OwnersAfter, Live, Owned, PeerOf;
  }

  /** A device's configuration changes only by a push to it, or goes when it is told to disable. */
  lemma DevicesChangeOnlyByPush(c: R.Crypto, codec: Codec, w: World, e: Event, w': World, d: DeviceId)
    requires Step(c, codec, w, e, w')
    ensures (if d in w'.device then Some(w'.device[d]) else None) != (if d in w.device then Some(w.device[d]) else None) ==>
              || (e.Deliver? && e.k.device == d)
              || (((e.TakeBackDisable? && e.reached) || e.DisableReach?) && e.k.device == d && d !in w'.device)
    ensures ((e.TakeBackDisable? && e.reached) || e.DisableReach?) && e.k.device == d ==> d !in w'.device
  {
    hide HubAfter, OpAfter, OpsAfter, ChangesAfter, DrawnAfter, OwnersAfter, Peers;
  }

  // ---- after the push ------------------------------------------------------------------------------

  /** A revoke marks the entry exactly if its push failed or passes changed since. */
  lemma RevokeMarks(c: R.Crypto, codec: Codec, w: World, e: Event, w': World)
    requires Step(c, codec, w, e, w') && (e.RevokeCheck? || e.RevokeMark?)
    ensures e.RevokeCheck? ==>
              w'.hub == w.hub
              && (e.k in w'.ops <==> w.ops[e.k].phase == Answered(false) || w.ops[e.k].version != Version(w.hub.store, e.k.device))
              && (e.k in w'.ops ==> w'.ops[e.k].phase == ToMark)
    ensures e.RevokeMark? ==>
              e.k !in w'.ops
              && w'.hub.store.devices == (if e.k.device in w.hub.store.devices
                                          then w.hub.store.devices[e.k.device := w.hub.store.devices[e.k.device].(dirty := true)]
                                          else w.hub.store.devices)
  {
    hide DeviceAfter, ChangesAfter, DrawnAfter, OwnersAfter;
  }

  /** The step refuses a push of this operation that may be on the device. */
  ghost predicate Refuses(w: World, e: Event, k: OpKey) {
    k in w.ops
    && var o, epoch := w.ops[k], Epoch(w.hub.store, k.device);
       || (e == EnableOwnerCheck(k) && o.owner != Owner(w, k.device))
       || (e == EnableEnd(k) && o.epoch != epoch)
       || (e == IssueEnd(k) && o.phase.OwnerCompared? && o.phase.ok && (o.epoch != epoch || !o.phase.kept))
       || (e == SweepEnd(k) && o.phase == Answered(true) && o.epoch != epoch)
  }

  /**
   No refused push is forgotten. An operation is about to take its push back exactly from the refusal on
   until it does (or the hub restarts).
   */
  lemma RefusedPushIsTakenBack(c: R.Crypto, codec: Codec, w: World, e: Event, w': World, k: OpKey)
    requires Step(c, codec, w, e, w') && k in w.ops && k.n < w.nextOp
    ensures k in w'.ops && w'.ops[k].phase == TakingBack <==>
              Refuses(w, e, k) || (w.ops[k].phase == TakingBack && e != TakeBackMark(k) && !e.Restart?)
  {
    hide Step, Refuses, OpAfter;
    RefusesItsOwn(w, e, k);
    assert Can(codec, w, e) by { StepCan(c, codec, w, e, w'); }
    if Subject(e) == Some(k) {
      OwnMove(c, codec, w, e, w', k);
      OwnRefusal(c, codec, w, e, k);
    } else {
      OthersStay(c, codec, w, e, w', k);
    }
  }

  lemma StepCan(c: R.Crypto, codec: Codec, w: World, e: Event, w': World)
    requires Step(c, codec, w, e, w')
    ensures Can(codec, w, e)
  {
    hide Next, Can;
  }

  lemma RefusesItsOwn(w: World, e: Event, k: OpKey)
    ensures Refuses(w, e, k) ==> Subject(e) == Some(k)
  {
  }

  lemma OwnRefusal(c: R.Crypto, codec: Codec, w: World, e: Event, k: OpKey)
    requires Can(codec, w, e) && Subject(e) == Some(k) && k in w.ops
    ensures var o := OpAfter(c, codec, w, e);
            o.Some? && o.value.phase == TakingBack <==> Refuses(w, e, k) || (w.ops[k].phase == TakingBack && e != TakeBackMark(k))
  {
    hide Reserve, Reserving, RevokeNow, Revocable, EnableCfg;
  }

  lemma OwnMove(c: R.Crypto, codec: Codec, w: World, e: Event, w': World, k: OpKey)
    requires Step(c, codec, w, e, w') && k in w.ops && Subject(e) == Some(k)
    ensures var o := OpAfter(c, codec, w, e);
            (k in w'.ops <==> o.Some?) && (o.Some? ==> w'.ops[k] == o.value)
  {
    hide Can, HubAfter, OpAfter, DeviceAfter, ChangesAfter, DrawnAfter, OwnersAfter;
  }

  /** Another operation's step does not move this one's phase. */
  lemma OthersStay(c: R.Crypto, codec: Codec, w: World, e: Event, w': World, k: OpKey)
    requires Step(c, codec, w, e, w') && k in w.ops && k.n < w.nextOp && Subject(e) != Some(k)
    ensures k in w'.ops <==> !e.Restart?
    ensures k in w'.ops ==> w'.ops[k].phase == w.ops[k].phase
  {
    hide Can, HubAfter, OpAfter, DeviceAfter, ChangesAfter, DrawnAfter, OwnersAfter, PruneStore, SnapshotOf, Begin;
  }

  /** Taking a push back marks the entry if the exit is on again, and otherwise leads to telling the device. */
  lemma TakesBack(c: R.Crypto, codec: Codec, w: World, k: OpKey, w': World)
    requires Step(c, codec, w, TakeBackMark(k), w')
    ensures if k.device in w.hub.store.devices then
              w'.hub.store.devices == w.hub.store.devices[k.device := w.hub.store.devices[k.device].(dirty := true)] && k !in w'.ops
            else w'.hub.store.devices == w.hub.store.devices && k in w'.ops && w'.ops[k].phase == TellingOff
  {
    hide DeviceAfter, ChangesAfter, DrawnAfter, OwnersAfter;
  }

  /** It is then about to tell the device until it does, or the hub restarts. */
  lemma TellsTheDevice(c: R.Crypto, codec: Codec, w: World, e: Event, w': World, k: OpKey)
    requires Step(c, codec, w, e, w') && k in w.ops && k.n < w.nextOp && w.ops[k].phase == TellingOff
    ensures if (e.TakeBackDisable? && e.k == k) || e.Restart? then k !in w'.ops else k in w'.ops && w'.ops[k].phase == TellingOff
  {
    hide HubAfter, DeviceAfter, ChangesAfter, DrawnAfter, OwnersAfter;
    if Subject(e) != Some(k) {
      OthersStay(c, codec, w, e, w', k);
    }
  }

  /** An issue compares the owner after its push with the one it read. */
  lemma OwnersCompared(c: R.Crypto, codec: Codec, w: World, e: Event, w': World)
    requires Step(c, codec, w, e, w') && e.IssueOwnerCheck?
    ensures e.k in w'.ops && w'.ops[e.k].phase == OwnerCompared(w.ops[e.k].phase.ok, w.ops[e.k].owner == Owner(w, e.k.device))
    ensures w'.hub == w.hub && w'.device == w.device
  {
    hide ChangesAfter, DrawnAfter, OwnersAfter;
  }

  /** A restart keeps entries and passes, forgets what was in flight, and registers the entries that have a key. */
  lemma RestartKeeps(c: R.Crypto, codec: Codec, w: World, w': World)
    requires Step(c, codec, w, Restart, w')
    ensures w'.hub.store.devices == w.hub.store.devices && w'.hub.store.passes == w.hub.store.passes
    ensures w'.ops == map[] && w'.hub.relay.sessions == map[] && w'.device == w.device && w'.owners == w.owners
    ensures forall d :: d in w'.hub.relay.devs <==> d in w.hub.store.devices && codec.decode(w.hub.store.devices[d].serverPublicKey).Some?
  {
    hide ChangesAfter, DrawnAfter;
  }
}

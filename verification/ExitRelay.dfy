/**
 The store and the relay agree (vpn.rs, vpnrelay.rs): at every point where the store lock is free,
 the exits the store has on are exactly the devices the relay routes to, under the same keys.
 */
module ExitRelay {
  import opened Bytes
  import opened PassBook
  import opened ExitStore
  import opened ExitProtocol
  import opened ExitShutdown
  import R = RelayTable
  import Runs = RelayRuns

  /** The relay checks HELLOs with the very key the store has as hex, and routes by the recorded server key. */
  ghost predicate SameKeys(c: R.Crypto, codec: Codec, cfg: DevCfg, dev: R.Dev) {
    && cfg.secret == Hex(dev.secret)
    && codec.decode(cfg.serverPublicKey).Some?
    && dev.mac1Key == c.mac1Key(codec.decode(cfg.serverPublicKey).value)
  }

  ghost predicate Agree(c: R.Crypto, codec: Codec, h: Hub) {
    && h.store.devices.Keys == h.relay.devs.Keys
    && (forall d | d in h.store.devices :: SameKeys(c, codec, h.store.devices[d], h.relay.devs[d]))
    && (forall x, y | x in h.relay.devs && y in h.relay.devs && h.relay.devs[x].mac1Key == h.relay.devs[y].mac1Key :: x == y)
  }

  predicate HexOf(secret: string) {
    Hex(Unhex(secret)) == secret
  }

  /** What an enable in flight holds: a hex secret, and once the device answered, a decodable key. */
  ghost predicate Commitable(codec: Codec, o: Op) {
    o.kind.Enabling? ==>
      (Seen(o) ==> HexOf(o.cfg.secret))
      && (o.phase.Reported? || o.phase.Vetted? ==> codec.decode(o.phase.serverKey).Some?)
  }

  ghost predicate Inv(c: R.Crypto, codec: Codec, w: World) {
    Agree(c, codec, w.hub)
    && (forall k | k in w.ops :: PhaseFits(w.ops[k]) && Commitable(codec, w.ops[k]))
  }

  lemma SnapshotCommitable(c: R.Crypto, codec: Codec, w: World, k: OpKey, secret: seq<byte>)
    requires Inv(c, codec, w) && k in w.ops && w.ops[k].kind.Enabling?
    ensures HexOf(EnableCfg(w.hub.store, k.device, w.ops[k].kind.user, secret, w.clock).secret)
  {
    UnhexHex(secret);
    if k.device in w.hub.store.devices {
      UnhexHex(w.hub.relay.devs[k.device].secret);
    }
  }

  lemma OpsStep(c: R.Crypto, codec: Codec, w: World, e: Event, w': World)
    requires Inv(c, codec, w) && Step(c, codec, w, e, w')
    ensures forall k | k in w'.ops :: PhaseFits(w'.ops[k]) && Commitable(codec, w'.ops[k])
  {
    hide Step, Agree, Commitable, PhaseFits;
    PhasesStep(c, codec, w, e, w');
    forall k | k in w'.ops ensures Commitable(codec, w'.ops[k]) {
      OpStep(c, codec, w, e, w', k);
    }
  }

  lemma OpStep(c: R.Crypto, codec: Codec, w: World, e: Event, w': World, k: OpKey)
    requires Inv(c, codec, w) && Step(c, codec, w, e, w') && k in w'.ops
    ensures Commitable(codec, w'.ops[k])
  {
    hide HubAfter, OpAfter, DeviceAfter, ChangesAfter, DrawnAfter, OwnersAfter, Agree, PhaseFits;
    if Subject(e) == Some(k) {
      if e.EnableSnapshot? {
        EnableCommitable(c, codec, w, e);
      } else {
        StaysCommitable(c, codec, w, e);
      }
    } else {
      BystanderMoves(c, codec, w, e, w', k);
    }
  }

  lemma EnableCommitable(c: R.Crypto, codec: Codec, w: World, e: Event)
    requires Inv(c, codec, w) && Can(codec, w, e) && e.EnableSnapshot?
    ensures OpAfter(c, codec, w, e).Some? && Commitable(codec, OpAfter(c, codec, w, e).value)
  {
    hide Agree;
    SnapshotCommitable(c, codec, w, e.k, e.secret);
  }

  lemma StaysCommitable(c: R.Crypto, codec: Codec, w: World, e: Event)
    requires Can(codec, w, e) && Subject(e).Some? && OpAfter(c, codec, w, e).Some? && !e.EnableSnapshot?
    requires Commitable(codec, w.ops[Subject(e).value]) && PhaseFits(w.ops[Subject(e).value])
    ensures Commitable(codec, OpAfter(c, codec, w, e).value)
  {
  }

  lemma EnableKeepsAgreement(c: R.Crypto, codec: Codec, w: World, k: OpKey, w': World)
    requires Inv(c, codec, w) && Step(c, codec, w, EnableEnd(k), w')
    ensures Agree(c, codec, w'.hub)
  {
    var o := w.ops[k];
    var cfg := o.cfg.(serverPublicKey := o.phase.serverKey);
    if EnableOutcomeOf(c, codec, w.hub, k.device, cfg, o.epoch) == Enabled {
      var key := c.mac1Key(codec.decode(cfg.serverPublicKey).value);
      assert w'.hub.relay == R.Registered(w.hub.relay, k.device, Unhex(cfg.secret), key);
      assert !R.KeyTaken(w.hub.relay, k.device, key);
    }
  }

  /** What the store has on disk is enough to register every device again, under the keys it had. */
  lemma RestartRegisters(c: R.Crypto, codec: Codec, h: Hub, d: DeviceId)
    requires Agree(c, codec, h) && d in h.store.devices
    ensures var t := RestartedRelay(c, codec, h.store.devices);
            d in t.devs && SameKeys(c, codec, h.store.devices[d], t.devs[d]) && t.devs[d].mac1Key == h.relay.devs[d].mac1Key
  {
    assert SameKeys(c, codec, h.store.devices[d], h.relay.devs[d]);
    UnhexHex(h.relay.devs[d].secret);
  }

  lemma RestartAgrees(c: R.Crypto, codec: Codec, h: Hub, h': Hub)
    requires Agree(c, codec, h) && h'.store.devices == h.store.devices && h'.relay == RestartedRelay(c, codec, h.store.devices)
    ensures Agree(c, codec, h')
  {
    hide SameKeys;
    forall d | d in h.store.devices
      ensures d in h'.relay.devs && SameKeys(c, codec, h'.store.devices[d], h'.relay.devs[d])
      ensures h'.relay.devs[d].mac1Key == h.relay.devs[d].mac1Key
    {
      RestartRegisters(c, codec, h, d);
    }
    assert h'.relay.devs.Keys == h.store.devices.Keys;
  }

  lemma RestartKeepsAgreement(c: R.Crypto, codec: Codec, w: World, w': World)
    requires Inv(c, codec, w) && Step(c, codec, w, Restart, w')
    ensures Agree(c, codec, w'.hub)
  {
    hide Agree, RestartedRelay, OpsAfter, DeviceAfter, ChangesAfter, DrawnAfter, OwnersAfter;
    RestartAgrees(c, codec, w.hub, w'.hub);
  }

  /** Dirty flags, passes, epochs and versions apart, a hub that agreed still does. */
  lemma SameDevicesAgree(c: R.Crypto, codec: Codec, h: Hub, h': Hub)
    requires Agree(c, codec, h) && h'.relay == h.relay && h'.store.devices.Keys == h.store.devices.Keys
    requires forall d | d in h.store.devices ::
               h'.store.devices[d].secret == h.store.devices[d].secret
               && h'.store.devices[d].serverPublicKey == h.store.devices[d].serverPublicKey
    ensures Agree(c, codec, h')
  {
    forall d | d in h.store.devices ensures SameKeys(c, codec, h'.store.devices[d], h'.relay.devs[d]) {
      assert SameKeys(c, codec, h.store.devices[d], h.relay.devs[d]);
    }
  }

  lemma SwitchOffKeepsAgreement(c: R.Crypto, codec: Codec, h: Hub, d: DeviceId, dropPasses: bool, now: nat)
    requires Agree(c, codec, h)
    ensures Agree(c, codec, AfterSwitchOff(h, d, dropPasses, now))
  {
  }

  lemma TrafficKeepsAgreement(c: R.Crypto, codec: Codec, w: World, w': World, e: Event)
    requires Inv(c, codec, w) && e.Traffic? && Step(c, codec, w, e, w')
    ensures Agree(c, codec, w'.hub)
  {
    forall d | d in w.hub.store.devices ensures SameKeys(c, codec, w'.hub.store.devices[d], w'.hub.relay.devs[d]) {
      assert SameKeys(c, codec, w.hub.store.devices[d], w.hub.relay.devs[d]);
    }
  }

  predicate LeavesDevices(e: Event) {
    !(e.Traffic? || e.EnableEnd? || e.Restart? || e.DisableEnd? || e.ShutDown? || e.OwnerChange?)
  }

  lemma OthersLeaveDevices(c: R.Crypto, codec: Codec, w: World, e: Event, w': World)
    requires Step(c, codec, w, e, w') && LeavesDevices(e)
    ensures w'.hub.relay == w.hub.relay && w'.hub.store.devices.Keys == w.hub.store.devices.Keys
    ensures forall d | d in w.hub.store.devices ::
              w'.hub.store.devices[d].secret == w.hub.store.devices[d].secret
              && w'.hub.store.devices[d].serverPublicKey == w.hub.store.devices[d].serverPublicKey
  {
    hide OpAfter, OpsAfter, DeviceAfter, ChangesAfter, DrawnAfter, OwnersAfter;
  }

  lemma HubStep(c: R.Crypto, codec: Codec, w: World, e: Event, w': World)
    requires Inv(c, codec, w) && Step(c, codec, w, e, w')
    ensures Agree(c, codec, w'.hub)
  {
    if LeavesDevices(e) {
      OthersLeaveDevices(c, codec, w, e, w');
      SameDevicesAgree(c, codec, w.hub, w'.hub);
    } else if e.Traffic? {
      TrafficKeepsAgreement(c, codec, w, w', e);
    } else if e.EnableEnd? {
      EnableKeepsAgreement(c, codec, w, e.k, w');
    } else if e.Restart? {
      RestartKeepsAgreement(c, codec, w, w');
    } else if e.DisableEnd? {
      SwitchOffKeepsAgreement(c, codec, w.hub, e.k.device, false, w.clock);
    } else {
      SwitchOffKeepsAgreement(c, codec, w.hub, e.device, true, w.clock);
    }
  }

  lemma AgreementStep(c: R.Crypto, codec: Codec, w: World, e: Event, w': World)
    requires Inv(c, codec, w) && Step(c, codec, w, e, w')
    ensures Inv(c, codec, w')
  {
    OpsStep(c, codec, w, e, w');
    HubStep(c, codec, w, e, w');
  }

  lemma {:induction false} InvHolds(c: R.Crypto, codec: Codec, ws: seq<World>, es: seq<Event>, n: nat)
    requires IsRun(c, codec, ws, es) && n <= |es|
    ensures Inv(c, codec, ws[n])
  {
    if n > 0 {
      InvHolds(c, codec, ws, es, n - 1);
      AgreementStep(c, codec, ws[n - 1], es[n - 1], ws[n]);
    }
  }

  /**
   Store and relay agree in every reachable state: an exit is on in the store exactly when it is
   registered at the relay, with the HELLO key the store holds as hex and the mac1 key of its
   recorded server key, and no two exits share a mac1 key.
   */
  lemma StoreAndRelayAgree(c: R.Crypto, codec: Codec, ws: seq<World>, es: seq<Event>, n: nat, d: DeviceId)
    requires IsRun(c, codec, ws, es) && n <= |es|
    ensures var h := ws[n].hub;
            && (d in h.store.devices <==> d in h.relay.devs)
            && (d in h.store.devices ==>
                  && h.relay.devs[d].secret == Unhex(h.store.devices[d].secret)
                  && Hex(h.relay.devs[d].secret) == h.store.devices[d].secret
                  && codec.decode(h.store.devices[d].serverPublicKey).Some?
                  && h.relay.devs[d].mac1Key == c.mac1Key(codec.decode(h.store.devices[d].serverPublicKey).value)
                  && !R.KeyTaken(h.relay, d, h.relay.devs[d].mac1Key))
  {
    InvHolds(c, codec, ws, es, n);
    var h := ws[n].hub;
    if d in h.store.devices {
      assert SameKeys(c, codec, h.store.devices[d], h.relay.devs[d]);
      UnhexHex(h.relay.devs[d].secret);
    }
  }

  /** So the relay, too, routes to a device only on an enable newer than its last shutdown. */
  lemma RegistrationStands(c: R.Crypto, codec: Codec, ws: seq<World>, es: seq<Event>, n: nat, d: DeviceId)
    requires IsRun(c, codec, ws, es) && n <= |es| && d in ws[n].hub.relay.devs
    ensures exists k, i, j :: EnabledBy(es, n, d, k, i, j)
  {
    StoreAndRelayAgree(c, codec, ws, es, n, d);
    ShutdownStands(c, codec, ws, es, n, d);
  }

  /** Datagrams and prunes at the relay never touch a registration: they are Traffic here. */
  lemma RelayStepsAreTraffic(c: R.Crypto, t: R.Table, e: Runs.Event, t': R.Table)
    requires Runs.Step(c, t, e, t') && (e.Datagram? || e.PruneAt?)
    ensures SameRegistrations(t, t')
  {
  }
}

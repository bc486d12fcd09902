/**
 Why the agreement asks that an issue's owner read is still the owner at its snapshot (vpn.rs):
 a run, orderly in every other step, in which it is not, and which leaves a revoked pass on a
 device that is enabled, clean and idle. Its requests come with no identity, as on a trusted
 network, which may drive every device.
 */
module ExitStaleOwner {
  import opened Bytes
  import opened PassBook
  import opened ExitStore
  import opened ExitProtocol
  import opened ExitSteps
  import opened ExitAgreement
  import R = RelayTable

  /** A request with no identity: it may control every device, and its passes count for every owner. */
  const NOBODY := ""

  /** One uninterrupted stretch of a run, orderly but for the steps in `but`. */
  ghost predicate Stretch(c: R.Crypto, codec: Codec, ws: seq<World>, es: seq<Event>, but: set<Event>, d: DeviceId) {
    |ws| == |es| + 1
    && forall i | 0 <= i < |es| :: Step(c, codec, ws[i], es[i], ws[i + 1]) && (Orderly(ws[i], es[i], d) || es[i] in but)
  }

  lemma Join(c: R.Crypto, codec: Codec, ws: seq<World>, es: seq<Event>, but: set<Event>, d: DeviceId, e: Event, w: World)
    returns (ws': seq<World>, es': seq<Event>)
    requires Stretch(c, codec, ws, es, but, d) && Step(c, codec, ws[|es|], e, w) && (Orderly(ws[|es|], e, d) || e in but)
    ensures Stretch(c, codec, ws', es', but, d) && ws'[0] == ws[0] && ws'[|es'|] == w
  {
    ws', es' := ws + [w], es + [e];
  }

  // ---- an enable that nothing interferes with ---------------------------------------------

  /** A step that only moves its own operation. */
  lemma MovesOwnOp(c: R.Crypto, codec: Codec, w: World, e: Event, k: OpKey, o: Op)
    requires Can(codec, w, e) && Subject(e) == Some(k) && OpAfter(c, codec, w, e) == Some(o)
    requires e.EnableSnapshot? || e.EnableAnswer? || e.EnableOwnerCheck? || e.PushAnswer? || e.IssueOwnerCheck?
    ensures Step(c, codec, w, e, w.(ops := w.ops[k := o], nextOp := w.nextOp + 1))
  {
  }

  function Opening(w: World, d: DeviceId, user: string): World {
    w.(ops := w.ops[OpKey(w.nextOp, d) := Begin(Enabling(user), w.OwnerOf(d))], nextOp := w.nextOp + 1)
  }

  function EnableOp(w: World, d: DeviceId, user: string, secret: seq<byte>): Op {
    SnapshotOf(Begin(Enabling(user), w.OwnerOf(d)), w.hub.store, w.Changes(d), d, EnableCfg(w.hub.store, d, user, secret, w.clock), Pushing)
  }

  function Holding(w: World, k: OpKey, o: Op, steps: nat): World {
    w.(ops := w.ops[k := o], nextOp := w.nextOp + steps)
  }

  function Delivered(w: World, d: DeviceId, o: Op): map<DeviceId, Config> {
    w.device[d := Config(o.cfg.secret, Peers(w.hub.store.passes, d, w.clock, w.OwnerOf(d)))]
  }

  lemma OpenAndRead(c: R.Crypto, codec: Codec, w: World, d: DeviceId, user: string, secret: seq<byte>)
    requires |secret| == 32 && OpKey(w.nextOp, d) !in w.ops
    ensures var k, o := OpKey(w.nextOp, d), EnableOp(w, d, user, secret);
            && Step(c, codec, w, EnableStart(d, user), Opening(w, d, user))
            && Step(c, codec, Opening(w, d, user), EnableSnapshot(k, secret), Holding(w, k, o, 2))
  {
    var k, o := OpKey(w.nextOp, d), EnableOp(w, d, user, secret);
    var w1 := Opening(w, d, user);
    MovesOwnOp(c, codec, w1, EnableSnapshot(k, secret), k, o);
    assert w1.ops[k := o] == w.ops[k := o];
  }

  lemma DeliverTo(c: R.Crypto, codec: Codec, w: World, k: OpKey, o: Op)
    requires k !in w.ops && o.phase.Pushing? && !o.reached && o.passes == w.hub.store.passes && o.owner == w.OwnerOf(k.device)
    ensures Step(c, codec, Holding(w, k, o, 2), Deliver(k, w.clock),
                 Holding(w, k, o.(reached := true), 3).(device := Delivered(w, k.device, o)))
  {
    var w2, w3 := Holding(w, k, o, 2), Holding(w, k, o.(reached := true), 3);
    assert w2.ops[k := o.(reached := true)] == w3.ops;
  }

  /** The device answered with its key, and the owner is still the one read. */
  lemma AnswerAndVet(c: R.Crypto, codec: Codec, w: World, k: OpKey, o: Op, key: string, applied: map<DeviceId, Config>)
    requires k !in w.ops && o.phase.Pushing? && o.reached && o.kind.Enabling? && codec.decode(key).Some? && o.owner == w.OwnerOf(k.device)
    ensures var w3 := Holding(w, k, o, 3).(device := applied);
            var w4 := Holding(w, k, o.(phase := Reported(key)), 4).(device := applied);
            var w5 := Holding(w, k, o.(phase := Vetted(key)), 5).(device := applied);
            && Step(c, codec, w3, EnableAnswer(k, Some(key)), w4)
            && Step(c, codec, w4, EnableOwnerCheck(k), w5)
  {
    hide Step;
    var w3 := Holding(w, k, o, 3).(device := applied);
    var w4 := Holding(w, k, o.(phase := Reported(key)), 4).(device := applied);
    var w5 := Holding(w, k, o.(phase := Vetted(key)), 5).(device := applied);
    MovesOwnOp(c, codec, w3, EnableAnswer(k, Some(key)), k, w4.ops[k]);
    assert w3.ops[k := w4.ops[k]] == w4.ops;
    MovesOwnOp(c, codec, w4, EnableOwnerCheck(k), k, w5.ops[k]);
    assert w4.ops[k := w5.ops[k]] == w5.ops;
  }

  /** The exit as a successful enable leaves it. */
  function TurnedOn(h: Hub, relay: R.Table, d: DeviceId, cfg: DevCfg): Hub {
    Hub(h.store.(devices := h.store.devices[d := cfg]), relay)
  }

  lemma CommitAlone(c: R.Crypto, codec: Codec, w: World, k: OpKey, o: Op, w': World)
    requires k !in w.ops && o.phase.Vetted? && o.reached && !KeyConflict(c, codec, w.hub, k.device, o.phase.serverKey)
    requires o.epoch == w.hub.store.Epoch(k.device) && o.version == w.hub.store.Version(k.device)
    requires w'.ops == w.ops[k := o] && w'.hub == w.hub
    ensures Can(codec, w', EnableEnd(k))
    ensures var n := Next(c, codec, w', EnableEnd(k));
            && n.ops == CrossAll(w.ops, k.device) && n.nextOp == w'.nextOp + 1
            && n.hub.store == w.hub.store.(devices := w.hub.store.devices[k.device := o.cfg.(serverPublicKey := o.phase.serverKey, dirty := false)])
            && n.hub.relay == RegisteredRelay(c, codec, w.hub.relay, k.device, ReportedCfg(o))
            && n.device == w'.device && n.owners == w'.owners && n.clock == w'.clock && n.drawn == w'.drawn && n.changes == w'.changes
  {
    assert w'.ops - {k} == w.ops;
  }

  /** Six steps: the device takes the current list, and the exit is on and clean. */
  lemma EnableAlone(c: R.Crypto, codec: Codec, ws: seq<World>, es: seq<Event>, but: set<Event>, d: DeviceId, key: string, secret: seq<byte>)
    returns (ws': seq<World>, es': seq<Event>)
    requires Stretch(c, codec, ws, es, but, d) && |secret| == 32 && codec.decode(key).Some?
    requires var w := ws[|es|];
             !KeyConflict(c, codec, w.hub, d, key) && forall k | k in w.ops :: k.n < w.nextOp && !w.ops[k].reached
    ensures Stretch(c, codec, ws', es', but, d) && ws'[0] == ws[0]
    ensures var w, w' := ws[|es|], ws'[|es'|];
            var cfg := EnableCfg(w.hub.store, d, NOBODY, secret, w.clock);
            && w'.hub == TurnedOn(w.hub, RegisteredRelay(c, codec, w.hub.relay, d, cfg.(serverPublicKey := key)), d,
                                  cfg.(serverPublicKey := key, dirty := false))
            && w'.ops == CrossAll(w.ops, d) && w'.nextOp == w.nextOp + 6
            && w'.device == Delivered(w, d, EnableOp(w, d, NOBODY, secret))
            && w'.owners == w.owners && w'.clock == w.clock && w'.drawn == w.drawn && w'.changes == w.changes
  {
    var w := ws[|es|];
    var k, o := OpKey(w.nextOp, d), EnableOp(w, d, NOBODY, secret);
    OpenAndRead(c, codec, w, d, NOBODY, secret);
    DeliverTo(c, codec, w, k, o);
    AnswerAndVet(c, codec, w, k, o.(reached := true), key, Delivered(w, d, o));
    var o3, o5 := o.(reached := true), o.(reached := true, phase := Vetted(key));
    var w3 := Holding(w, k, o3, 3).(device := Delivered(w, d, o));
    var w4 := Holding(w, k, o3.(phase := Reported(key)), 4).(device := Delivered(w, d, o));
    var w5 := Holding(w, k, o5, 5).(device := Delivered(w, d, o));
    CommitAlone(c, codec, w, k, o5, w5);
    var w6 := Next(c, codec, w5, EnableEnd(k));
    ws', es' := Join(c, codec, ws, es, but, d, EnableStart(d, NOBODY), Opening(w, d, NOBODY));
    ws', es' := Join(c, codec, ws', es', but, d, EnableSnapshot(k, secret), Holding(w, k, o, 2));
    ws', es' := Join(c, codec, ws', es', but, d, Deliver(k, w.clock), w3);
    ws', es' := Join(c, codec, ws', es', but, d, EnableAnswer(k, Some(key)), w4);
    ws', es' := Join(c, codec, ws', es', but, d, EnableOwnerCheck(k), w5);
    ws', es' := Join(c, codec, ws', es', but, d, EnableEnd(k), w6);
  }

  // ---- the run -----------------------------------------------------------------------------

  const SECRET: seq<byte> := seq(32, _ => 7)

  function Start(): World {
    World(Hub(EMPTY_STORE, R.EMPTY), map[], 0, map[], map[], 0, {}, map[])
  }

  function FirstPass(d: DeviceId): Pass {
    Pass("id", d, NOBODY, "client", "psk", 2, 3600, None)
  }

  lemma ReadsOwner(c: R.Crypto, codec: Codec, d: DeviceId, w: World)
    requires w == Start().(ops := map[OpKey(0, d) := Begin(Issuing(0, 1, "client", NOBODY), None)], nextOp := 1)
    ensures Step(c, codec, Start(), IssueStart(d, 0, 1, "client", NOBODY), w)
  {
  }

  lemma PassesOn(c: R.Crypto, codec: Codec, d: DeviceId, w: World) returns (w': World)
    requires w.hub == Start().hub && w.changes == map[] && w.owners == map[]
    ensures Step(c, codec, w, OwnerChange(d, Some("b")), w')
    ensures w'.ops == w.ops && w'.nextOp == w.nextOp + 1 && w'.hub.store == Store(map[], [], map[d := 1], map[d := 1]) && w'.hub.relay == R.EMPTY
    ensures w'.device == w.device && w'.owners == map[d := "b"] && w'.clock == w.clock && w'.drawn == w.drawn && w'.changes == map[d := 1]
  {
    w' := Next(c, codec, w, OwnerChange(d, Some("b")));
    assert DropAll([], d) == [];
    assert w'.hub.relay == R.EMPTY;
  }

  /** The request reads the owner (nobody), then the device passes to "b" before it looks at the store. */
  lemma OwnerGoesStale(c: R.Crypto, codec: Codec, d: DeviceId, but: set<Event>) returns (ws: seq<World>, es: seq<Event>)
    ensures Stretch(c, codec, ws, es, but, d) && ws[0] == Start()
    ensures var w, k := ws[|es|], OpKey(0, d);
            && w.ops == map[k := Begin(Issuing(0, 1, "client", NOBODY), None)] && w.nextOp == 2
            && w.hub.store == Store(map[], [], map[d := 1], map[d := 1]) && w.hub.relay == R.EMPTY
            && w.device == map[] && w.owners == map[d := "b"] && w.clock == 0 && w.drawn == {} && w.changes == map[d := 1]
  {
    hide Step, Next;
    var w0 := Start();
    var w1 := w0.(ops := map[OpKey(0, d) := Begin(Issuing(0, 1, "client", NOBODY), None)], nextOp := 1);
    ReadsOwner(c, codec, d, w1);
    var w2 := PassesOn(c, codec, d, w1);
    ws, es := Join(c, codec, [w0], [], but, d, IssueStart(d, 0, 1, "client", NOBODY), w1);
    ws, es := Join(c, codec, ws, es, but, d, OwnerChange(d, Some("b")), w2);
  }

  lemma ReserveFirst(w: World, k: OpKey)
    requires InFlight(w, k, Started) && w.ops[k].kind == Issuing(0, 1, "client", NOBODY)
    requires k.device in w.hub.store.devices && w.hub.store.passes == []
    ensures ReservationOf(w, k, "id", "psk") == Reserved(FirstPass(k.device), w.hub.store.devices[k.device])
  {
    assert LiveOf([], k.device, 0) == [];
    assert Used([], k.device, 0) == {};
    assert LowestFree({}, FIRST_HOST) == Some(FIRST_HOST);
  }

  /** The pass is reserved under the new owner, by the request that read the old one. */
  lemma ReserveStale(c: R.Crypto, codec: Codec, d: DeviceId, but: set<Event>, ws: seq<World>, es: seq<Event>)
    returns (ws': seq<World>, es': seq<Event>)
    requires Stretch(c, codec, ws, es, but, d) && IssueSnapshot(OpKey(0, d), "id", "psk") in but
    requires var w, k := ws[|es|], OpKey(0, d);
             && w.ops == map[k := Begin(Issuing(0, 1, "client", NOBODY), None).(crossed := true)]
             && d in w.hub.store.devices && w.hub.store.passes == [] && w.drawn == {}
    ensures Stretch(c, codec, ws', es', but, d) && ws'[0] == ws[0]
    ensures var w, w', k := ws[|es|], ws'[|es'|], OpKey(0, d);
            && w'.hub.store == w.hub.store.(passes := [FirstPass(d)]).PassesChanged(d) && w'.hub.relay == w.hub.relay
            && w'.nextOp == w.nextOp + 1
            && w'.device == w.device && w'.owners == w.owners && w'.clock == w.clock
            && w'.ops.Keys == {k} && w'.ops[k].kind.Issuing? && w'.ops[k].phase.Pushing? && !w'.ops[k].reached
            && w'.ops[k].pass == Some(FirstPass(d)) && w'.ops[k].owner == None && w'.ops[k].epoch == w'.hub.store.Epoch(d)
  {
    var w, k := ws[|es|], OpKey(0, d);
    ReserveFirst(w, k);
    var e := IssueSnapshot(k, "id", "psk");
    assert Can(codec, w, e);
    var w' := Next(c, codec, w, e);
    assert [] + [FirstPass(d)] == [FirstPass(d)];
    ws', es' := Join(c, codec, ws, es, but, d, e, w');
  }

  /** The issue's own push fails; its rollback revokes the pass and tells nobody. */
  lemma RollBack(c: R.Crypto, codec: Codec, d: DeviceId, but: set<Event>, ws: seq<World>, es: seq<Event>)
    returns (ws': seq<World>, es': seq<Event>)
    requires Stretch(c, codec, ws, es, but, d)
    requires var w, k := ws[|es|], OpKey(0, d);
             && w.ops.Keys == {k} && w.ops[k].kind.Issuing? && w.ops[k].phase.Pushing? && !w.ops[k].reached
             && w.ops[k].pass == Some(FirstPass(d)) && w.ops[k].owner != w.OwnerOf(d) && w.ops[k].epoch == w.hub.store.Epoch(d)
             && w.hub.store.passes == [FirstPass(d)]
    ensures Stretch(c, codec, ws', es', but, d) && ws'[0] == ws[0]
    ensures var w, w' := ws[|es|], ws'[|es'|];
            && w'.hub.store == w.hub.store.(passes := [FirstPass(d).(revokedAt := Some(w.clock))])
            && w'.device == w.device && w'.ops == map[]
  {
    var w, k := ws[|es|], OpKey(0, d);
    var o := w.ops[k];
    var o1, o2 := o.(phase := Answered(false)), o.(phase := OwnerCompared(false, false));
    var w1 := w.(ops := w.ops[k := o1], nextOp := w.nextOp + 1);
    var w2 := w1.(ops := w1.ops[k := o2], nextOp := w1.nextOp + 1);
    MovesOwnOp(c, codec, w, PushAnswer(k, false), k, o1);
    MovesOwnOp(c, codec, w1, IssueOwnerCheck(k), k, o2);
    var w3 := Next(c, codec, w2, IssueEnd(k));
    assert FindId([FirstPass(d)], "id", None, true) == 0;
    assert w2.ops - {k} == map[];
    assert w3.hub.store.passes == [FirstPass(d).(revokedAt := Some(w.clock))];
    ws', es' := Join(c, codec, ws, es, but, d, PushAnswer(k, false), w1);
    ws', es' := Join(c, codec, ws', es', but, d, IssueOwnerCheck(k), w2);
    ws', es' := Join(c, codec, ws', es', but, d, IssueEnd(k), w3);
  }

  lemma HoldsRevoked(w: World, d: DeviceId, t: nat)
    requires w.hub.store.passes == [FirstPass(d).(revokedAt := Some(t))]
    requires d in w.device && PeerOf(FirstPass(d)) in w.device[d].peers
    ensures exists p, x :: p in w.hub.store.passes && p.device == d && p.revokedAt.Some? && x in w.device[d].peers
                           && x.publicKey == p.publicKey && x.presharedKey == p.presharedKey
                           && x.address == p.address && x.expiresAt == p.expiresAt
    ensures !InSync(w, d)
  {
    var p, x := w.hub.store.passes[0], PeerOf(FirstPass(d));
    assert p in w.hub.store.passes && x in w.device[d].peers;
    assert x.publicKey == p.publicKey && x.presharedKey == p.presharedKey && x.address == p.address && x.expiresAt == p.expiresAt;
    if InSync(w, d) { HoldsNoRevoked(w, d); }
  }

  /**
   An owner change between an issue's owner read and its snapshot can hide a revoke: this run ends
   with the exit on, not marked for retry and nothing in flight, and the device holding a pass the
   store has revoked. Every step but the issue's snapshot is orderly, and the issue's push reached
   nothing.
   */
  lemma StaleOwnerHidesARevoke(c: R.Crypto, codec: Codec, d: DeviceId, key: string) returns (ws: seq<World>, es: seq<Event>)
    requires codec.decode(key).Some?
    ensures IsRun(c, codec, ws, es)
    ensures forall i | 0 <= i < |es| :: Orderly(ws[i], es[i], d) || es[i] == IssueSnapshot(OpKey(0, d), "id", "psk")
    ensures var w := ws[|es|];
            && On(w, d) && !Dirty(w, d) && w.ops == map[] && d in w.device
            && (exists p, x :: p in w.hub.store.passes && p.device == d && p.revokedAt.Some? && x in w.device[d].peers
                               && x.publicKey == p.publicKey && x.presharedKey == p.presharedKey
                               && x.address == p.address && x.expiresAt == p.expiresAt)
            && !InSync(w, d)
  {
    hide Step, Orderly;
    var k := OpKey(0, d);
    var but := {IssueSnapshot(k, "id", "psk")};
    ws, es := OwnerGoesStale(c, codec, d, but);
    ws, es := EnableAlone(c, codec, ws, es, but, d, key, SECRET);
    ws, es := ReserveStale(c, codec, d, but, ws, es);
    ghost var listed := ws[|es|];
    ws, es := EnableAlone(c, codec, ws, es, but, d, key, SECRET);
    assert ws[|es|].ops.Keys == {k};
    var peer := PeerOf(FirstPass(d));
    assert peer in ws[|es|].device[d].peers by {
      var p := FirstPass(d);
      assert p in listed.hub.store.passes && Live(p, 0) && Owned(p, Some("b")) && PeerOf(p) == peer;
    }
    ghost var before := ws[|es|];
    ws, es := RollBack(c, codec, d, but, ws, es);
    HoldsRevoked(ws[|es|], d, before.clock);
  }
}

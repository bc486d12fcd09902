/**
 The VPN exit protocol (vpn.rs) as steps. Every section the source runs under the store lock is
 one step; between two of them an operation is in flight, holding only what it has read, while
 any other step may happen. `device` is what each device last applied.
 */
module ExitProtocol {
  import opened Bytes
  import opened PassBook
  import opened ExitStore
  import R = RelayTable

  // ---- operations in flight ----------------------------------------------------------------

  /** An operation: its number, unique in the run, and the device it is about. */
  datatype OpKey = OpKey(n: nat, device: DeviceId)

  datatype Kind =
    | Enabling(user: string)
    | Issuing(t: nat, hours: nat, clientKey: string, user: string)
    | Revoking(passId: string)
    | Sweeping
    | Disabling

  datatype Phase =
    | Started                             // owner read (enable, issue, revoke); disable: until it switches off
    | Listed                              // sweep: in the list of devices to catch up
    | Rechecked                           // sweep: the epoch was still the listed one
    | Pushing                             // snapshot and owner in hand, push under way
    | Answered(ok: bool)                  // issue, revoke, sweep: the push returned
    | Reported(serverKey: string)         // enable: the device answered with its key
    | Vetted(serverKey: string)           // enable: the owner is still the one read
    | OwnerCompared(ok: bool, kept: bool) // issue: the owner was compared with the one read
    | ToMark                              // revoke: about to mark the device for retry
    | TakingBack                          // the push lost to a shutdown or an owner change
    | TellingOff                          // take_back found the exit off: tell the device to disable

  /**
   `owner` to `pass` are what the operation holds. The last three are history: whether its push
   reached the device, whether another push that did came to its end since this snapshot, and
   how many pass changes the device had seen at the snapshot.
   */
  datatype Op = Op(
    kind: Kind,
    phase: Phase,
    owner: Option<string>,
    cfg: DevCfg,
    passes: seq<Pass>,
    epoch: nat,
    version: nat,
    pass: Option<Pass>,
    reached: bool,
    crossed: bool,
    changes: nat)

  const NO_CFG := DevCfg("", "", "", 0, false)

  function Begin(kind: Kind, owner: Option<string>): Op {
    Op(kind, Started, owner, NO_CFG, [], 0, 0, None, false, false, 0)
  }

  // ---- the world -----------------------------------------------------------------------------

  datatype Config = Config(secret: string, peers: seq<Peer>)

  datatype World = World(
    hub: Hub,
    ops: map<OpKey, Op>,
    nextOp: nat,
    device: map<DeviceId, Config>,
    owners: map<DeviceId, string>,
    clock: nat,
    drawn: set<string>,               // the random ids and preshared keys drawn so far
    changes: map<DeviceId, nat>)      // history: issues, revokes and shutdowns per device
  {
    function OwnerOf(d: DeviceId): Option<string> {
      if d in owners then Some(owners[d]) else None
    }

    function Changes(d: DeviceId): nat {
      if d in changes then changes[d] else 0
    }
  }

  /** `o` with a snapshot of the store as it is in `s`. */
  function SnapshotOf(o: Op, s: Store, changes: nat, d: DeviceId, cfg: DevCfg, phase: Phase): Op {
    o.(cfg := cfg, passes := s.passes, epoch := s.Epoch(d), version := s.Version(d),
       phase := phase, reached := false, crossed := false, changes := changes)
  }

  function CrossAll(ops: map<OpKey, Op>, d: DeviceId): map<OpKey, Op> {
    map k | k in ops :: if k.device == d then ops[k].(crossed := true) else ops[k]
  }

  /** The operation is over. If its push reached the device, those still in flight to it have been crossed. */
  function Finish(ops: map<OpKey, Op>, k: OpKey): map<OpKey, Op>
    requires k in ops
  {
    var rest := ops - {k};
    if ops[k].reached then CrossAll(rest, k.device) else rest
  }

  // ---- steps ---------------------------------------------------------------------------------

  datatype Event =
    | Tick(seconds: nat)
    | Traffic(relay: R.Table)             // datagrams and prunes at the relay
    | Deliver(k: OpKey, t: nat)           // the device applies a push whose peer list was built at t
    | EnableStart(device: DeviceId, user: string)
    | EnableSnapshot(k: OpKey, secret: seq<byte>)
    | EnableAnswer(k: OpKey, serverKey: Option<string>)
    | EnableOwnerCheck(k: OpKey)
    | EnableEnd(k: OpKey)
    | IssueStart(device: DeviceId, t: nat, hours: nat, clientKey: string, user: string)
    | IssueSnapshot(k: OpKey, id: string, psk: string)
    | PushAnswer(k: OpKey, ok: bool)
    | IssueOwnerCheck(k: OpKey)
    | IssueEnd(k: OpKey)
    | RevokeStart(device: DeviceId, passId: string)
    | RevokeSnapshot(k: OpKey)
    | RevokeCheck(k: OpKey)
    | RevokeMark(k: OpKey)
    | SweepList
    | SweepRecheck(k: OpKey)
    | SweepOwner(k: OpKey)
    | SweepEnd(k: OpKey)
    | TakeBackMark(k: OpKey)
    | TakeBackDisable(k: OpKey, reached: bool)
    | DisableStart(device: DeviceId)
    | DisableReach(k: OpKey)
    | DisableEnd(k: OpKey)
    | ShutDown(device: DeviceId)
    | OwnerChange(device: DeviceId, owner: Option<string>)
    | Restart

  /** The relay's registrations are the same: only what it learns from traffic differs. */
  ghost predicate SameRegistrations(t: R.Table, t': R.Table) {
    t'.devs.Keys == t.devs.Keys
    && forall d | d in t.devs :: t'.devs[d].secret == t.devs[d].secret && t'.devs[d].mac1Key == t.devs[d].mac1Key
  }

  predicate InFlight(w: World, k: OpKey, phase: Phase) {
    k in w.ops && w.ops[k].phase == phase
  }

  /** When a step can happen. */
  ghost predicate Can(codec: Codec, w: World, e: Event) {
    match e
    case Tick(_) => true
    case Traffic(relay) => SameRegistrations(w.hub.relay, relay)
    case Deliver(k, t) => InFlight(w, k, Pushing) && !w.ops[k].reached && t <= w.clock
    case EnableStart(_, _) => true
    case EnableSnapshot(k, secret) => InFlight(w, k, Started) && w.ops[k].kind.Enabling? && |secret| == 32
    case EnableAnswer(k, serverKey) =>
      InFlight(w, k, Pushing) && w.ops[k].kind.Enabling?
      && (serverKey.Some? ==> w.ops[k].reached && codec.decode(serverKey.value).Some?)
    case EnableOwnerCheck(k) => k in w.ops && w.ops[k].phase.Reported?
    case EnableEnd(k) => k in w.ops && w.ops[k].phase.Vetted?
    case IssueStart(_, t, hours, _, _) => t <= w.clock && hours in TTL_CHOICES_H
    case IssueSnapshot(k, id, psk) =>
      InFlight(w, k, Started) && w.ops[k].kind.Issuing? && id !in w.drawn && psk !in w.drawn && id != psk
    case PushAnswer(k, ok) =>
      InFlight(w, k, Pushing) && !w.ops[k].kind.Enabling? && (ok ==> w.ops[k].reached)
    case IssueOwnerCheck(k) => k in w.ops && w.ops[k].phase.Answered? && w.ops[k].kind.Issuing?
    case IssueEnd(k) => k in w.ops && w.ops[k].phase.OwnerCompared? && w.ops[k].pass.Some?
    case RevokeStart(_, _) => true
    case RevokeSnapshot(k) => InFlight(w, k, Started) && w.ops[k].kind.Revoking?
    case RevokeCheck(k) => k in w.ops && w.ops[k].phase.Answered? && w.ops[k].kind.Revoking?
    case RevokeMark(k) => InFlight(w, k, ToMark)
    case SweepList => true
    case SweepRecheck(k) => InFlight(w, k, Listed)
    case SweepOwner(k) => InFlight(w, k, Rechecked)
    case SweepEnd(k) => k in w.ops && w.ops[k].phase.Answered? && w.ops[k].kind.Sweeping?
    case TakeBackMark(k) => InFlight(w, k, TakingBack)
    case TakeBackDisable(k, _) => InFlight(w, k, TellingOff)
    case DisableStart(_) => true
    case DisableReach(k) => InFlight(w, k, Started) && w.ops[k].kind.Disabling? && !w.ops[k].reached
    case DisableEnd(k) => InFlight(w, k, Started) && w.ops[k].kind.Disabling?
    case ShutDown(_) => true
    case OwnerChange(_, _) => true
    case Restart => true
  }

  function RestartedRelay(c: R.Crypto, codec: Codec, devices: map<DeviceId, DevCfg>): R.Table {
    R.Table(
      map d | d in devices && codec.decode(devices[d].serverPublicKey).Some? ::
        R.Dev(Unhex(devices[d].secret), c.mac1Key(codec.decode(devices[d].serverPublicKey).value), None, 0, None),
      map[])
  }

  function ReservationOf(w: World, k: OpKey, id: string, psk: string): Reservation
    requires InFlight(w, k, Started) && w.ops[k].kind.Issuing?
  {
    var i := w.ops[k].kind;
    Reserve(w.hub.store, k.device, i.t, i.hours, i.clientKey, i.user, id, psk)
  }

  function ReportedCfg(o: Op): DevCfg
    requires o.phase.Vetted?
  {
    o.cfg.(serverPublicKey := o.phase.serverKey)
  }

  /** The store and the relay table after the step. */
  ghost function HubAfter(c: R.Crypto, codec: Codec, w: World, e: Event): Hub
    requires Can(codec, w, e)
  {
    var h, s := w.hub, w.hub.store;
    match e
    case Traffic(relay) => h.(relay := relay)
    case EnableEnd(k) => EnableCommit(c, codec, h, k.device, ReportedCfg(w.ops[k]), w.ops[k].epoch, w.ops[k].version)
    case IssueSnapshot(k, id, psk) => h.(store := Reserving(s, k.device, ReservationOf(w, k, id, psk)))
    case IssueEnd(k) =>
      var o := w.ops[k];
      h.(store := IssueCommit(s, k.device, o.pass.value.id, o.epoch, o.version, o.phase.ok, o.phase.kept, w.clock))
    case RevokeSnapshot(k) => h.(store := RevokeNow(s, k.device, w.ops[k].kind.passId, w.clock))
    case RevokeMark(k) => h.(store := s.Marked(k.device))
    case SweepList => h.(store := PruneStore(s, w.clock))
    case SweepEnd(k) => h.(store := SweepCommit(s, k.device, w.ops[k].epoch, w.ops[k].version, w.ops[k].phase.ok))
    case TakeBackMark(k) => h.(store := s.Marked(k.device))
    case DisableEnd(k) => AfterSwitchOff(h, k.device, false, w.clock)
    case ShutDown(d) => AfterSwitchOff(h, d, true, w.clock)
    case OwnerChange(d, _) => AfterSwitchOff(h, d, true, w.clock)
    case Restart => Hub(s.(epochs := map[], versions := map[]), RestartedRelay(c, codec, s.devices))
    case _ => h
  }

  /** The operation a step belongs to. */
  function Subject(e: Event): Option<OpKey> {
    match e
    case Deliver(k, _) => Some(k)
    case EnableSnapshot(k, _) => Some(k)
    case EnableAnswer(k, _) => Some(k)
    case EnableOwnerCheck(k) => Some(k)
    case EnableEnd(k) => Some(k)
    case IssueSnapshot(k, _, _) => Some(k)
    case PushAnswer(k, _) => Some(k)
    case IssueOwnerCheck(k) => Some(k)
    case IssueEnd(k) => Some(k)
    case RevokeSnapshot(k) => Some(k)
    case RevokeCheck(k) => Some(k)
    case RevokeMark(k) => Some(k)
    case SweepRecheck(k) => Some(k)
    case SweepOwner(k) => Some(k)
    case SweepEnd(k) => Some(k)
    case TakeBackMark(k) => Some(k)
    case TakeBackDisable(k, _) => Some(k)
    case DisableReach(k) => Some(k)
    case DisableEnd(k) => Some(k)
    case _ => None
  }

  /** What becomes of that operation; None when it is over. */
  ghost function OpAfter(c: R.Crypto, codec: Codec, w: World, e: Event): Option<Op>
    requires Can(codec, w, e) && Subject(e).Some?
  {
    var k := Subject(e).value;
    var o, d, s := w.ops[k], k.device, w.hub.store;
    match e
    case Deliver(_, _) => Some(o.(reached := true))
    case EnableSnapshot(_, secret) =>
      Some(SnapshotOf(o, s, w.Changes(d), d, EnableCfg(s, d, o.kind.user, secret, w.clock), Pushing))
    case EnableAnswer(_, serverKey) => if serverKey.None? then None else Some(o.(phase := Reported(serverKey.value)))
    case EnableOwnerCheck(_) =>
      Some(o.(phase := if w.OwnerOf(d) != o.owner then TakingBack else Vetted(o.phase.serverKey)))
    case EnableEnd(_) =>
      if EnableOutcomeOf(c, codec, w.hub, d, ReportedCfg(o), o.epoch) == ShutMeanwhile
      then Some(o.(phase := TakingBack)) else None
    case IssueSnapshot(_, id, psk) =>
      var r := ReservationOf(w, k, id, psk);
      if r.Reserved?
      then Some(SnapshotOf(o, Reserving(s, d, r), w.Changes(d) + 1, d, r.cfg, Pushing).(pass := Some(r.pass)))
      else None
    case PushAnswer(_, ok) => Some(o.(phase := Answered(ok)))
    case IssueOwnerCheck(_) => Some(o.(phase := OwnerCompared(o.phase.ok, w.OwnerOf(d) == o.owner)))
    case IssueEnd(_) =>
      if IssueOutcomeOf(s, d, o.epoch, o.phase.ok, o.phase.kept) == Withdrawn(true)
      then Some(o.(phase := TakingBack)) else None
    case RevokeSnapshot(_) =>
      if Revocable(s, d, o.kind.passId) && d in s.devices
      then Some(SnapshotOf(o, RevokeNow(s, d, o.kind.passId, w.clock), w.Changes(d) + 1, d, s.devices[d], Pushing))
      else None
    case RevokeCheck(_) => if !o.phase.ok || s.Version(d) != o.version then Some(o.(phase := ToMark)) else None
    case RevokeMark(_) => None
    case SweepRecheck(_) => if s.Epoch(d) != o.epoch then None else Some(o.(phase := Rechecked))
    case SweepOwner(_) => Some(o.(owner := w.OwnerOf(d), phase := Pushing))
    case SweepEnd(_) =>
      if SweepOutcomeOf(s, d, o.epoch, o.version, o.phase.ok) == ShutDuringPush(true)
      then Some(o.(phase := TakingBack)) else None
    case TakeBackMark(_) => if d in s.devices then None else Some(o.(phase := TellingOff))
    case TakeBackDisable(_, _) => None
    case DisableReach(_) => Some(o.(reached := true))
    case DisableEnd(_) => None
  }

  /** The sweep's list: every device marked for retry, with the store as the prune left it. */
  function SweepOps(s: Store, n: nat, changes: DeviceId -> nat): map<OpKey, Op> {
    map d | d in s.devices && s.devices[d].dirty ::
      OpKey(n, d) := SnapshotOf(Begin(Sweeping, None), s, changes(d), d, s.devices[d], Listed)
  }

  ghost function OpsAfter(c: R.Crypto, codec: Codec, w: World, e: Event): map<OpKey, Op>
    requires Can(codec, w, e)
  {
    match Subject(e)
    case Some(k) =>
      var o := OpAfter(c, codec, w, e);
      if o.Some? then w.ops[k := o.value] else Finish(w.ops, k)
    case None =>
      match e
      case EnableStart(d, user) => w.ops[OpKey(w.nextOp, d) := Begin(Enabling(user), w.OwnerOf(d))]
      case IssueStart(d, t, hours, key, user) =>
        w.ops[OpKey(w.nextOp, d) := Begin(Issuing(t, hours, key, user), w.OwnerOf(d))]
      case RevokeStart(d, passId) => w.ops[OpKey(w.nextOp, d) := Begin(Revoking(passId), w.OwnerOf(d))]
      case DisableStart(d) => w.ops[OpKey(w.nextOp, d) := Begin(Disabling, None)]
      case SweepList => w.ops + SweepOps(PruneStore(w.hub.store, w.clock), w.nextOp, d => w.Changes(d))
      case Restart => map[]
      case _ => w.ops
  }

  /** What the devices have applied. */
  function DeviceAfter(w: World, e: Event): map<DeviceId, Config>
    requires e.Deliver? ==> e.k in w.ops
  {
    match e
    case Deliver(k, t) =>
      var o := w.ops[k];
      w.device[k.device := Config(o.cfg.secret, Peers(o.passes, k.device, t, o.owner))]
    case DisableReach(k) => w.device - {k.device}
    case TakeBackDisable(k, true) => w.device - {k.device}
    case _ => w.device
  }

  /** The step switches the device's exit off. */
  predicate SwitchesOff(e: Event, d: DeviceId) {
    match e
    case DisableEnd(k) => k.device == d
    case ShutDown(x) => x == d
    case OwnerChange(x, _) => x == d
    case _ => false
  }

  /** The step issues, revokes or drops passes of the device. */
  ghost predicate ChangesPasses(codec: Codec, w: World, e: Event, d: DeviceId)
    requires Can(codec, w, e)
  {
    SwitchesOff(e, d)
    || (e.IssueSnapshot? && e.k.device == d && ReservationOf(w, e.k, e.id, e.psk).Reserved?)
    || (e.RevokeSnapshot? && e.k.device == d && Revocable(w.hub.store, d, w.ops[e.k].kind.passId))
  }

  function Device(e: Event): Option<DeviceId> {
    match e
    case ShutDown(d) => Some(d)
    case OwnerChange(d, _) => Some(d)
    case _ => if Subject(e).Some? then Some(Subject(e).value.device) else None
  }

  ghost function ChangesAfter(codec: Codec, w: World, e: Event): map<DeviceId, nat>
    requires Can(codec, w, e)
  {
    if Device(e).Some? && ChangesPasses(codec, w, e, Device(e).value)
    then w.changes[Device(e).value := w.Changes(Device(e).value) + 1]
    else w.changes
  }

  ghost function DrawnAfter(codec: Codec, w: World, e: Event): set<string>
    requires Can(codec, w, e)
  {
    if e.IssueSnapshot? && ReservationOf(w, e.k, e.id, e.psk).Reserved? then w.drawn + {e.id, e.psk} else w.drawn
  }

  function OwnersAfter(w: World, e: Event): map<DeviceId, string> {
    match e
    case OwnerChange(d, owner) => if owner.Some? then w.owners[d := owner.value] else w.owners - {d}
    case _ => w.owners
  }

  /** What each step does. */
  ghost function Next(c: R.Crypto, codec: Codec, w: World, e: Event): World
    requires Can(codec, w, e)
  {
    World(
      HubAfter(c, codec, w, e),
      OpsAfter(c, codec, w, e),
      w.nextOp + 1,
      DeviceAfter(w, e),
      OwnersAfter(w, e),
      if e.Tick? then w.clock + e.seconds else w.clock,
      DrawnAfter(codec, w, e),
      ChangesAfter(codec, w, e))
  }

  // ---- runs ------------------------------------------------------------------------------------

  /** A hub with nothing enabled and no pass; devices, owners and the clock are whatever they are. */
  ghost predicate Init(w: World) {
    w.hub == Hub(EMPTY_STORE, R.EMPTY) && w.ops == map[] && w.changes == map[]
  }

  ghost predicate Step(c: R.Crypto, codec: Codec, w: World, e: Event, w': World) {
    Can(codec, w, e) && w' == Next(c, codec, w, e)
  }

  ghost predicate IsRun(c: R.Crypto, codec: Codec, ws: seq<World>, es: seq<Event>) {
    |ws| == |es| + 1 && Init(ws[0]) && forall i | 0 <= i < |es| :: Step(c, codec, ws[i], es[i], ws[i + 1])
  }
}

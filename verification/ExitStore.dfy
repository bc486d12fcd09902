/**
 The exit store (vpn.rs): enabled devices, passes, and the per-device epochs and versions that
 decide what a push may commit. Each section the source runs under the store lock is a function
 of the store here; the class `ExitHub` at the end runs the same sections on fields in place.
 */
module ExitStore {
  import opened Bytes
  import opened PassBook
  import R = RelayTable

  datatype DevCfg = DevCfg(
    secret: string,
    serverPublicKey: string,
    enabledBy: string,
    enabledAt: nat,
    dirty: bool)

  datatype Store = Store(
    devices: map<DeviceId, DevCfg>,
    passes: seq<Pass>,
    epochs: map<DeviceId, nat>,
    versions: map<DeviceId, nat>)
  {
    function Epoch(d: DeviceId): nat {
      if d in epochs then epochs[d] else 0
    }

    function Version(d: DeviceId): nat {
      if d in versions then versions[d] else 0
    }

    function PassesChanged(d: DeviceId): Store {
      this.(versions := versions[d := Version(d) + 1])
    }

    /** The device's entry, if it has one, marked for a retry. */
    function Marked(d: DeviceId): Store {
      if d in devices then this.(devices := devices[d := devices[d].(dirty := true)]) else this
    }
  }

  const EMPTY_STORE := Store(map[], [], map[], map[])

  /** What the store lock covers: the store, and the relay table the sections below change with it. */
  datatype Hub = Hub(store: Store, relay: R.Table)

  /** `decode_key`: base64 text to a 32-byte key. */
  datatype Codec = Codec(decode: string -> Option<seq<byte>>)

  // ---- switching off ---------------------------------------------------------------------

  function SwitchedOffPasses(ps: seq<Pass>, d: DeviceId, dropPasses: bool, now: nat): seq<Pass> {
    if dropPasses then DropAll(ps, d) else RevokeAll(ps, d, now)
  }

  function AfterSwitchOff(h: Hub, d: DeviceId, dropPasses: bool, now: nat): Hub {
    var s := h.store;
    Hub(
      s.(epochs := s.epochs[d := s.Epoch(d) + 1],
         devices := s.devices - {d},
         passes := SwitchedOffPasses(s.passes, d, dropPasses, now)).PassesChanged(d),
      R.Removed(h.relay, d))
  }

  // ---- enabling --------------------------------------------------------------------------

  function EnableCfg(s: Store, d: DeviceId, user: string, secret: seq<byte>, now: nat): DevCfg {
    if d in s.devices then s.devices[d] else DevCfg(Hex(secret), "", user, now, false)
  }

  datatype EnableOutcome = Enabled | ShutMeanwhile | KeyInUse

  ghost predicate KeyConflict(c: R.Crypto, k: Codec, h: Hub, d: DeviceId, serverKey: string) {
    k.decode(serverKey).Some? && R.KeyTaken(h.relay, d, c.mac1Key(k.decode(serverKey).value))
  }

  function RegisteredRelay(c: R.Crypto, k: Codec, t: R.Table, d: DeviceId, cfg: DevCfg): R.Table {
    match k.decode(cfg.serverPublicKey)
    case Some(pk) => R.Registered(t, d, Unhex(cfg.secret), c.mac1Key(pk))
    case None => t
  }

  ghost function EnableOutcomeOf(c: R.Crypto, k: Codec, h: Hub, d: DeviceId, cfg: DevCfg, epoch: nat): EnableOutcome {
    if h.store.Epoch(d) != epoch then ShutMeanwhile
    else if KeyConflict(c, k, h, d, cfg.serverPublicKey) then KeyInUse
    else Enabled
  }

  ghost function EnableCommit(c: R.Crypto, k: Codec, h: Hub, d: DeviceId, cfg: DevCfg, epoch: nat, version: nat): Hub {
    if EnableOutcomeOf(c, k, h, d, cfg, epoch) == Enabled then
      Hub(h.store.(devices := h.store.devices[d := cfg.(dirty := h.store.Version(d) != version)]),
          RegisteredRelay(c, k, h.relay, d, cfg))
    else h
  }

  // ---- issuing ---------------------------------------------------------------------------

  datatype Reservation = NotEnabled | KeyAlreadyActive | TooMany | NoAddress | Reserved(pass: Pass, cfg: DevCfg)

  function Reserve(s: Store, d: DeviceId, t: nat, hours: nat, key: string, user: string, id: string, psk: string): Reservation {
    if d !in s.devices then NotEnabled
    else if exists p :: p in s.passes && p.device == d && Live(p, t) && p.publicKey == key then KeyAlreadyActive
    else if |LiveOf(s.passes, d, t)| >= MAX_LIVE_PER_DEVICE then TooMany
    else match Allocate(s.passes, d, t)
         case None => NoAddress
         case Some(address) => Reserved(Pass(id, d, user, key, psk, address, t + hours * 3600, None), s.devices[d])
  }

  function Reserving(s: Store, d: DeviceId, r: Reservation): Store {
    if r.Reserved? then s.(passes := s.passes + [r.pass]).PassesChanged(d) else s
  }

  datatype IssueOutcome = Granted | Withdrawn(takeBack: bool)

  function IssueOutcomeOf(s: Store, d: DeviceId, epoch: nat, pushed: bool, ownerKept: bool): IssueOutcome {
    if s.Epoch(d) != epoch || !ownerKept then Withdrawn(pushed) else Granted
  }

  function RevokeAt(ps: seq<Pass>, i: nat, now: nat): seq<Pass> {
    if i < |ps| then ps[i := RevokeIf(ps[i], true, now)] else ps
  }

  function IssueCommit(s: Store, d: DeviceId, passId: string, epoch: nat, version: nat, pushed: bool, ownerKept: bool, now: nat): Store {
    if s.Epoch(d) != epoch || !ownerKept then
      s.(passes := RevokeAt(s.passes, FindId(s.passes, passId, None, true), now))
    else if !pushed || s.Version(d) != version then s.Marked(d)
    else s
  }

  // ---- revoking --------------------------------------------------------------------------

  /** Some pass of this id on the device: the store half of a revoke goes ahead. */
  predicate Revocable(s: Store, d: DeviceId, id: string) {
    FindId(s.passes, id, Some(d), false) < |s.passes|
  }

  function RevokeNow(s: Store, d: DeviceId, id: string, now: nat): Store {
    if Revocable(s, d, id) then
      s.(passes := RevokeAt(s.passes, FindId(s.passes, id, Some(d), false), now)).PassesChanged(d)
    else s
  }

  // ---- the sweep ---------------------------------------------------------------------------

  function BumpEach(s: Store, ps: seq<Pass>): (r: Store)
    ensures r.devices == s.devices && r.passes == s.passes && r.epochs == s.epochs
    ensures forall d :: r.Version(d) >= s.Version(d)
    ensures forall p :: p in ps ==> r.Version(p.device) > s.Version(p.device)
    decreases |ps|
  {
    if |ps| == 0 then s else BumpEach(s.PassesChanged(ps[0].device), ps[1..])
  }

  function Dead(ps: seq<Pass>, now: nat): seq<Pass> {
    Filter(ps, (p: Pass) => !Keep(p, now))
  }

  /** The sweep's first locked section: long-dead passes go, and each moves its device's version. */
  function PruneStore(s: Store, now: nat): Store {
    BumpEach(s.(passes := KeepAll(s.passes, now)), Dead(s.passes, now))
  }

  datatype SweepOutcome = CaughtUp | NotReached | Overtaken | ShutDuringPush(takeBack: bool)

  function SweepOutcomeOf(s: Store, d: DeviceId, epoch: nat, version: nat, pushed: bool): SweepOutcome {
    if s.Epoch(d) != epoch then ShutDuringPush(pushed)
    else if !pushed then NotReached
    else if s.Version(d) != version then Overtaken
    else CaughtUp
  }

  function SweepCommit(s: Store, d: DeviceId, epoch: nat, version: nat, pushed: bool): Store {
    if SweepOutcomeOf(s, d, epoch, version, pushed).CaughtUp? && d in s.devices then
      s.(devices := s.devices[d := s.devices[d].(dirty := false)])
    else s
  }

  // ---- the hub object ------------------------------------------------------------------------

  /** The store's fields, changed in place under its lock; the relay keeps its own object. */
  class ExitHub {
    const relay: R.Relay
    const codec: Codec
    var devices: map<DeviceId, DevCfg>
    var passes: seq<Pass>
    var epochs: map<DeviceId, nat>
    var versions: map<DeviceId, nat>

    ghost function S(): Store
      reads this
    {
      Store(devices, passes, epochs, versions)
    }

    ghost function H(): Hub
      reads this, relay
    {
      Hub(S(), relay.T())
    }

    constructor (relay: R.Relay, codec: Codec)
      ensures this.relay == relay && this.codec == codec && S() == EMPTY_STORE
    {
      this.relay, this.codec := relay, codec;
      devices, passes, epochs, versions := map[], [], map[], map[];
    }

    method BumpVersion(d: DeviceId)
      modifies this`versions
      ensures S() == old(S()).PassesChanged(d)
    {
      versions := versions[d := (if d in versions then versions[d] else 0) + 1];
    }

    method MarkDirty(d: DeviceId)
      modifies this`devices
      ensures S() == old(S()).Marked(d)
    {
      if d in devices {
        devices := devices[d := devices[d].(dirty := true)];
      }
    }

    /** Returns how many of the device's passes were still unrevoked. */
    method RevokeEvery(d: DeviceId, now: nat) returns (n: nat)
      modifies this`passes
      ensures passes == RevokeAll(old(passes), d, now)
      ensures n == |Filter(old(passes), (p: Pass) => p.device == d && p.revokedAt.None?)|
    {
      n := 0;
      var was := passes;
      ghost var hit := (p: Pass) => p.device == d && p.revokedAt.None?;
      for i := 0 to |was|
        invariant |passes| == |was| == |old(passes)| && was == old(passes)
        invariant forall j | 0 <= j < i :: passes[j] == RevokeIf(was[j], was[j].device == d, now)
        invariant forall j | i <= j < |was| :: passes[j] == was[j]
        invariant n + |Filter(was[i..], hit)| == |Filter(was, hit)|
      {
        assert was[i..][0] == was[i] && was[i..][1..] == was[i + 1..];
        if passes[i].device == d && passes[i].revokedAt.None? {
          passes := passes[i := passes[i].(revokedAt := Some(now))];
          n := n + 1;
        }
      }
    }

    method SwitchOff(d: DeviceId, dropPasses: bool, now: nat) returns (wasEnabled: bool, n: nat)
      modifies this, relay
      ensures H() == AfterSwitchOff(old(H()), d, dropPasses, now)
      ensures wasEnabled == (d in old(devices))
      ensures dropPasses ==> n == |old(passes)| - |passes|
      ensures !dropPasses ==> n == |Filter(old(passes), (p: Pass) => p.device == d && p.revokedAt.None?)|
    {
      hide R.Removed, RevokeAll, Filter;
      epochs := epochs[d := (if d in epochs then epochs[d] else 0) + 1];
      relay.RemoveDevice(d);
      wasEnabled := d in devices;
      devices := devices - {d};
      BumpVersion(d);
      if dropPasses {
        var kept := DropAll(passes, d);
        n := |passes| - |kept|;
        passes := kept;
      } else {
        n := RevokeEvery(d, now);
      }
    }

    method CommitEnable(d: DeviceId, cfg: DevCfg, epoch: nat, version: nat) returns (r: EnableOutcome)
      modifies this`devices, relay
      ensures H() == EnableCommit(relay.crypto, codec, old(H()), d, cfg, epoch, version)
      ensures r == EnableOutcomeOf(relay.crypto, codec, old(H()), d, cfg, epoch)
    {
      if (if d in epochs then epochs[d] else 0) != epoch {
        return ShutMeanwhile;
      }
      match codec.decode(cfg.serverPublicKey) {
        case Some(pk) =>
          var other := relay.SetDevice(d, Unhex(cfg.secret), pk);
          if other.Some? {
            return KeyInUse;
          }
        case None =>
      }
      devices := devices[d := cfg.(dirty := (if d in versions then versions[d] else 0) != version)];
      return Enabled;
    }

    method ReservePass(d: DeviceId, t: nat, hours: nat, key: string, user: string, id: string, psk: string)
      returns (r: Reservation)
      modifies this`passes, this`versions
      ensures r == Reserve(old(S()), d, t, hours, key, user, id, psk)
      ensures S() == Reserving(old(S()), d, r)
    {
      if d !in devices {
        return NotEnabled;
      }
      if exists p :: p in passes && p.device == d && Live(p, t) && p.publicKey == key {
        return KeyAlreadyActive;
      }
      if |LiveOf(passes, d, t)| >= MAX_LIVE_PER_DEVICE {
        return TooMany;
      }
      match Allocate(passes, d, t)
      case None => return NoAddress;
      case Some(address) =>
        var pass := Pass(id, d, user, key, psk, address, t + hours * 3600, None);
        passes := passes + [pass];
        BumpVersion(d);
        return Reserved(pass, devices[d]);
    }

    method CommitIssue(d: DeviceId, passId: string, epoch: nat, version: nat, pushed: bool, ownerKept: bool, now: nat)
      returns (r: IssueOutcome)
      modifies this`passes, this`devices
      ensures S() == IssueCommit(old(S()), d, passId, epoch, version, pushed, ownerKept, now)
      ensures r == IssueOutcomeOf(old(S()), d, epoch, pushed, ownerKept)
    {
      var shut := (if d in epochs then epochs[d] else 0) != epoch;
      if shut || !ownerKept {
        var i := FindId(passes, passId, None, true);
        if i < |passes| {
          passes := passes[i := passes[i].(revokedAt := Some(now))];
        }
        return Withdrawn(pushed);
      }
      if !pushed || (if d in versions then versions[d] else 0) != version {
        MarkDirty(d);
      }
      return Granted;
    }

    /** None: the device has no such pass. Otherwise what the push needs. */
    method Revoke(d: DeviceId, id: string, now: nat) returns (r: Option<(Option<DevCfg>, seq<Pass>, nat)>)
      modifies this`passes, this`versions
      ensures S() == RevokeNow(old(S()), d, id, now)
      ensures r.Some? <==> Revocable(old(S()), d, id)
      ensures r.Some? ==> r.value == (if d in devices then Some(devices[d]) else None, passes, S().Version(d))
    {
      var i := FindId(passes, id, Some(d), false);
      if i >= |passes| {
        return None;
      }
      if passes[i].revokedAt.None? {
        passes := passes[i := passes[i].(revokedAt := Some(now))];
      }
      BumpVersion(d);
      return Some((if d in devices then Some(devices[d]) else None, passes, versions[d]));
    }

    method Prune(now: nat)
      modifies this`passes, this`versions
      ensures S() == PruneStore(old(S()), now)
    {
      var pruned := Dead(passes, now);
      passes := KeepAll(passes, now);
      ghost var goal := PruneStore(old(S()), now);
      for i := 0 to |pruned|
        invariant passes == KeepAll(old(passes), now) && devices == old(devices) && epochs == old(epochs)
        invariant BumpEach(S(), pruned[i..]) == goal
      {
        BumpVersion(pruned[i].device);
        assert pruned[i..][1..] == pruned[i + 1..];
      }
    }

    method CommitSweep(d: DeviceId, epoch: nat, version: nat, pushed: bool) returns (r: SweepOutcome)
      modifies this`devices
      ensures S() == SweepCommit(old(S()), d, epoch, version, pushed)
      ensures r == SweepOutcomeOf(old(S()), d, epoch, version, pushed)
    {
      if (if d in epochs then epochs[d] else 0) != epoch {
        return ShutDuringPush(pushed);
      }
      if !pushed {
        return NotReached;
      }
      if (if d in versions then versions[d] else 0) != version {
        return Overtaken;
      }
      if d in devices {
        devices := devices[d := devices[d].(dirty := false)];
      }
      return CaughtUp;
    }

    /** The locked half of `take_back`: true if a newer enable stands, which the sweep will re-push. */
    method TakeBack(d: DeviceId) returns (enabled: bool)
      modifies this`devices
      ensures S() == old(S()).Marked(d) && enabled == (d in old(devices))
    {
      enabled := d in devices;
      MarkDirty(d);
    }
  }
}

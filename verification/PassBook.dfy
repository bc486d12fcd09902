/**
 Passes and their bookkeeping (vpn.rs): which are live, which tunnel address a new one gets, and
 the peer list a push carries.
 */
module PassBook {
  import opened Bytes

  const MAX_LIVE_PER_DEVICE: nat := 20
  const PURGE_AFTER_S: nat := 7 * 24 * 3600
  const FIRST_HOST: nat := 2
  const LAST_HOST: nat := 254
  const TTL_CHOICES_H: set<nat> := {1, 8, 24, 72, 168}

  /** `address` is the N of 10.77.0.N; an empty `owner` is a pass issued with no identity. */
  datatype Pass = Pass(
    id: string,
    device: DeviceId,
    owner: string,
    publicKey: string,
    presharedKey: string,
    address: nat,
    expiresAt: nat,
    revokedAt: Option<nat>)

  datatype Status = Revoked | Expired | Active

  function StatusOf(p: Pass, now: nat): Status {
    if p.revokedAt.Some? then Revoked else if p.expiresAt <= now then Expired else Active
  }

  predicate Live(p: Pass, now: nat) {
    StatusOf(p, now) == Active
  }

  /** A pass belongs to the owner who issued it, and only while that owner has the device. */
  predicate Owned(p: Pass, owner: Option<string>) {
    p.owner == "" || owner == Some(p.owner)
  }

  /** Long dead: the sweep drops a pass a week after it was revoked or expired. */
  predicate Keep(p: Pass, now: nat) {
    Live(p, now)
    || (var since := if p.revokedAt.Some? then p.revokedAt.value else p.expiresAt;
        (if now >= since then now - since else 0) < PURGE_AFTER_S)
  }

  // ---- one device's passes ---------------------------------------------------------------

  function OfDevice(ps: seq<Pass>, d: DeviceId): seq<Pass> {
    Filter(ps, (p: Pass) => p.device == d)
  }

  function LiveOf(ps: seq<Pass>, d: DeviceId, now: nat): seq<Pass> {
    Filter(ps, (p: Pass) => p.device == d && Live(p, now))
  }

  // ---- allocation ------------------------------------------------------------------------

  function Used(ps: seq<Pass>, d: DeviceId, now: nat): set<nat> {
    set p | p in LiveOf(ps, d, now) :: p.address
  }

  function LowestFree(used: set<nat>, from: nat): (r: Option<nat>)
    decreases LAST_HOST + 1 - from
  {
    if from > LAST_HOST then None else if from !in used then Some(from) else LowestFree(used, from + 1)
  }

  function Allocate(ps: seq<Pass>, d: DeviceId, now: nat): Option<nat> {
    LowestFree(Used(ps, d, now), FIRST_HOST)
  }

  lemma {:induction false} LowestFreeIsLowest(used: set<nat>, from: nat)
    ensures var r := LowestFree(used, from);
            match r
            case Some(h) => from <= h <= LAST_HOST && h !in used && forall k | from <= k < h :: k in used
            case None => forall k | from <= k <= LAST_HOST :: k in used
    decreases LAST_HOST + 1 - from
  {
    if from <= LAST_HOST && from in used {
      LowestFreeIsLowest(used, from + 1);
    }
  }

  /** A live pass of the device holds address `k`. */
  ghost predicate Taken(ps: seq<Pass>, d: DeviceId, now: nat, k: nat) {
    exists p :: p in ps && p.device == d && Live(p, now) && p.address == k
  }

  lemma UsedIsTaken(ps: seq<Pass>, d: DeviceId, now: nat, k: nat)
    ensures k in Used(ps, d, now) <==> Taken(ps, d, now, k)
  {
    if k in Used(ps, d, now) {
      var p :| p in LiveOf(ps, d, now) && p.address == k;
    }
    if Taken(ps, d, now, k) {
      var p :| p in ps && p.device == d && Live(p, now) && p.address == k;
      assert p in LiveOf(ps, d, now);
    }
  }

  /** The lowest address of 10.77.0.2..254 no live pass of the device holds; None only if all are held. */
  lemma AllocateIsLowestFree(ps: seq<Pass>, d: DeviceId, now: nat)
    ensures match Allocate(ps, d, now)
            case Some(h) =>
              FIRST_HOST <= h <= LAST_HOST && !Taken(ps, d, now, h)
              && forall k | FIRST_HOST <= k < h :: Taken(ps, d, now, k)
            case None => forall k | FIRST_HOST <= k <= LAST_HOST :: Taken(ps, d, now, k)
  {
    LowestFreeIsLowest(Used(ps, d, now), FIRST_HOST);
    forall k: nat ensures k in Used(ps, d, now) <==> Taken(ps, d, now, k) {
      UsedIsTaken(ps, d, now, k);
    }
  }

  function Addresses(ps: seq<Pass>): set<nat> {
    set p | p in ps :: p.address
  }

  lemma {:induction false} AddressesBounded(ps: seq<Pass>)
    ensures |Addresses(ps)| <= |ps|
  {
    if |ps| > 0 {
      AddressesBounded(ps[1..]);
      assert ps == [ps[0]] + ps[1..];
      assert Addresses(ps) == Addresses(ps[1..]) + {ps[0].address};
    } else {
      assert Addresses(ps) == {};
    }
  }

  function Hosts(from: nat): (s: set<nat>)
    ensures forall k :: k in s <==> from <= k <= LAST_HOST
    decreases LAST_HOST + 1 - from
  {
    if from > LAST_HOST then {} else {from} + Hosts(from + 1)
  }

  lemma {:induction false} HostsCount(from: nat)
    requires from <= LAST_HOST + 1
    ensures |Hosts(from)| == LAST_HOST + 1 - from
    decreases LAST_HOST + 1 - from
  {
    if from <= LAST_HOST {
      HostsCount(from + 1);
      assert Hosts(from) == Hosts(from + 1) + {from};
    } else {
      assert Hosts(from) == {};
    }
  }

  /** Pigeonhole: fewer than 253 live passes cannot hold all addresses, so below the cap of 20 one is always free. */
  lemma AllocateSucceeds(ps: seq<Pass>, d: DeviceId, now: nat)
    requires |LiveOf(ps, d, now)| < LAST_HOST - FIRST_HOST + 1
    ensures Allocate(ps, d, now).Some?
  {
    var live := LiveOf(ps, d, now);
    LowestFreeIsLowest(Used(ps, d, now), FIRST_HOST);
    if Allocate(ps, d, now).None? {
      assert Used(ps, d, now) == Addresses(live);
      AddressesBounded(live);
      HostsCount(FIRST_HOST);
      SubsetSize(Hosts(FIRST_HOST), Addresses(live));
    }
  }

  // ---- what a push carries -------------------------------------------------------------------

  datatype Peer = Peer(publicKey: string, presharedKey: string, address: nat, expiresAt: nat)

  function PeerOf(p: Pass): Peer {
    Peer(p.publicKey, p.presharedKey, p.address, p.expiresAt)
  }

  /**
   The peer list `push` sends. Every pass of the device that is unrevoked, unexpired and its owner's
   (or nobody's) has a peer with its two keys, its address and its expiry, and every peer such a pass.
   */
  function Peers(ps: seq<Pass>, d: DeviceId, now: nat, owner: Option<string>): (r: seq<Peer>)
    ensures forall x :: x in r <==> exists p :: p in ps && p.device == d && Live(p, now) && Owned(p, owner) && PeerOf(p) == x
    ensures forall p | p in ps && p.device == d && p.revokedAt.None? && p.expiresAt > now && (p.owner == "" || owner == Some(p.owner)) ::
              exists x :: x in r && x.publicKey == p.publicKey && x.presharedKey == p.presharedKey
                          && x.address == p.address && x.expiresAt == p.expiresAt
    ensures forall x | x in r ::
              exists p :: p in ps && p.device == d && p.revokedAt.None? && p.expiresAt > now && (p.owner == "" || owner == Some(p.owner))
                          && x.publicKey == p.publicKey && x.presharedKey == p.presharedKey
                          && x.address == p.address && x.expiresAt == p.expiresAt
  {
    var r := PeerList(ps, d, now, owner);
    PeersCarryPasses(ps, d, now, owner, r);
    r
  }

  function PeerList(ps: seq<Pass>, d: DeviceId, now: nat, owner: Option<string>): (r: seq<Peer>)
    ensures forall x :: x in r <==> exists p :: p in ps && p.device == d && Live(p, now) && Owned(p, owner) && PeerOf(p) == x
  {
    if |ps| == 0 then []
    else
      var rest := PeerList(ps[1..], d, now, owner);
      assert forall p :: p in ps <==> p == ps[0] || p in ps[1..];
      if ps[0].device == d && Live(ps[0], now) && Owned(ps[0], owner) then
        assert forall x :: x in [PeerOf(ps[0])] + rest <==> x == PeerOf(ps[0]) || x in rest;
        [PeerOf(ps[0])] + rest
      else rest
  }

  lemma PeersCarryPasses(ps: seq<Pass>, d: DeviceId, now: nat, owner: Option<string>, r: seq<Peer>)
    requires forall x :: x in r <==> exists p :: p in ps && p.device == d && Live(p, now) && Owned(p, owner) && PeerOf(p) == x
    ensures forall p | p in ps && p.device == d && p.revokedAt.None? && p.expiresAt > now && (p.owner == "" || owner == Some(p.owner)) ::
              exists x :: x in r && x.publicKey == p.publicKey && x.presharedKey == p.presharedKey
                          && x.address == p.address && x.expiresAt == p.expiresAt
    ensures forall x | x in r ::
              exists p :: p in ps && p.device == d && p.revokedAt.None? && p.expiresAt > now && (p.owner == "" || owner == Some(p.owner))
                          && x.publicKey == p.publicKey && x.presharedKey == p.presharedKey
                          && x.address == p.address && x.expiresAt == p.expiresAt
  {
    forall p | p in ps && p.device == d && p.revokedAt.None? && p.expiresAt > now && (p.owner == "" || owner == Some(p.owner))
      ensures exists x :: x in r && x.publicKey == p.publicKey && x.presharedKey == p.presharedKey
                          && x.address == p.address && x.expiresAt == p.expiresAt
    {
      assert Live(p, now) && Owned(p, owner);
      assert PeerOf(p) in r;
    }
    forall x | x in r
      ensures exists p :: p in ps && p.device == d && p.revokedAt.None? && p.expiresAt > now && (p.owner == "" || owner == Some(p.owner))
                          && x.publicKey == p.publicKey && x.presharedKey == p.presharedKey
                          && x.address == p.address && x.expiresAt == p.expiresAt
    {
      var p :| p in ps && p.device == d && Live(p, now) && Owned(p, owner) && PeerOf(p) == x;
    }
  }

  // ---- revoking and dropping -------------------------------------------------------------

  function RevokeIf(p: Pass, hit: bool, now: nat): Pass {
    if hit && p.revokedAt.None? then p.(revokedAt := Some(now)) else p
  }

  /** Every pass of `d` revoked at `now` that was not already. */
  function RevokeAll(ps: seq<Pass>, d: DeviceId, now: nat): (r: seq<Pass>)
    ensures |r| == |ps| && forall i | 0 <= i < |ps| :: r[i] == RevokeIf(ps[i], ps[i].device == d, now)
  {
    seq(|ps|, i requires 0 <= i < |ps| => RevokeIf(ps[i], ps[i].device == d, now))
  }

  function DropAll(ps: seq<Pass>, d: DeviceId): seq<Pass> {
    Filter(ps, (p: Pass) => p.device != d)
  }

  function KeepAll(ps: seq<Pass>, now: nat): seq<Pass> {
    Filter(ps, (p: Pass) => Keep(p, now))
  }

  /** Index of the first pass with this id (and, with `device`, on that device); |ps| if none. */
  function FindId(ps: seq<Pass>, id: string, device: Option<DeviceId>, unrevoked: bool): (i: nat)
    ensures i <= |ps|
    ensures i < |ps| ==> ps[i].id == id && (device.Some? ==> ps[i].device == device.value) && (unrevoked ==> ps[i].revokedAt.None?)
    ensures forall j | 0 <= j < i :: !(ps[j].id == id && (device.Some? ==> ps[j].device == device.value) && (unrevoked ==> ps[j].revokedAt.None?))
  {
    if |ps| == 0 then 0
    else if ps[0].id == id && (device.Some? ==> ps[0].device == device.value) && (unrevoked ==> ps[0].revokedAt.None?) then 0
    else 1 + FindId(ps[1..], id, device, unrevoked)
  }
}

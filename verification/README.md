# HaiveControl hub: verified models

Dafny models of four parts of the hub and the properties they are relied on for. The classes and
methods work as the code does, on fields and arrays that change step by step; each is tied to a
specification, and the theorems are about the specifications over all inputs, runs and
interleavings. `dafny verify dfyconfig.toml` checks everything.

**VPN exit.** `ExitStore` has every section of `vpn.rs` that runs under the store lock, as a function
and as a method. `ExitProtocol` makes them steps of a protocol: enable, issue, revoke, sweep,
take-back, disable and shut-down each read, let go of the lock for a push, and commit, with every
interleaving of any number of operations, time passing, owners changing (each change in one step with
the exit's shut-down), relay traffic and restarts. `ExitShutdown`, `ExitRelay`, `PassLedger`, `ExitSteps`,
`ExitAgreement` and `ExitPasses` are the theorems; `ExitOperations` says what each operation reads,
sends and does next. A run is *orderly for a device* when the pushes that reach this device do not
overlap between snapshot and commit, its owner as an operation read it is still its owner when the
operation takes its snapshot, and no restart happens with an operation on it in flight; pushes that
reach nothing may land anywhere, and nothing is asked of other devices. Only the theorems of
`ExitAgreement` need that, each for its own device.

**UDP relay.** `RelayTable` has the routing table of `vpnrelay.rs` in place and as relations, `RelayCaps`
the counting behind its limits, `RelayRuns` the theorems over whole runs; `RelayDelivery` says in bytes
and seconds what is delivered, and to whom.

**Browser assets.** `X25519*` is x25519.js on limbs, against section 5 of RFC 7748 in `Field25519`;
`X25519Scalar` gives the clamped scalar as a number, and `X25519Curve` the multiples of a point that
the ladder computes. The `Qr*` modules, `Galois` and `Polynomials` are the encoder of qrcode.js from
text to modules: segments, padding, Reed-Solomon, interleaving and placement; `QrReader` reads the
symbol back by the standard's own conditions. `Lzw` and `LzwBits` are its GIF raster coder, and
`GifReader` is a decoder whose definition shares nothing with it.

**Credentials.** `Credentials` and `CredentialRuns` are the device secrets, enrollment tokens and tunnel
registry of `devicesecrets.rs` and `relay.rs`, on a hub with RELAY_TOKEN set; `CredentialHello` says exactly
when a hello is accepted, `CredentialQueues` what becomes of the requests behind a tunnel. `SecretFile`
and `SecretRuns` are the file replacement the secrets rest on.

## What was found

- The rollback of an issue is meant to find its pass revoked already. It does so where the run is
  orderly for the device. But the owner is read before the lock is taken: if the owner changes, and
  the exit is enabled again, between that read and the snapshot, the commit sees a different owner
  without a shut-down since, and revokes a pass without moving the version. `RollbackChangesExactly` says exactly when, for all
  runs, and `StaleOwnerHidesARevoke` gives a run that ends with the device holding the revoked pass
  and nothing marked for retry.
- A device secret deleted while its file cannot be saved is valid again after a restart, as the hub's
  own message warns, but only as long as nothing else is saved: any later deletion or issue that is
  saved, for whichever device, makes it final. `DeletionUndoneExactly` is the equivalence over all runs.
- Removing or dissolving a device deletes its secret but leaves its tunnel bound to it, unlike a
  revocation. That is the one way a tunnel's binding goes stale (`CredentialsAndOwners`); the secret no
  longer passes the gate, so nobody polls with it, but the id is then refused to every enrollment, its
  owner's included, until the hub restarts (`ForgottenIsLockedOut`).
- Generators of up to 254 check bytes have no zero coefficient, so the logarithms qrcode.js takes of
  their coefficients exist for every block size, not only for the sizes its table uses.

## How to read it

- SHA-256, HMAC, BLAKE2s and the base64 decoder of keys are uninterpreted function parameters.
  Secrets, pass ids and preshared keys are draws that never repeat; enrollment tokens and device
  secrets carry their prefixes.
- An address 10.77.0.N is its number N. Device ids are byte strings; bytes that are not UTF-8 match no
  registered id.
- The doubles of x25519.js are integers passed through `Dbl`, which demands the range a double holds
  exactly; `|0`, `^`, `&` and `>>` demand or produce 32-bit integers.
- A hole in an array of qrcode.js counts as 0, which is what its exclusive ors and shifts make of one.
- A map's iteration order is an arbitrary choice of elements.
- Rows that begin with "step fact" are lemmas about one step: those the theorems over runs and loops rest
  on, and those that pin a step's definition in plain terms, field by field and number by number.

## Model

| member | source | states |
|---|---|---|
| PassBook.AllocateIsLowestFree | crates/hub/src/vpn.rs:172-175 | `allocate` returns a host number of 2..254 that no live pass of the device holds, with every lower one held; none exactly when all are held |
| PassBook.AllocateSucceeds | crates/hub/src/vpn.rs:172-175 | with fewer than 253 live passes `allocate` finds an address |
| PassBook.Peers | crates/hub/src/vpn.rs:187-202 | the peer list of a push, field by field: a peer with the two keys, the address and the expiry of every unrevoked, unexpired pass of the device that its owner or nobody issued, and every peer such a pass |
| ExitStore.ExitHub.BumpVersion | crates/hub/src/vpn.rs:102-110 | a change of passes raises the device's version by one and touches no other |
| ExitStore.ExitHub.MarkDirty | crates/hub/src/vpn.rs:598-605 | marks the device for a retry, only while it is enabled |
| ExitStore.ExitHub.RevokeEvery | crates/hub/src/vpn.rs:427-447 | the loop of `switch_off` revokes each unrevoked pass of the device at `now` and counts them |
| ExitStore.ExitHub.SwitchOff | crates/hub/src/vpn.rs:427-447 | the locked section of `switch_off`: device gone from store and relay, epoch raised, passes revoked or dropped |
| ExitStore.ExitHub.CommitEnable | crates/hub/src/vpn.rs:382-404 | the locked commit of `enable_ep`: refused on an epoch moved or a server key of another device; otherwise registered, with `dirty` telling whether passes changed since |
| ExitStore.ExitHub.ReservePass | crates/hub/src/vpn.rs:482-512 | the locked reservation of `issue_ep`: not enabled, duplicate key, limit and address errors in the code's order, else the pass stored |
| ExitStore.ExitHub.CommitIssue | crates/hub/src/vpn.rs:514-539 | the locked commit of `issue_ep`: rollback after a shut-down or owner change, retry mark after a failed push |
| ExitStore.ExitHub.Revoke | crates/hub/src/vpn.rs:585-596 | `revoke` finds the pass by id and device, stamps it unless it is stamped already, and returns what the push needs |
| ExitStore.ExitHub.Prune | crates/hub/src/vpn.rs:240-252 | the sweep's purge drops exactly the passes dead for over a week and bumps the version of each one's device |
| ExitStore.ExitHub.CommitSweep | crates/hub/src/vpn.rs:262-285 | the sweep's commit clears the mark only for an unmoved epoch and version |
| ExitStore.ExitHub.TakeBack | crates/hub/src/vpn.rs:291-305 | `take_back` marks a device that is enabled again and tells one that is not to switch off |
| ExitShutdown.EpochHistory | crates/hub/src/vpn.rs:427-447 | between restarts a device's epoch never falls, and stays the same exactly when it was not shut down |
| ExitShutdown.ShutdownStands | crates/hub/src/vpn.rs:355-407 | in every interleaving from an empty store, a device is enabled only if some enable took its snapshot after the device's last shut-down |
| ExitShutdown.StaleCommitChangesNothing | crates/hub/src/vpn.rs:382-404 | step fact: an enable, issue or sweep commit that a shut-down overtook changes no device entry and no registration, and hands out nothing |
| ExitShutdown.GrantStands | crates/hub/src/vpn.rs:514-539 | a pass is handed out only if the device was not shut down since the pass was reserved |
| ExitRelay.StoreAndRelayAgree | crates/hub/src/vpn.rs:205-210 | whenever the lock is free a device is enabled in the store exactly when the relay has it, with the same HELLO secret through hex and back and the mac1 key of its server key, and no two devices share a mac1 key |
| ExitRelay.RegistrationStands | crates/hub/src/vpn.rs:382-404 | a device registered at the relay was enabled after its last shut-down |
| ExitRelay.RelayStepsAreTraffic | crates/hub/src/vpnrelay.rs:235-303 | step fact: datagrams and prunes at the relay are steps that leave every registration alone |
| PassLedger.NoAddressUnreachable | crates/hub/src/vpn.rs:480-512 | a reservation never ends in 'no free tunnel addresses' |
| PassLedger.LivePasses | crates/hub/src/vpn.rs:480-512 | in every reachable state a device has at most 20 live passes, with addresses in 2..254 and keys pairwise different, even when an issue read its time before it got the lock |
| ExitAgreement.NoLostRevoke | crates/hub/src/vpn.rs:240-285 | at any point of a run orderly for the device, whatever happens to others, where nothing is in flight to it: if it is on and not marked, it holds the store's secret, a peer with the keys, address and expiry of every live pass of its owner, no peer with those of a revoked pass, and nothing unexpired besides |
| ExitSteps.ClearingIsFounded | crates/hub/src/vpn.rs:262-285 | in every run, overlapping pushes included, `dirty` is cleared only by the end of an enable or sweep of that device whose push reached it, with epoch, version and pass changes still those of its snapshot; its passes are then the store's, but for any a rollback revoked |
| ExitAgreement.ClearingSawEveryPass | crates/hub/src/vpn.rs:262-285 | where the run is orderly for the device, a cleared mark rests on exactly the store's passes of it |
| ExitAgreement.RollbackFindsNothing | crates/hub/src/vpn.rs:514-524 | where the run is orderly for the issue's own device, the rollback changes no pass |
| ExitSteps.RollbackChangesExactly | crates/hub/src/vpn.rs:514-524 | in any run the rollback changes a pass exactly when the exit was not shut down since the snapshot, the owner is no longer the one read before it, and the pass is unrevoked; the version does not move |
| ExitStaleOwner.StaleOwnerHidesARevoke | crates/hub/src/vpn.rs:462-524 | a run, of requests with no identity, in which an owner change between an issue's owner read and its snapshot leaves the device with the keys of a revoked pass and no mark |
| ExitPasses.ReserveExactly | crates/hub/src/vpn.rs:480-512 | a pass is reserved exactly for an enabled device with fewer than 20 usable passes, none of them with the key |
| ExitPasses.ReservedPass | crates/hub/src/vpn.rs:500-508 | it is the caller's, under its key, usable until the hours asked have passed, on a free address of 2..254 |
| ExitPasses.GrantedPassIs | crates/hub/src/vpn.rs:457-540 | in every run a granted pass is the caller's, for its device and key, and usable at x exactly if x is before the request's time plus the hours asked |
| ExitPasses.PrunedExactly | crates/hub/src/vpn.rs:240-246 | the purge keeps a pass exactly while it is usable or was revoked, or else expired, less than 604800 s ago |
| ExitPasses.EnableKeepsSecret | crates/hub/src/vpn.rs:364-368 | an enabled device keeps its entry; a new one has the drawn secret in hex, its enabler and no mark |
| ExitPasses.RevocationIsFinal | crates/hub/src/vpn.rs:585-596 | in every run, once a revoke found a pass no pass of that id is ever unrevoked again |
| ExitPasses.WithdrawnIsOver | crates/hub/src/vpn.rs:514-530 | in every run, an issue that is not granted leaves no unrevoked pass of its id, then or later |
| ExitPasses.ShutdownEndsPasses | crates/hub/src/vpn.rs:427-447 | in every run, an unrevoked pass was reserved after the device's last shut-down |
| ExitPasses.SwitchedOffExactly | crates/hub/src/vpn.rs:427-447 | step fact: a disable stamps exactly the device's unrevoked passes, the other shut-downs drop exactly the device's passes; its entry goes, no other |
| ExitPasses.RevokedExactly | crates/hub/src/vpn.rs:585-596 | step fact: a revoke stamps exactly the unrevoked pass of that id on that device |
| ExitPasses.SweepCommitsExactly | crates/hub/src/vpn.rs:262-285 | step fact: the mark is cleared exactly for a push that was answered with epoch and version unmoved |
| ExitPasses.IssueCommitsExactly | crates/hub/src/vpn.rs:514-539 | step fact: granted exactly if not shut down since and the owner kept; marked exactly if besides the push failed or the version moved |
| ExitPasses.EnableCommitsExactly | crates/hub/src/vpn.rs:382-404 | step fact: on exactly if not shut down since and no other device has the key; marked exactly if the version moved |
| ExitOperations.SnapshotIsTheStore | crates/hub/src/vpn.rs:364-368 | step fact: what an enable, issue or revoke takes out of its locked section is the store as that section leaves it, and when it takes anything |
| ExitOperations.BeginsWithOwner | crates/hub/src/vpn.rs:363 | step fact: the owner is read when the request begins |
| ExitOperations.SweepsTheMarked | crates/hub/src/vpn.rs:240-255 | step fact: a sweep lists exactly the marked devices, with the store as its purge left it |
| ExitOperations.SweepGoesOn | crates/hub/src/vpn.rs:256-261 | step fact: it skips a device exactly if that was shut down since, and reads the owner just before the push |
| ExitOperations.PushLeaves | crates/hub/src/vpn.rs:187-202 | step fact: a push leaves on its device the snapshot's secret and, field by field, exactly the peers of the snapshot's live passes, and changes no other device |
| ExitOperations.DevicesChangeOnlyByPush | crates/hub/src/vpn.rs:187-202 | step fact: a device's configuration changes by a push to it alone, or goes when it is told to disable |
| ExitOperations.RevokeMarks | crates/hub/src/vpn.rs:563-580 | step fact: a revoke marks the entry exactly if its push failed or passes changed since |
| ExitOperations.RefusedPushIsTakenBack | crates/hub/src/vpn.rs:291-305 | an operation is about to take its push back exactly from the commit or owner check that refused it until it does or the hub restarts |
| ExitOperations.TakesBack | crates/hub/src/vpn.rs:291-305 | step fact: the entry is marked if the exit is on again; otherwise the device is still to be told |
| ExitOperations.TellsTheDevice | crates/hub/src/vpn.rs:291-305 | step fact: and stays so until it is told |
| ExitOperations.RestartKeeps | crates/hub/src/vpn.rs:214-229 | step fact: a restart keeps entries and passes, forgets what was in flight, and registers exactly the entries with a key |
| Bytes.CompareConstantTime | crates/hub/src/vpnrelay.rs:100-103 | the constant-time comparison is equality |
| Bytes.UnhexHex | crates/hub/src/vpn.rs:161-167 | `unhex` inverts `hex` |
| Bytes.HexAt | crates/hub/src/vpn.rs:161-163 | two lower-case digits for each byte, the high one first |
| RelayTable.DecodeEncode | crates/hub/src/vpnrelay.rs:119-148 | decoding an encoded DATA frame gives back client and payload |
| RelayTable.EncodeDecode | crates/hub/src/vpnrelay.rs:119-148 | a frame that decodes is the encoding of what it decodes to |
| RelayTable.VerifyHelloExact | crates/hub/src/vpnrelay.rs:150-163 | a HELLO is read as (id, time) exactly when it is the frame that registered device would have made for that time |
| RelayTable.Relay.MakeRoom | crates/hub/src/vpnrelay.rs:206-220 | a bucket at its cap loses its stalest unanswered or expired session, whatever the map's order; false when it has none |
| RelayTable.Relay.Admit | crates/hub/src/vpnrelay.rs:223-229 | room for a newcomer in its IP's, its device's and the whole table's bucket, in that order, stopping at the first refusal |
| RelayTable.Relay.RouteHello | crates/hub/src/vpnrelay.rs:236-256 | an authentic, fresh, later HELLO updates its device and is answered; anything else changes nothing |
| RelayTable.Relay.RouteData | crates/hub/src/vpnrelay.rs:257-276 | a device's DATA reaches only a client pinned to it and still alive, and marks it answered |
| RelayTable.Relay.Target | crates/hub/src/vpnrelay.rs:277-287 | a client's initiation names the one device its mac1 matches; other packets the device it is pinned to |
| RelayTable.Relay.RouteClient | crates/hub/src/vpnrelay.rs:277-303 | a client packet keeps or admits its session and goes to the device's learned address |
| RelayTable.Relay.RouteIn | crates/hub/src/vpnrelay.rs:235-303 | one datagram does what the routing relation allows and nothing else; what that is in bytes and seconds the RelayDelivery rows say |
| RelayTable.Relay.Prune | crates/hub/src/vpnrelay.rs:199-204 | drops exactly the expired sessions |
| RelayTable.Relay.SetDevice | crates/hub/src/vpnrelay.rs:308-318 | registers or updates a device, its learned address kept, unless another device has its key, which is then named |
| RelayTable.Relay.RemoveDevice | crates/hub/src/vpnrelay.rs:320-325 | removes a device with all its sessions |
| RelayCaps.Pigeonhole | crates/hub/src/vpnrelay.rs:43-45 | more than c keys per class times the number of classes cannot be: the counting behind the caps |
| RelayCaps.FullTableIsBroad | crates/hub/src/vpnrelay.rs:206-229 | a full table within its caps spans at least 16 devices and 64 IPs |
| RelayCaps.AdmittedRoom | crates/hub/src/vpnrelay.rs:223-229 | admission leaves a free place in each of the newcomer's three buckets and keeps every cap |
| RelayCaps.AtMostTwo | crates/hub/src/vpnrelay.rs:206-229 | one admission evicts at most two sessions |
| RelayCaps.FloodIsolation | crates/hub/src/vpnrelay.rs:206-229 | every session a newcomer displaces was the stalest unanswered or expired one, in the table before, of a full bucket of the newcomer's; if its IP or device bucket is full every victim is in one of those two; an eviction outside them needs a table of 16 devices and 64 IPs |
| RelayCaps.RefusedOnlyByTheLiving | crates/hub/src/vpnrelay.rs:206-229 | a newcomer is refused only by a bucket full of answered, unexpired sessions |
| RelayRuns.ReachableTables | crates/hub/src/vpnrelay.rs:206-229 | every reachable table keeps the caps of 4096, 256 and 64, and every session names a registered device |
| RelayRuns.DatagramFloodIsolation | crates/hub/src/vpnrelay.rs:235-303 | in every run, a datagram displaces at most two other sessions, each the stalest unanswered or expired one of a full bucket its own session would join, within the same limits |
| RelayDelivery.DataFrameBytes | crates/hub/src/vpnrelay.rs:119-130 | a DATA frame in bytes: F0 03, family 4 or 6, address, port with its high byte first, payload |
| RelayDelivery.StampBytes | crates/hub/src/vpnrelay.rs:150-163 | a time stamp is eight bytes, the highest first |
| RelayDelivery.PinnedPacketForwarded | crates/hub/src/vpnrelay.rs:277-303 | a packet that begins with 2, 3 or 4 and three zeros, from a client heard within 180 s, refreshes its session, changes nothing else, and reaches the pinned device if that is live |
| RelayDelivery.AdmittedExactly | crates/hub/src/vpnrelay.rs:206-229 | admission succeeds exactly if each of the newcomer's three buckets, in the table before, has fewer than 64, 256 and 4096 sessions or one unanswered or silent for 180 s |
| RelayDelivery.InitiationForwarded | crates/hub/src/vpnrelay.rs:277-303 | an initiation that the mac1 of one live device matches pins the client to it, heard now, and reaches it, exactly if the client was pinned there or has room; otherwise nothing is sent |
| RelayDelivery.ClientPacketsDelivered | crates/hub/src/vpnrelay.rs:277-303 | so in every run: client packets reach the device they are for, framed so that they read back |
| RelayDelivery.AnswersDelivered | crates/hub/src/vpnrelay.rs:257-276 | a device's payload goes to the client exactly if it is pinned to that device and was heard within 180 s; first byte 2 or 4 marks it answered |
| RelayDelivery.HelloTakenExactly | crates/hub/src/vpnrelay.rs:236-256 | a device's own HELLO is taken exactly if its stamp is later than the last and within 120 s of the clock; then the address is where it came from and the ACK goes there |
| RelayDelivery.PrunedExactly | crates/hub/src/vpnrelay.rs:199-204 | step fact: a prune keeps exactly the answered sessions heard within 180 s and the others heard within 10 s |
| RelayDelivery.RegisteredExactly | crates/hub/src/vpnrelay.rs:308-318 | step fact: a registration sets secret and key, keeps what was learned, and is refused exactly for another device's key |
| RelayDelivery.RemovedExactly | crates/hub/src/vpnrelay.rs:320-325 | step fact: a removal takes the device and exactly its sessions |
| RelayDelivery.EstablishedClientsSurvive | crates/hub/src/vpnrelay.rs:65-69 | a client that the device has answered and that sends it a packet at least every 180 s stays in the table, pinned and answered, through every run of other traffic, its own new handshakes with that device, prunes and other devices' changes; its silence counts from its last packet |
| RelayRuns.EstablishedClientsSurvive | crates/hub/src/vpnrelay.rs:65-69 | the same told by the table: an answered session never silent for 180 s stays answered and pinned |
| RelayRuns.NoReflection | crates/hub/src/vpnrelay.rs:235-303 | a payload to a client goes to an address that itself initiated to this device and spoke within 180 s, for a datagram from the address of the device's latest HELLO |
| RelayRuns.OtherOutputs | crates/hub/src/vpnrelay.rs:235-303 | every other packet out is the ACK of a HELLO it took or a client's packet framed to a live device |
| RelayRuns.HelloTimesIncrease | crates/hub/src/vpnrelay.rs:236-256 | accepted HELLO time stamps of a device strictly increase between its removals |
| X25519.Carry | crates/hub/assets/x25519.js:28-37 | one carry pass keeps the number modulo 2^256, limbs as digits, with what overflowed returned 38-fold to the lowest limb; no double beyond 2^53 |
| X25519.TwoCarriesReduce | crates/hub/assets/x25519.js:28-37 | two carries bring limbs up to 2^47 to [0, 65535], the lowest within 38 of it, with the same field element |
| X25519.Select | crates/hub/assets/x25519.js:39-46 | exchanges two limb vectors exactly when the bit is 1, by 32-bit masks |
| X25519.Add | crates/hub/assets/x25519.js:78-81 | limbs of the sum in the field, small enough to multiply |
| X25519.Sub | crates/hub/assets/x25519.js:83-86 | limbs of the difference in the field, small enough to multiply |
| X25519.Convolve | crates/hub/assets/x25519.js:88-95 | the double loop forms the 31 limbs of the exact product |
| X25519.Mul | crates/hub/assets/x25519.js:88-102 | for limbs up to 2^18, the field product in reduced limbs, aliasing allowed, every double exact |
| X25519.Square | crates/hub/assets/x25519.js:104-106 | the field square, in reduced limbs |
| X25519Pack.SubtractPrime | crates/hub/assets/x25519.js:58-66 | the borrow loop subtracts 2^255-19 and reports whether the number was below it |
| X25519Pack.Pack | crates/hub/assets/x25519.js:48-70 | 32 bytes, the little-endian representative in [0, 2^255-19), for every vector `M` returns |
| X25519Pack.Unpack | crates/hub/assets/x25519.js:72-76 | the u-coordinate of RFC 7748: the little-endian number modulo 2^255 |
| X25519Pack.Invert | crates/hub/assets/x25519.js:108-117 | raises to 2^255-21, bits 2 and 4 skipped |
| X25519Ladder.StepRearranged | crates/hub/assets/x25519.js:138-157 | the code's order of operations gives the four coordinates of the ladder step of RFC 7748 |
| X25519Ladder.StepInPlace | crates/hub/assets/x25519.js:138-157 | the arithmetic of a round, in place on six limb vectors |
| X25519Ladder.RoundRefines | crates/hub/assets/x25519.js:136-160 | step fact: swapping before and after each step refines the pending swap of RFC 7748 |
| X25519Ladder.Climb | crates/hub/assets/x25519.js:135-160 | 255 rounds compute the ladder loop of RFC 7748 |
| X25519Ladder.Clamp | crates/hub/assets/x25519.js:124-126 | the clamped scalar as a number: 2^254, plus the key modulo 2^254, minus the key modulo 8 |
| X25519Scalar.ClampedValue | crates/hub/assets/x25519.js:124-126 | the bytes with the lowest three bits of the first cleared and the top two of the last set to 01 are that number |
| X25519Scalar.ClampedScalar | crates/hub/assets/x25519.js:124-126 | it is a multiple of 8 in [2^254, 2^255) |
| X25519Ladder.BasePointIsNine | crates/hub/assets/x25519.js:24 | the base point's bytes are the number 9 |
| X25519Curve.StepOnCurve | crates/hub/assets/x25519.js:138-157 | a ladder step doubles one point and adds two of known difference, by the formulas of the curve with coefficient 486662 |
| X25519Curve.LadderOnCurve | crates/hub/assets/x25519.js:135-160 | the loop computes the k-fold and the (k+1)-fold of the point, for every scalar of at most n bits |
| X25519Curve.ResultIsQuotient | crates/hub/assets/x25519.js:161-170 | X25519 is the x-coordinate of the scalar's multiple, its fraction divided out: the result times z is x wherever z^(P-1) is 1, and 0 where P divides z |
| X25519Ladder.ScalarMult | crates/hub/assets/x25519.js:119-170 | the bytes are X25519(n, p) of RFC 7748, section 5, scalar and u-coordinate read as numbers |
| X25519Ladder.X25519Base | crates/hub/assets/x25519.js:172-182 | X25519(n, 9), or an error exactly for a key that is not 32 bytes long |
| X25519Ladder.X25519Unique | crates/hub/assets/x25519.js:119-170 | the specification admits one result, below 2^255-19 |
| Galois.DoublingIs | crates/hub/assets/qrcode.js:1139-1151 | alpha times a byte is its double, less 256 and with 29 exclusive-ored in when that is 256 or more |
| Galois.Distributes | crates/hub/assets/qrcode.js:1137-1185 | the product distributes over exclusive or |
| Galois.AlphaAdds | crates/hub/assets/qrcode.js:1137-1185 | powers of alpha multiply by adding exponents |
| Galois.SmallPowersDiffer | crates/hub/assets/qrcode.js:1137-1185 | alpha has order 255 |
| Galois.LogExists | crates/hub/assets/qrcode.js:1137-1185 | every nonzero byte is a power of alpha |
| QrMath.Tables.constructor | crates/hub/assets/qrcode.js:1139-1154 | the two tables are the powers of alpha and a logarithm of every nonzero byte |
| QrMath.Tables.Glog | crates/hub/assets/qrcode.js:1158-1165 | throws on 0 alone; otherwise a logarithm below 255 |
| QrMath.Tables.Gexp | crates/hub/assets/qrcode.js:1167-1178 | alpha to any integer exponent, modulo 255 |
| Polynomials.EvalProduct | crates/hub/assets/qrcode.js:1215-1226 | a product takes at a point the product of the values |
| Polynomials.GeneratorRoots | crates/hub/assets/qrcode.js:971-977 | the generator of n check bytes vanishes at alpha^0 to alpha^(n-1) |
| Polynomials.GeneratorNonzero | crates/hub/assets/qrcode.js:971-977 | a generator of up to 254 check bytes has no zero coefficient |
| QrPolynomial.NewPolynomial | crates/hub/assets/qrcode.js:1193-1203 | leading zeros dropped, `shift` places appended |
| QrPolynomial.Multiply | crates/hub/assets/qrcode.js:1215-1226 | the polynomial product; throws exactly when a coefficient is 0 |
| QrPolynomial.Mod | crates/hub/assets/qrcode.js:1228-1247 | ends, and leaves a remainder shorter than the divisor that differs from the dividend by a multiple of it; throws exactly when a long enough dividend meets a zero coefficient |
| QrPolynomial.ErrorCorrectPolynomial | crates/hub/assets/qrcode.js:971-977 | the generator; never throws below 255 check bytes |
| QrBlocks.CheckBytes | crates/hub/assets/qrcode.js:297-305 | data followed by the check bytes is a multiple of the generator, for every data block |
| QrBlocks.CodewordVanishes | crates/hub/assets/qrcode.js:297-305 | such a codeword vanishes at alpha^0 to alpha^(n-1) |
| QrBlocks.CheckBytesUnique | crates/hub/assets/qrcode.js:297-305 | no other check bytes would do |
| QrBlocks.SplitAndCheck | crates/hub/assets/qrcode.js:282-306 | consecutive slices of the buffer, each with its check bytes |
| QrBlocks.WriteColumns | crates/hub/assets/qrcode.js:316-332 | the interleaving loops fill the array column by column |
| QrBlocks.CreateBytes | crates/hub/assets/qrcode.js:272-335 | all data interleaved, then all check bytes; succeeds whenever no block has over 254 check bytes |
| QrInterleave.InterleaveRoundTrip | crates/hub/assets/qrcode.js:316-332 | every block is read back from the interleaving, whatever the sizes |
| QrInterleave.EqualBlocks | crates/hub/assets/qrcode.js:316-332 | among blocks of one length, byte i of block r stands at i times the number of blocks plus r |
| QrBlocks.CodewordsRoundTrip | crates/hub/assets/qrcode.js:272-335 | de-interleaving the codewords gives the buffer and the check bytes back |
| QrBits.BitBuffer.PutBit | crates/hub/assets/qrcode.js:1591-1603 | appends one bit |
| QrBits.BitBuffer.Put | crates/hub/assets/qrcode.js:1581-1585 | appends the low bits of a number, highest first |
| QrBits.BitBuffer.GetAt | crates/hub/assets/qrcode.js:1576-1579 | reads one bit |
| QrSegments.WriteNumeric | crates/hub/assets/qrcode.js:1627-1660 | digits in groups of 3, 2 or 1; throws exactly on a character that is no digit |
| QrSegments.WriteAlphaNum | crates/hub/assets/qrcode.js:1684-1700 | characters in pairs; throws exactly on one outside the 45 |
| QrSegments.WriteOctets | crates/hub/assets/qrcode.js:1748-1752 | eight bits for each byte |
| QrSegments.LegalText | crates/hub/assets/qrcode.js:1636-1720 | numbers are written exactly if all characters are in 0123456789, alphanumeric text exactly if all are among the 45 of the standard |
| QrSegments.WidthsAgree | crates/hub/assets/qrcode.js:979-1026 | the count field is as wide as the reader of ISO/IEC 18004, table 3, takes it to be |
| QrSegments.SegmentRoundTrip | crates/hub/assets/qrcode.js:343-348 | a segment whose length fits its count field is read back from its bits |
| QrSegments.StreamRoundTrip | crates/hub/assets/qrcode.js:343-348 | so is any list of them, up to the terminator or the end |
| QrData.Pad | crates/hub/assets/qrcode.js:364-386 | terminator, byte alignment and pad bytes fill the capacity exactly |
| QrData.PaddedEnds | crates/hub/assets/qrcode.js:364-386 | step fact: padding keeps the bits in front, and what follows them reads as the end |
| QrData.PaddingInBytes | crates/hub/assets/qrcode.js:364-386 | after the segments: zeros to a whole byte, four of them if they fit, then the bytes 236 and 17 by turns |
| QrData.CreateData | crates/hub/assets/qrcode.js:337-389 | throws exactly on a version above 40, an illegal character or an overflow; otherwise the codewords of the padded stream |
| QrData.CodewordsParseBack | crates/hub/assets/qrcode.js:337-389 | from the codewords back to the segments that went in |
| QrPlacement.PathVisitsOnce | crates/hub/assets/qrcode.js:221-270 | for an odd size the zigzag visits every module outside column 6 once |
| QrPlacement.FillReadsBack | crates/hub/assets/qrcode.js:221-270 | free modules read back in order, unmasked, are the data bits |
| QrPlacement.QrCode.MapData | crates/hub/assets/qrcode.js:221-270 | ends, and fills the free modules along the zigzag; throws on a bad mask pattern |
| QrPlacement.PlacementRoundTrip | crates/hub/assets/qrcode.js:221-270 | no reserved module changes, none stays free, and reading back gives the data followed by zeros |
| QrReader.PathAt | crates/hub/assets/qrcode.js:223-268 | module k of the zigzag in closed form: pairs of columns from the right, column 6 passed over, first upwards, the right module first |
| QrReader.MasksAgree | crates/hub/assets/qrcode.js:945-968 | the masks are the conditions of ISO/IEC 18004, section 7.8, table 10 |
| QrReader.ChequerPatterns | crates/hub/assets/qrcode.js:949-952 | pattern 0 is set at (0, 0) and changes with every step right or down; pattern 1 depends on the row alone and alternates from set |
| QrReader.ThirdPatterns | crates/hub/assets/qrcode.js:953-956 | pattern 2 is set in columns 0, 3, 6 and on; pattern 3 on every third diagonal |
| QrReader.BlockPattern | crates/hub/assets/qrcode.js:957-958 | pattern 4 is a chequer of blocks two high and three wide |
| QrReader.ProductPatterns | crates/hub/assets/qrcode.js:959-964 | patterns 5, 6 and 7 by the product of row and column modulo 6 and 3 and the parity of the sum |
| QrReader.SymbolReadsBack | crates/hub/assets/qrcode.js:221-270 | a reader with its own positions and masks, taking a module's bit as a number, finds bit k of the codewords in free module k, the highest of a byte first, and light beyond |
| LzwBits.BitOutput.Write | crates/hub/assets/qrcode.js:2105-2121 | appends the bits of a code, lowest first; 'length over' exactly when it does not fit |
| LzwBits.BitOutput.Flush | crates/hub/assets/qrcode.js:2123-2127 | the last bits go out, padded |
| Lzw.Table.Add | crates/hub/assets/qrcode.js:2201-2207 | the next code for a new string; throws exactly on one that is there |
| Lzw.StaysInUse | crates/hub/assets/qrcode.js:2171-2178 | step fact: the dictionary keeps distinct strings and room for its codes, with widths of 3 to 12 |
| Lzw.CodePixels | crates/hub/assets/qrcode.js:2153-2187 | the main loop writes the codes of the pixels; neither 'dup key' nor 'length over' is ever thrown |
| Lzw.Raster | crates/hub/assets/qrcode.js:2132-2192 | clear code, codes, end code, flushed |
| GifReader.DecodesCoded | crates/hub/assets/qrcode.js:2153-2184 | a GIF89a decoder of its own, one string behind, reads every code back, the code of a string still being added included |
| GifReader.RasterRoundTrip | crates/hub/assets/qrcode.js:2132-2192 | that decoder shows the pixels of the raster, until their number is out |
| SecretFile.Directory.ReplaceSecret | crates/hub/src/secretfile.rs:143-178 | alone: success exactly when no call fails and the temporary name is free; then the target is the whole content, synced; otherwise as it was; no temporary file either way |
| SecretRuns.TargetIsWhole | crates/hub/src/secretfile.rs:143-178 | in every interleaving of writers, readers, killed processes and crashes, a secret once there stays, wholly the first content or one write's that got to its rename |
| SecretRuns.ReadersSeeOneWrite | crates/hub/src/secretfile.rs:126-139 | a reader never holds a mixture of two contents |
| SecretRuns.OnlyRenamesMoveTheTarget | crates/hub/src/secretfile.rs:152-166 | nothing but a rename, or a crash, changes what is seen at the target |
| SecretRuns.FailedWritesRenameNothing | crates/hub/src/secretfile.rs:167-170 | a write that returned an error never renamed |
| SecretRuns.SyncedWriteSurvives | crates/hub/src/secretfile.rs:171-176 | after the directory sync, what readers see stays the same through any number of crashes until another rename succeeds |
| SecretRuns.NoTempRemains | crates/hub/src/secretfile.rs:167-170 | with no crash and every removal working, no temporary file is left once all writes returned |
| Credentials.Registry.MintSecret | crates/hub/src/devicesecrets.rs:111-127 | issues a secret, or puts back what was there when the save fails; refuses another owner's id |
| Credentials.Registry.RemoveEntry | crates/hub/src/devicesecrets.rs:130-141 | gone from memory at once, from disk only if saved |
| Credentials.Registry.Register | crates/hub/src/relay.rs:191-222 | a new tunnel is bound to the caller's hash; a bound one moves only with proof |
| Credentials.Registry.RebindTunnel | crates/hub/src/relay.rs:323-331 | re-binds a tunnel that exists |
| Credentials.Registry.HandleHello | crates/hub/src/devicesecrets.rs:198-290 | the whole hello: gate, both kinds of token, takeover checks, mint, owner record; when which answer is given the CredentialHello rows say |
| Credentials.Registry.Revoke | crates/hub/src/devicesecrets.rs:296-311 | deletes the secret and drops the tunnel it was bound to |
| Credentials.Registry.RotateToken | crates/hub/src/main.rs:2183-2203 | every token of the owner goes, with exactly the tunnels bound to them |
| CredentialHello.EnrollmentExactly | crates/hub/src/devicesecrets.rs:198-290 | a hello with an enrollment token is accepted exactly if nothing gives the id to another owner and it has no tunnel, or one bound to this token, or a secret is asked for that the owner has already; answered with a secret exactly if one was asked for, drawn and saved; and what it leaves |
| CredentialHello.SecretHelloExactly | crates/hub/src/devicesecrets.rs:198-234 | a hello with a device secret is accepted exactly if it is the one stored for the id and the payload registers that id; and what it leaves |
| CredentialQueues.RotatedExactly | crates/hub/src/main.rs:2183-2203 | step fact: exactly the owner's tokens go, with exactly the tunnels bound to the hash of one of them |
| CredentialQueues.RotationIsFinal | crates/hub/src/main.rs:2183-2203 | in every run, a token rotated out enrolls, polls and answers nothing any more, unless the same string is drawn again |
| CredentialQueues.RevokedExactly | crates/hub/src/devicesecrets.rs:296-311 | step fact: a revocation takes the secret and, if there was one, the tunnel, and nothing else |
| CredentialQueues.ServedExactly | crates/hub/src/relay.rs:272-298 | step fact: a poll is served, an answer taken, exactly for a valid credential that the tunnel is bound to, with the oldest request waiting, or the request still open |
| CredentialQueues.RequestsInOrder | crates/hub/src/relay.rs:272-288 | in every run, while a tunnel stands, requests are handed out in the order of asking, none left out and none twice |
| CredentialQueues.AnsweredOnce | crates/hub/src/relay.rs:290-320 | in every run, while a tunnel stands, the answer to a request is taken once |
| CredentialRuns.RefusedHelloChangesNothing | crates/hub/src/devicesecrets.rs:198-290 | step fact: a refused hello changes nothing |
| CredentialRuns.MintMeetsNoOtherOwner | crates/hub/src/devicesecrets.rs:236-283 | step fact: no hello that gets as far as its mint is refused there for another owner's secret |
| CredentialRuns.AcceptedHello | crates/hub/src/devicesecrets.rs:198-290 | step fact: an accepted hello registers its id under its own credential's owner, who was the owner if there was one |
| CredentialRuns.SecretsOnDisk | crates/hub/src/devicesecrets.rs:119-127 | in every run, every secret in memory is on disk |
| CredentialRuns.CredentialsAndOwners | crates/hub/src/main.rs:2048-2056 | in every run each tunnel is bound to the hash of a credential valid now, of the id's owner, except exactly where its device was forgotten under it and the tunnel neither dropped nor bound again since; secret, saved secret and row name that owner |
| CredentialRuns.ForgottenIsLockedOut | crates/hub/src/main.rs:2048-2056 | a device forgotten while its tunnel is bound to its secret is refused every hello, its owner's too, until the hub restarts |
| CredentialRuns.OwnedForGood | crates/hub/src/devicesecrets.rs:189-202 | an owned id never changes owner |
| CredentialRuns.PollsAreTheOwners | crates/hub/src/relay.rs:272-298 | requests are handed out and answered only for a credential of the id's owner (or a SHA-256 collision with one) |
| CredentialRuns.DeletionUndoneExactly | crates/hub/src/devicesecrets.rs:130-141 | in every run, a deleted secret comes back exactly if the hub restarts before any save has worked since, its own or another id's |
| CredentialRuns.RevocationStands | crates/hub/src/devicesecrets.rs:130-141 | up to the next restart or issue a revoked or forgotten secret is gone from memory, and from disk exactly if some save has worked since |
| CredentialRuns.UnsavedRevocationReturns | crates/hub/src/devicesecrets.rs:130-141 | after the first restart it verifies again exactly if none has |

## Left out

- Sockets, threads, HTTP, JSON text and the dashboard; a push is a step that reaches the device or not.
- Saves of the VPN store and of owner overrides are taken to succeed; those of device secrets may fail.
- A push that a device applies after the hub gave up waiting for it.
- ExitAgreement.NoLostRevoke: not claimed when pushes that reach this device overlap (two first enables included), which would need the device's own order of application; for a restart with an operation on it in flight; nor for an owner change between an owner read and its snapshot, where it is false.
- That the device itself is off after a shut-down: `take_back` is best effort and `shut_down` does not contact it.
- Pass names, creation times, statistics and the text of client configurations.
- IPv6 scope and flow labels of socket addresses; logging.
- Overlapping views of one typed array in x25519.js: its three 16-limb views are separate arrays, and the dead copies of b and d are omitted. The elliptic-curve group law and cryptographic strength.
- X25519Curve.ResultIsQuotient: takes z^(P-1) = 1 as a condition, which Fermat's little theorem gives for every z that the prime P does not divide; that 2^255-19 is prime is not proved.
- The table of block sizes and the version search of qrcode.js: any list of blocks is allowed. Kanji segments, fixed patterns, mask scoring, rendering and the GIF container.
- QrPolynomial.Mod: requires a dividend with no leading zero when it is not shorter than the divisor, as the constructor and the only caller provide.
- Lzw.Raster: the minimum code size is 2, as its caller passes; the width of the end code is not claimed to be the one a strict reader expects.
- SecretRuns.NoTempRemains: says nothing when removing a temporary file fails, as the code ignores that error.
- Credentials.Registry.HandleHello: that a device queued to dissolve is issued no secret, owner transfers by an administrator and the stamped public IP are not modelled; rows may vanish at any time, which covers the duplicate cleanup and a device's removal from the list, and secrets may be forgotten at any time, which covers a dissolve that is delivered.
- Requests on credentials run one after another: the interleaving of two requests within one hello, revocation or removal, or of two answers to one request, is not modelled.
- That revoking a credential or changing an owner also shuts the VPN exit down is a step of the exit model, not of the credential model.
- Relay requests carry a number only; response streaming and its 65 s limit are not modelled.

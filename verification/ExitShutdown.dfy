/**
 A shutdown stands (vpn.rs): over every run of the exit protocol, in any interleaving, an exit is
 on only because of an enable that looked at the store after the last shutdown.
 */
module ExitShutdown {
  import opened Bytes
  import opened PassBook
  import opened ExitStore
  import opened ExitProtocol
  import R = RelayTable

  // ---- one step ----------------------------------------------------------------------------

  /** The epoch counts shutdowns: every step but a restart moves it by exactly its own. */
  lemma EpochStep(c: R.Crypto, codec: Codec, w: World, e: Event, w': World, d: DeviceId)
    requires Step(c, codec, w, e, w') && !e.Restart?
    ensures w'.hub.store.Epoch(d) == w.hub.store.Epoch(d) + if SwitchesOff(e, d) then 1 else 0
  {
    hide OpAfter, OpsAfter, DeviceAfter, ChangesAfter, DrawnAfter, OwnersAfter;
  }

  /** Only a commit of the current epoch turns an exit on, and a shutdown turns it off. */
  lemma DevicesStep(c: R.Crypto, codec: Codec, w: World, e: Event, w': World, d: DeviceId)
    requires Step(c, codec, w, e, w') && d in w'.hub.store.devices
    ensures !SwitchesOff(e, d)
    ensures d in w.hub.store.devices
            || (e.EnableEnd? && e.k.device == d && e.k in w.ops && w.ops[e.k].epoch == w.hub.store.Epoch(d))
  {
    hide OpAfter, OpsAfter, DeviceAfter, ChangesAfter, DrawnAfter, OwnersAfter;
  }

  /** An operation that has taken its snapshot. */
  predicate Seen(o: Op) {
    !o.phase.Started?
  }

  predicate TakesSnapshot(e: Event, k: OpKey) {
    (e.EnableSnapshot? || e.IssueSnapshot?) && e.k == k
  }

  /** An enable or issue keeps the epoch of its own snapshot. */
  lemma OpStep(c: R.Crypto, codec: Codec, w: World, e: Event, w': World, k: OpKey)
    requires Step(c, codec, w, e, w') && k in w'.ops && Seen(w'.ops[k])
    requires w'.ops[k].kind.Enabling? || w'.ops[k].kind.Issuing?
    ensures k in w.ops && w'.ops[k].kind == w.ops[k].kind && !e.Restart?
    ensures if Seen(w.ops[k]) then w'.ops[k].epoch == w.ops[k].epoch
            else TakesSnapshot(e, k) && w'.ops[k].epoch == w.hub.store.Epoch(k.device)
                 && (e.EnableSnapshot? <==> w.ops[k].kind.Enabling?)
  {
    hide HubAfter, OpAfter, DeviceAfter, ChangesAfter, DrawnAfter, OwnersAfter;
    if Subject(e) == Some(k) {
      OpAfterKeeps(c, codec, w, e);
    }
  }

  /** An operation keeps its kind, and its epoch once it has one. */
  lemma OpAfterKeeps(c: R.Crypto, codec: Codec, w: World, e: Event)
    requires Can(codec, w, e) && Subject(e).Some? && OpAfter(c, codec, w, e).Some?
    ensures var k, o' := Subject(e).value, OpAfter(c, codec, w, e).value;
            var o := w.ops[k];
            && o'.kind == o.kind
            && (Seen(o) ==> o'.epoch == o.epoch)
            && (!Seen(o) && Seen(o') ==>
                  o'.epoch == w.hub.store.Epoch(k.device)
                  && (o.kind.Enabling? ==> e.EnableSnapshot?) && (o.kind.Issuing? ==> e.IssueSnapshot?)
                  && (e.EnableSnapshot? ==> o.kind.Enabling?))
  {
  }

  // ---- over a run --------------------------------------------------------------------------

  ghost predicate NoShutdown(es: seq<Event>, i: nat, n: nat, d: DeviceId)
    requires n <= |es|
  {
    forall m | i <= m < n :: !SwitchesOff(es[m], d)
  }

  ghost predicate NoRestart(es: seq<Event>, i: nat, n: nat)
    requires n <= |es|
  {
    forall m | i <= m < n :: !es[m].Restart?
  }

  /** Equal epochs at two moments of one hub process mean no shutdown in between. */
  lemma {:induction false} EpochHistory(c: R.Crypto, codec: Codec, ws: seq<World>, es: seq<Event>, i: nat, n: nat, d: DeviceId)
    requires IsRun(c, codec, ws, es) && i <= n <= |es| && NoRestart(es, i, n)
    ensures ws[n].hub.store.Epoch(d) >= ws[i].hub.store.Epoch(d)
    ensures ws[n].hub.store.Epoch(d) == ws[i].hub.store.Epoch(d) <==> NoShutdown(es, i, n, d)
    decreases n - i
  {
    hide Step, SwitchesOff;
    if i < n {
      EpochHistory(c, codec, ws, es, i, n - 1, d);
      var w, e, w' := ws[n - 1], es[n - 1], ws[n];
      EpochStep(c, codec, w, e, w', d);
      assert NoShutdown(es, i, n, d) <==> NoShutdown(es, i, n - 1, d) && !SwitchesOff(e, d);
    }
  }

  ghost predicate SnapshottedAt(ws: seq<World>, es: seq<Event>, n: nat, k: OpKey, i: nat)
    requires n <= |es| && |ws| == |es| + 1 && k in ws[n].ops
  {
    i < n && TakesSnapshot(es[i], k) && (es[i].EnableSnapshot? <==> ws[n].ops[k].kind.Enabling?)
    && ws[i].hub.store.Epoch(k.device) == ws[n].ops[k].epoch && NoRestart(es, i, n)
  }

  lemma {:induction false} OpHistory(c: R.Crypto, codec: Codec, ws: seq<World>, es: seq<Event>, n: nat, k: OpKey)
    requires IsRun(c, codec, ws, es) && n <= |es| && k in ws[n].ops && Seen(ws[n].ops[k])
    requires ws[n].ops[k].kind.Enabling? || ws[n].ops[k].kind.Issuing?
    ensures exists i :: SnapshottedAt(ws, es, n, k, i)
  {
    assert n > 0;
    OpStep(c, codec, ws[n - 1], es[n - 1], ws[n], k);
    if Seen(ws[n - 1].ops[k]) {
      OpHistory(c, codec, ws, es, n - 1, k);
      var i :| SnapshottedAt(ws, es, n - 1, k, i);
      assert SnapshottedAt(ws, es, n, k, i);
    } else {
      assert SnapshottedAt(ws, es, n, k, n - 1);
    }
  }

  /** Enable `k` took its snapshot at `i` and committed at `j`; the exit was not shut down since `i`. */
  ghost predicate EnabledBy(es: seq<Event>, n: nat, d: DeviceId, k: OpKey, i: nat, j: nat)
    requires n <= |es|
  {
    i < j < n && k.device == d && es[i].EnableSnapshot? && es[i].k == k && es[j] == EnableEnd(k) && NoShutdown(es, i, n, d)
  }

  /**
   Shutdown stands: in every interleaving, an exit is on only if some enable took its snapshot
   after that exit's last shutdown.
   */
  lemma {:induction false} ShutdownStands(c: R.Crypto, codec: Codec, ws: seq<World>, es: seq<Event>, n: nat, d: DeviceId)
    requires IsRun(c, codec, ws, es) && n <= |es| && d in ws[n].hub.store.devices
    ensures exists k, i, j :: EnabledBy(es, n, d, k, i, j)
  {
    assert n > 0;
    var w, e := ws[n - 1], es[n - 1];
    DevicesStep(c, codec, w, e, ws[n], d);
    if e.EnableEnd? && e.k.device == d && w.ops[e.k].epoch == w.hub.store.Epoch(d) {
      EnablingAtTheEnd(c, codec, ws, es, n - 1, e.k);
      OpHistory(c, codec, ws, es, n - 1, e.k);
      var i :| SnapshottedAt(ws, es, n - 1, e.k, i);
      EpochHistory(c, codec, ws, es, i, n - 1, d);
      assert EnabledBy(es, n, d, e.k, i, n - 1);
    } else {
      ShutdownStands(c, codec, ws, es, n - 1, d);
      var k, i, j :| EnabledBy(es, n - 1, d, k, i, j);
      assert EnabledBy(es, n, d, k, i, j);
    }
  }

  /** Each kind of operation only ever goes through its own phases. */
  predicate PhaseFits(o: Op) {
    match o.phase
    case Started => true
    case Listed => o.kind.Sweeping?
    case Rechecked => o.kind.Sweeping?
    case Pushing => !o.kind.Disabling?
    case Answered(_) => o.kind.Issuing? || o.kind.Revoking? || o.kind.Sweeping?
    case Reported(_) => o.kind.Enabling?
    case Vetted(_) => o.kind.Enabling?
    case OwnerCompared(_, _) => o.kind.Issuing?
    case ToMark => o.kind.Revoking?
    case TakingBack => o.kind.Enabling? || o.kind.Issuing? || o.kind.Sweeping?
    case TellingOff => o.kind.Enabling? || o.kind.Issuing? || o.kind.Sweeping?
  }

  /** An operation a step is not about is as it was, perhaps crossed, or has just been opened. */
  lemma BystanderMoves(c: R.Crypto, codec: Codec, w: World, e: Event, w': World, k: OpKey)
    requires Step(c, codec, w, e, w') && Subject(e) != Some(k) && k in w'.ops
    ensures (k in w.ops && (w'.ops[k] == w.ops[k] || w'.ops[k] == w.ops[k].(crossed := true))) || Opened(w, w', e, k)
  {
    hide HubAfter, OpAfter, DeviceAfter, ChangesAfter, DrawnAfter, OwnersAfter, SweepOps;
    if e.SweepList? && k in SweepOps(PruneStore(w.hub.store, w.clock), w.nextOp, d => w.Changes(d)) {
      SweepOpened(PruneStore(w.hub.store, w.clock), w.nextOp, d => w.Changes(d), k);
    }
  }

  lemma SweepOpened(s: Store, n: nat, changes: DeviceId -> nat, k: OpKey)
    requires k in SweepOps(s, n, changes)
    ensures var o := SweepOps(s, n, changes)[k];
            k.n == n && !o.reached && !o.crossed && o.phase.Listed? && o.kind.Sweeping?
  {
  }

  ghost predicate Opened(w: World, w': World, e: Event, k: OpKey)
    requires k in w'.ops
  {
    var o := w'.ops[k];
    k.n == w.nextOp && !o.reached && !o.crossed
    && (o.phase.Started? || (e.SweepList? && o.phase.Listed? && o.kind.Sweeping?))
    && (o.kind.Issuing? ==> o.kind.t <= w.clock)
  }

  lemma PhasesStep(c: R.Crypto, codec: Codec, w: World, e: Event, w': World)
    requires Step(c, codec, w, e, w') && forall k | k in w.ops :: PhaseFits(w.ops[k])
    ensures forall k | k in w'.ops :: PhaseFits(w'.ops[k])
  {
    hide HubAfter, OpAfter, DeviceAfter, ChangesAfter, DrawnAfter, OwnersAfter;
    forall k | k in w'.ops ensures PhaseFits(w'.ops[k]) {
      if Subject(e) == Some(k) {
        PhaseAfter(c, codec, w, e);
      } else {
        BystanderMoves(c, codec, w, e, w', k);
      }
    }
  }

  lemma PhaseAfter(c: R.Crypto, codec: Codec, w: World, e: Event)
    requires Can(codec, w, e) && Subject(e).Some? && OpAfter(c, codec, w, e).Some?
    requires PhaseFits(w.ops[Subject(e).value])
    ensures PhaseFits(OpAfter(c, codec, w, e).value)
  {
  }

  lemma {:induction false} PhasesHold(c: R.Crypto, codec: Codec, ws: seq<World>, es: seq<Event>, n: nat)
    requires IsRun(c, codec, ws, es) && n <= |es|
    ensures forall k | k in ws[n].ops :: PhaseFits(ws[n].ops[k])
  {
    if n > 0 {
      PhasesHold(c, codec, ws, es, n - 1);
      PhasesStep(c, codec, ws[n - 1], es[n - 1], ws[n]);
    }
  }

  lemma EnablingAtTheEnd(c: R.Crypto, codec: Codec, ws: seq<World>, es: seq<Event>, n: nat, k: OpKey)
    requires IsRun(c, codec, ws, es) && n < |es|
    requires es[n] == EnableEnd(k) || es[n] == IssueEnd(k)
    ensures k in ws[n].ops && Seen(ws[n].ops[k])
    ensures es[n].EnableEnd? ==> ws[n].ops[k].kind.Enabling?
    ensures es[n].IssueEnd? ==> ws[n].ops[k].kind.Issuing?
  {
    PhasesHold(c, codec, ws, es, n);
    assert Step(c, codec, ws[n], es[n], ws[n + 1]);
  }

  // ---- stale commits ------------------------------------------------------------------------

  /** The step hands its caller a pass. */
  ghost predicate Grants(w: World, e: Event) {
    e.IssueEnd? && e.k in w.ops && w.ops[e.k].phase.OwnerCompared?
    && IssueOutcomeOf(w.hub.store, e.k.device, w.ops[e.k].epoch, w.ops[e.k].phase.ok, w.ops[e.k].phase.kept) == Granted
  }

  /** A commit that a shutdown overtook changes no device entry and no relay registration, and hands out nothing. */
  lemma StaleCommitChangesNothing(c: R.Crypto, codec: Codec, w: World, e: Event, w': World)
    requires Step(c, codec, w, e, w') && (e.EnableEnd? || e.IssueEnd? || e.SweepEnd?)
    requires w.ops[e.k].epoch != w.hub.store.Epoch(e.k.device)
    ensures w'.hub.relay == w.hub.relay && w'.hub.store.devices == w.hub.store.devices && !Grants(w, e)
  {
  }

  /** A pass is handed out only if the exit was not shut down since the pass was reserved. */
  lemma GrantStands(c: R.Crypto, codec: Codec, ws: seq<World>, es: seq<Event>, n: nat)
    requires IsRun(c, codec, ws, es) && n < |es| && Grants(ws[n], es[n])
    ensures exists i | 0 <= i < n :: es[i].IssueSnapshot? && es[i].k == es[n].k && NoShutdown(es, i, n, es[n].k.device)
  {
    var k := es[n].k;
    EnablingAtTheEnd(c, codec, ws, es, n, k);
    OpHistory(c, codec, ws, es, n, k);
    var i :| SnapshottedAt(ws, es, n, k, i);
    EpochHistory(c, codec, ws, es, i, n, k.device);
  }
}

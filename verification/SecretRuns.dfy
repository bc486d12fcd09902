/**
 Writers and readers of one secret, interleaved call by call, in any number of processes, with
 processes killed and the machine crashing at any point.
 */
module SecretRuns {
  import opened Bytes
  import opened SecretFile

  type WriterId = nat
  type ReaderId = nat

  /** Where a write stands; the file it writes is named by its number. */
  datatype Phase = Named | Writing(id: FileId) | Synced(id: FileId) | Failed | Renamed

  datatype Writer = Writer(pid: Pid, n: nat, contents: Content, phase: Phase) {
    function Tmp(): Name { Temp(pid, n) }
    function File(): Option<FileId> {
      if phase.Writing? || phase.Synced? then Some(phase.id) else None
    }
  }

  datatype Reader = Reader(id: FileId, got: Content)

  /**
   `counters` is SEQ of every live process; writes are numbered as they start; `answers` what each finished write returned;
   `whole` the initial content and the contents of every write that reached its rename.
   */
  datatype World = World(
    disk: Disk,
    counters: map<Pid, nat>,
    started: nat,
    writers: map<WriterId, Writer>,
    readers: map<ReaderId, Reader>,
    answers: map<WriterId, bool>,
    ghost whole: set<Content>)

  /** `ok` says whether the call succeeds. */
  datatype Event =
    | Start(pid: Pid)
    | Begin(k: WriterId, pid: Pid, contents: Content)
    | Open(k: WriterId, ok: bool)
    | Write(k: WriterId, count: nat, ok: bool)
    | Sync(k: WriterId, ok: bool)
    | Rename(k: WriterId, ok: bool)
    | Cleanup(k: WriterId, removed: bool)
    | Finish(k: WriterId, dirSynced: bool)
    | OpenRead(r: ReaderId)
    | Read(r: ReaderId, count: nat)
    | Kill(pid: Pid)
    | Crash(disk: Disk)

  ghost predicate Init(w: World) {
    && w.writers == map[] && w.readers == map[] && w.answers == map[] && w.counters == map[]
    && (forall id | id in w.disk.files :: id < w.disk.next)
    && (forall name | name in w.disk.dir :: w.disk.dir[name] in w.disk.files)
    && w.disk.mayBe == {Entry(w.disk, Target)}
    && (Target in w.disk.dir ==> w.disk.files[w.disk.dir[Target]].durable)
    && w.whole == (if Seen(w.disk).Some? then {Seen(w.disk).value} else {})
  }

  function Moved(w: World, k: WriterId, p: Phase): World
    requires k in w.writers
  {
    w.(writers := w.writers[k := w.writers[k].(phase := p)])
  }

  predicate At(w: World, k: WriterId, p: Phase) {
    k in w.writers && w.writers[k].phase == p
  }

  /** A crash leaves the target's entry as it was at some moment since the directory sync; what was not synced may read as anything. */
  ghost predicate Survives(d: Disk, d': Disk) {
    && d'.next == d.next && d'.files.Keys == d.files.Keys
    && (forall id | id in d.files && d.files[id].durable :: d'.files[id] == d.files[id])
    && (forall name | name in d'.dir :: d'.dir[name] in d'.files)
    && Entry(d', Target) in d.mayBe
    && d'.mayBe == {Entry(d', Target)}
  }

  ghost predicate Step(w: World, e: Event, w': World) {
    match e
    case Start(pid) =>
      pid !in w.counters && w' == w.(counters := w.counters[pid := 0])
    case Begin(k, pid, contents) =>
      && k == w.started && pid in w.counters
      && w' == w.(started := k + 1, counters := w.counters[pid := w.counters[pid] + 1],
                  writers := w.writers[k := Writer(pid, w.counters[pid], contents, Named)])
    case Open(k, ok) =>
      && At(w, k, Named)
      && var tmp := w.writers[k].Tmp();
         (if ok then tmp !in w.disk.dir && w' == Moved(w, k, Writing(w.disk.next)).(disk := CreateNew(w.disk, tmp))
          else w' == Moved(w, k, Failed))
    case Write(k, count, ok) =>
      && k in w.writers && w.writers[k].phase.Writing?
      && (if ok then
            var id, c := w.writers[k].phase.id, w.writers[k].contents;
            && id in w.disk.files && |w.disk.files[id].content| + count <= |c|
            && var done := |w.disk.files[id].content|;
               w' == w.(disk := Append(w.disk, id, c[done..done + count]))
          else w' == Moved(w, k, Failed))
    case Sync(k, ok) =>
      && k in w.writers && w.writers[k].phase.Writing?
      && var id := w.writers[k].phase.id;
         && id in w.disk.files && |w.disk.files[id].content| == |w.writers[k].contents|
         && (if ok then w' == Moved(w, k, Synced(id)).(disk := SyncFile(w.disk, id)) else w' == Moved(w, k, Failed))
    case Rename(k, ok) =>
      && k in w.writers && w.writers[k].phase.Synced?
      && var tmp := w.writers[k].Tmp();
         (if ok then
            tmp in w.disk.dir
            && w' == Moved(w, k, Renamed).(disk := RenameOver(w.disk, tmp), whole := w.whole + {w.writers[k].contents})
          else w' == Moved(w, k, Failed))
    case Cleanup(k, removed) =>
      && At(w, k, Failed)
      && w' == w.(disk := if removed then Remove(w.disk, w.writers[k].Tmp()) else w.disk,
                  writers := w.writers - {k}, answers := w.answers[k := false])
    case Finish(k, dirSynced) =>
      && At(w, k, Renamed)
      && w' == w.(disk := if dirSynced then SyncDir(w.disk) else w.disk,
                  writers := w.writers - {k}, answers := w.answers[k := true])
    case OpenRead(r) =>
      && r !in w.readers && Target in w.disk.dir
      && w' == w.(readers := w.readers[r := Reader(w.disk.dir[Target], [])])
    case Read(r, count) =>
      && r in w.readers
      && var id, done := w.readers[r].id, |w.readers[r].got|;
         && id in w.disk.files && done + count <= |w.disk.files[id].content|
         && w' == w.(readers := w.readers[r := Reader(id, w.readers[r].got + w.disk.files[id].content[done..done + count])])
    case Kill(pid) =>
      && w' == w.(counters := w.counters - {pid},
                  writers := map k | k in w.writers && w.writers[k].pid != pid :: w.writers[k])
    case Crash(disk) =>
      && Survives(w.disk, disk)
      && w' == World(disk, map[], w.started, map[], map[], w.answers, w.whole)
  }

  ghost predicate IsRun(ws: seq<World>, es: seq<Event>) {
    |ws| == |es| + 1 && Init(ws[0]) && forall i | 0 <= i < |es| :: Step(ws[i], es[i], ws[i + 1])
  }

  // ---- what every step keeps -----------------------------------------------------------------

  /** A file the target may name: synced, and wholly one of the contents. */
  ghost predicate Sound(w: World, id: FileId) {
    id in w.disk.files && w.disk.files[id].durable && w.disk.files[id].content in w.whole
  }

  ghost predicate WriterInv(w: World, k: WriterId)
    requires k in w.writers
  {
    var wr := w.writers[k];
    && wr.pid in w.counters && wr.n < w.counters[wr.pid]
    && (wr.File().Some? ==>
          var id := wr.File().value;
          && id in w.disk.files && wr.Tmp() in w.disk.dir && w.disk.dir[wr.Tmp()] == id
          && Some(id) !in w.disk.mayBe
          && (forall r | r in w.readers :: w.readers[r].id != id)
          && w.disk.files[id].content <= wr.contents)
    && (wr.phase.Synced? ==> w.disk.files[wr.phase.id] == SecretFile.File(wr.contents, true))
    && (wr.phase.Renamed? ==> wr.contents in w.whole)
  }

  /** Two writes have different temporary names, and different files. */
  predicate PairApart(w: World, j: WriterId, k: WriterId)
    requires j in w.writers && k in w.writers
  {
    w.writers[j].Tmp() != w.writers[k].Tmp() && (w.writers[j].File().Some? ==> w.writers[j].File() != w.writers[k].File())
  }

  ghost predicate Apart(w: World) {
    forall j, k | j in w.writers && k in w.writers && j != k :: PairApart(w, j, k)
  }

  ghost predicate Ground(w: World) {
    && (forall id | id in w.disk.files :: id < w.disk.next)
    && (forall name | name in w.disk.dir :: w.disk.dir[name] in w.disk.files)
    && Entry(w.disk, Target) in w.disk.mayBe
    && (forall o | o in w.disk.mayBe && o.Some? :: Sound(w, o.value))
    && (forall r | r in w.readers :: Sound(w, w.readers[r].id) && w.readers[r].got <= w.disk.files[w.readers[r].id].content)
    && (forall k | k in w.writers || k in w.answers :: k < w.started)
    && (forall k | k in w.writers :: k !in w.answers)
  }

  ghost predicate Inv(w: World) {
    Ground(w) && Apart(w) && forall k | k in w.writers :: WriterInv(w, k)
  }

  predicate Calls(e: Event, k: WriterId) {
    (e.Open? || e.Write? || e.Sync? || e.Rename? || e.Cleanup? || e.Finish?) && e.k == k
  }

  predicate Quiet(e: Event) {
    e.Start? || e.Begin? || e.Kill? || e.OpenRead? || e.Read? || e.Crash?
  }

  lemma GroundKept(w: World, e: Event, w': World)
    requires Inv(w) && Step(w, e, w') && Quiet(e)
    ensures Ground(w')
  {
    hide Apart;
  }

  lemma OpenKeepsSound(w: World, e: Event, w': World, id: FileId)
    requires Step(w, e, w') && e.Open? && Sound(w, id) && id < w.disk.next
    ensures id in w.disk.files && Sound(w', id) && id in w'.disk.files && w'.disk.files[id] == w.disk.files[id]
  {
  }

  lemma OpenKeepsGround(w: World, e: Event, w': World)
    requires Ground(w) && Step(w, e, w') && e.Open? && e.k in w.writers
    ensures Ground(w')
  {
    hide Sound;
    forall id | Sound(w, id) ensures id in w.disk.files && id in w'.disk.files && Sound(w', id) && w'.disk.files[id] == w.disk.files[id] {
      SoundFile(w, id);
      OpenKeepsSound(w, e, w', id);
    }
  }

  lemma SoundFile(w: World, id: FileId)
    requires Ground(w) && Sound(w, id)
    ensures id in w.disk.files && id < w.disk.next
  {
  }

  lemma WriteKeepsGround(w: World, e: Event, w': World)
    requires Ground(w) && Step(w, e, w') && e.Write? && e.k in w.writers && WriterInv(w, e.k)
    ensures Ground(w')
  {
  }

  lemma SyncKeepsGround(w: World, e: Event, w': World)
    requires Ground(w) && Step(w, e, w') && e.Sync? && e.k in w.writers && WriterInv(w, e.k)
    ensures Ground(w')
  {
  }

  lemma RenameKeepsGround(w: World, e: Event, w': World)
    requires Ground(w) && Step(w, e, w') && e.Rename? && e.k in w.writers && WriterInv(w, e.k)
    ensures Ground(w')
  {
  }

  lemma EndKeepsGround(w: World, e: Event, w': World)
    requires Ground(w) && Step(w, e, w') && (e.Cleanup? || e.Finish?) && e.k in w.writers && WriterInv(w, e.k)
    ensures Ground(w')
  {
  }

  lemma CallKeepsGround(w: World, e: Event, w': World)
    requires Ground(w) && Step(w, e, w') && !Quiet(e) && e.k in w.writers && WriterInv(w, e.k)
    ensures Ground(w')
  {
    hide Step, Ground, WriterInv;
    match e {
      case Open(_, _) => OpenKeepsGround(w, e, w');
      case Write(_, _, _) => WriteKeepsGround(w, e, w');
      case Sync(_, _) => SyncKeepsGround(w, e, w');
      case Rename(_, _) => RenameKeepsGround(w, e, w');
      case _ => EndKeepsGround(w, e, w');
    }
  }

  lemma OwnWriterKept(w: World, e: Event, w': World, k: WriterId)
    requires Ground(w) && Step(w, e, w') && Calls(e, k) && WriterInv(w, k) && k in w'.writers
    ensures WriterInv(w', k)
  {
    hide Ground, Step, WriterInv;
    if e.Open? {
      OwnWriterOpens(w, e, w', k);
    } else {
      OwnWriterGoesOn(w, e, w', k);
    }
  }

  lemma OwnWriterOpens(w: World, e: Event, w': World, k: WriterId)
    requires Ground(w) && Step(w, e, w') && e.Open? && e.k == k && WriterInv(w, k) && k in w'.writers
    ensures WriterInv(w', k)
  {
  }

  lemma OwnWriterGoesOn(w: World, e: Event, w': World, k: WriterId)
    requires Step(w, e, w') && Calls(e, k) && !e.Open? && WriterInv(w, k) && k in w'.writers
    ensures WriterInv(w', k)
  {
  }

  lemma NewWriter(w: World, e: Event, w': World)
    requires Inv(w) && Step(w, e, w') && e.Begin?
    ensures e.k in w'.writers && WriterInv(w', e.k)
  {
    hide Inv;
  }

  lemma OtherOpens(w: World, e: Event, w': World, j: WriterId, k: WriterId)
    requires Ground(w) && Step(w, e, w') && e.Open? && e.k == j && j != k && j in w.writers && k in w.writers
    requires WriterInv(w, j) && WriterInv(w, k) && PairApart(w, j, k)
    ensures k in w'.writers && w'.writers[k] == w.writers[k] && WriterInv(w', k)
  {
  }

  lemma OtherWrites(w: World, e: Event, w': World, j: WriterId, k: WriterId)
    requires Ground(w) && Step(w, e, w') && (e.Write? || e.Sync?) && e.k == j && j != k && j in w.writers && k in w.writers
    requires WriterInv(w, j) && WriterInv(w, k) && PairApart(w, j, k)
    ensures k in w'.writers && w'.writers[k] == w.writers[k] && WriterInv(w', k)
  {
  }

  lemma OtherRenames(w: World, e: Event, w': World, j: WriterId, k: WriterId)
    requires Ground(w) && Step(w, e, w') && e.Rename? && e.k == j && j != k && j in w.writers && k in w.writers
    requires WriterInv(w, j) && WriterInv(w, k) && PairApart(w, j, k)
    ensures k in w'.writers && w'.writers[k] == w.writers[k] && WriterInv(w', k)
  {
  }

  lemma OtherEnds(w: World, e: Event, w': World, j: WriterId, k: WriterId)
    requires Ground(w) && Step(w, e, w') && (e.Cleanup? || e.Finish?) && e.k == j && j != k && j in w.writers && k in w.writers
    requires WriterInv(w, j) && WriterInv(w, k) && PairApart(w, j, k)
    ensures k in w'.writers && w'.writers[k] == w.writers[k] && WriterInv(w', k)
  {
  }

  /** Another write's calls leave this write's file and name alone. */
  lemma OtherWriterKept(w: World, e: Event, w': World, j: WriterId, k: WriterId)
    requires Ground(w) && Step(w, e, w') && !Quiet(e) && e.k == j && j != k && j in w.writers && k in w.writers
    requires WriterInv(w, j) && WriterInv(w, k) && PairApart(w, j, k)
    ensures k in w'.writers && w'.writers[k] == w.writers[k] && WriterInv(w', k)
  {
    hide Ground, Step, WriterInv, PairApart;
    match e {
      case Open(_, _) => OtherOpens(w, e, w', j, k);
      case Write(_, _, _) => OtherWrites(w, e, w', j, k);
      case Sync(_, _) => OtherWrites(w, e, w', j, k);
      case Rename(_, _) => OtherRenames(w, e, w', j, k);
      case _ => OtherEnds(w, e, w', j, k);
    }
  }

  lemma QuietWriterKept(w: World, e: Event, w': World, k: WriterId)
    requires Ground(w) && Step(w, e, w') && Quiet(e) && k in w.writers && k in w'.writers && WriterInv(w, k)
    ensures w'.writers[k] == w.writers[k] && WriterInv(w', k)
  {
  }

  lemma WriterKept(w: World, e: Event, w': World, k: WriterId)
    requires Inv(w) && Step(w, e, w') && k in w'.writers
    ensures WriterInv(w', k)
  {
    hide Step, Ground, WriterInv, PairApart;
    if k !in w.writers {
      WritersCome(w, e, w', k);
      NewWriter(w, e, w');
    } else if Quiet(e) {
      QuietWriterKept(w, e, w', k);
    } else if Calls(e, k) {
      OwnWriterKept(w, e, w', k);
    } else {
      CallersExist(w, e, w');
      OtherWriterKept(w, e, w', e.k, k);
    }
  }

  lemma WritersCome(w: World, e: Event, w': World, k: WriterId)
    requires Step(w, e, w') && k in w'.writers && k !in w.writers
    ensures e.Begin? && e.k == k
  {
  }

  lemma CallersExist(w: World, e: Event, w': World)
    requires Step(w, e, w') && !Quiet(e)
    ensures e.k in w.writers
  {
  }

  lemma NewPair(w: World, e: Event, w': World, j: WriterId, k: WriterId)
    requires Step(w, e, w') && e.Begin? && j in w'.writers && k in w'.writers && j != k
    requires (j in w.writers ==> WriterInv(w, j)) && (k in w.writers ==> WriterInv(w, k))
    requires j !in w.writers || k !in w.writers
    ensures PairApart(w', j, k)
  {
  }

  lemma FilesKept(w: World, e: Event, w': World, k: WriterId)
    requires Step(w, e, w') && k in w.writers && k in w'.writers && k < w.started
    ensures w'.writers[k].Tmp() == w.writers[k].Tmp()
    ensures w'.writers[k].File().Some? ==>
              w'.writers[k].File() == w.writers[k].File() || (e.Open? && e.k == k && w'.writers[k].File() == Some(w.disk.next))
  {
  }

  /** Names and files stay apart: a new name takes a fresh number of its process, a new file is fresh. */
  lemma PairKept(w: World, e: Event, w': World, j: WriterId, k: WriterId)
    requires Ground(w) && Step(w, e, w') && j in w.writers && k in w.writers && j in w'.writers && k in w'.writers && j != k
    requires WriterInv(w, j) && WriterInv(w, k) && PairApart(w, j, k)
    ensures PairApart(w', j, k)
  {
    hide Step;
    FilesKept(w, e, w', j);
    FilesKept(w, e, w', k);
  }

  lemma StepKeepsInv(w: World, e: Event, w': World)
    requires Inv(w) && Step(w, e, w')
    ensures Inv(w')
  {
    hide Step, Ground, WriterInv, PairApart;
    if Quiet(e) {
      GroundKept(w, e, w');
    } else {
      CallersExist(w, e, w');
      CallKeepsGround(w, e, w');
    }
    forall k | k in w'.writers ensures WriterInv(w', k) {
      WriterKept(w, e, w', k);
    }
    forall j, k | j in w'.writers && k in w'.writers && j != k ensures PairApart(w', j, k) {
      if j !in w.writers || k !in w.writers {
        WritersCome(w, e, w', if j in w.writers then k else j);
        NewPair(w, e, w', j, k);
      } else {
        PairKept(w, e, w', j, k);
      }
    }
  }

  lemma InitInv(w: World)
    requires Init(w)
    ensures Inv(w)
  {
  }

  lemma {:induction false} InvHolds(ws: seq<World>, es: seq<Event>, n: nat)
    requires IsRun(ws, es) && n <= |es|
    ensures Inv(ws[n])
  {
    hide Inv, Step, Init;
    if n == 0 {
      InitInv(ws[0]);
    } else {
      InvHolds(ws, es, n - 1);
      StepKeepsInv(ws[n - 1], es[n - 1], ws[n]);
    }
  }

  // ---- the target is always whole --------------------------------------------------------------

  /** `c` was there at the start, or a write of all of `c` has reached its rename before step n. */
  ghost predicate Written(ws: seq<World>, es: seq<Event>, n: nat, c: Content)
    requires |ws| > |es| >= n
  {
    Seen(ws[0].disk) == Some(c)
    || exists i :: 0 <= i < n && es[i].Rename? && es[i].ok && es[i].k in ws[i].writers && ws[i].writers[es[i].k].contents == c
  }

  lemma {:induction false} WholeIsWritten(ws: seq<World>, es: seq<Event>, n: nat, c: Content)
    requires IsRun(ws, es) && n <= |es| && c in ws[n].whole
    ensures Written(ws, es, n, c)
  {
    if n > 0 {
      assert Step(ws[n - 1], es[n - 1], ws[n]);
      if c in ws[n - 1].whole { WholeIsWritten(ws, es, n - 1, c); }
    }
  }

  lemma PresenceKept(w: World, e: Event, w': World)
    requires Inv(w) && Step(w, e, w') && None !in w.disk.mayBe
    ensures None !in w'.disk.mayBe
  {
  }

  lemma {:induction false} PresenceHolds(ws: seq<World>, es: seq<Event>, n: nat)
    requires IsRun(ws, es) && n <= |es| && Seen(ws[0].disk).Some?
    ensures None !in ws[n].disk.mayBe
  {
    hide Step, Inv;
    if n > 0 {
      PresenceHolds(ws, es, n - 1);
      InvHolds(ws, es, n - 1);
      PresenceKept(ws[n - 1], es[n - 1], ws[n]);
    }
  }

  /**
   At every point of every run, crashes included, a secret that was there is still there, and what
   is there is wholly the initial content or wholly the content of one write that got to its rename.
   */
  lemma TargetIsWhole(ws: seq<World>, es: seq<Event>, n: nat)
    requires IsRun(ws, es) && n <= |es|
    ensures Seen(ws[0].disk).Some? ==> Seen(ws[n].disk).Some?
    ensures Seen(ws[n].disk).Some? ==> Written(ws, es, n, Seen(ws[n].disk).value)
  {
    InvHolds(ws, es, n);
    if Seen(ws[0].disk).Some? { PresenceHolds(ws, es, n); }
    if Seen(ws[n].disk).Some? {
      WholeIsWritten(ws, es, n, Seen(ws[n].disk).value);
    }
  }

  /** A reader holds part of one whole content, however its reads interleave with writes: never a mixture. */
  lemma ReadersSeeOneWrite(ws: seq<World>, es: seq<Event>, n: nat, r: ReaderId)
    requires IsRun(ws, es) && n <= |es| && r in ws[n].readers
    ensures var rd, files := ws[n].readers[r], ws[n].disk.files;
            && rd.id in files && rd.got <= files[rd.id].content && Written(ws, es, n, files[rd.id].content)
  {
    InvHolds(ws, es, n);
    WholeIsWritten(ws, es, n, ws[n].disk.files[ws[n].readers[r].id].content);
  }

  // ---- failed writes ------------------------------------------------------------------------------

  /** Only a rename that succeeds, or a crash, moves the target. */
  lemma OnlyRenamesMoveTheTarget(ws: seq<World>, es: seq<Event>, n: nat)
    requires IsRun(ws, es) && n < |es| && !es[n].Crash? && !(es[n].Rename? && es[n].ok)
    ensures Seen(ws[n + 1].disk) == Seen(ws[n].disk) && Entry(ws[n + 1].disk, Target) == Entry(ws[n].disk, Target)
  {
    InvHolds(ws, es, n);
    assert Step(ws[n], es[n], ws[n + 1]);
  }

  ghost predicate RenameRemembered(w: World, k: WriterId) {
    k < w.started
    && (k in w.writers ==> w.writers[k].phase.Renamed?)
    && (k in w.answers ==> w.answers[k])
  }

  lemma RenameNoted(w: World, e: Event, w': World, k: WriterId)
    requires Ground(w) && Step(w, e, w')
    requires (e.Rename? && e.ok && e.k == k) || RenameRemembered(w, k)
    ensures RenameRemembered(w', k)
  {
  }

  lemma {:induction false} RenameIsRemembered(ws: seq<World>, es: seq<Event>, i: nat, n: nat)
    requires IsRun(ws, es) && i < n <= |es| && es[i].Rename? && es[i].ok
    ensures RenameRemembered(ws[n], es[i].k)
  {
    hide Step, RenameRemembered, WriterInv, Apart;
    InvHolds(ws, es, n - 1);
    if i < n - 1 { RenameIsRemembered(ws, es, i, n - 1); }
    RenameNoted(ws[n - 1], es[n - 1], ws[n], es[i].k);
  }

  /** A write that returned an error never moved the target: its rename never happened. */
  lemma FailedWritesRenameNothing(ws: seq<World>, es: seq<Event>, n: nat, i: nat, k: WriterId)
    requires IsRun(ws, es) && n <= |es| && i < n && k in ws[n].answers && !ws[n].answers[k]
    ensures !(es[i].Rename? && es[i].ok && es[i].k == k)
  {
    if es[i].Rename? && es[i].ok && es[i].k == k {
      RenameIsRemembered(ws, es, i, n);
    }
  }

  /** A crash can only bring back the target's entry as it is. */
  predicate Settled(d: Disk) {
    d.mayBe == {Entry(d, Target)}
  }

  lemma StaysSettled(w: World, e: Event, w': World)
    requires Ground(w) && Step(w, e, w') && Settled(w.disk) && !(e.Rename? && e.ok)
    requires e.Crash? || (Seen(w'.disk) == Seen(w.disk) && Entry(w'.disk, Target) == Entry(w.disk, Target))
    ensures Settled(w'.disk) && Seen(w'.disk) == Seen(w.disk)
  {
  }

  lemma FinishSettles(w: World, e: Event, w': World)
    requires Step(w, e, w') && e.Finish? && e.dirSynced
    ensures Settled(w'.disk) && Seen(w'.disk) == Seen(w.disk)
  {
  }

  /**
   After a write whose directory sync went through, what a reader can see stays as it is, however
   often the machine crashes, until another write's rename succeeds.
   */
  lemma {:induction false} SyncedWriteSurvives(ws: seq<World>, es: seq<Event>, m: nat, n: nat)
    requires IsRun(ws, es) && m < n <= |es| && es[m].Finish? && es[m].dirSynced
    requires forall i | m < i < n :: !(es[i].Rename? && es[i].ok)
    ensures Settled(ws[n].disk) && Seen(ws[n].disk) == Seen(ws[m].disk)
  {
    hide Step, Ground, Apart, WriterInv, Settled;
    var w, e, w' := ws[n - 1], es[n - 1], ws[n];
    if m == n - 1 {
      FinishSettles(w, e, w');
    } else {
      SyncedWriteSurvives(ws, es, m, n - 1);
      InvHolds(ws, es, n - 1);
      if !e.Crash? { OnlyRenamesMoveTheTarget(ws, es, n - 1); }
      StaysSettled(w, e, w');
    }
  }

  // ---- no temporary files are left ------------------------------------------------------------------

  /** Nothing is killed, nothing crashes, and removing a temporary file works. */
  predicate Tidy(e: Event) {
    !e.Kill? && !e.Crash? && (e.Cleanup? ==> e.removed)
  }

  ghost predicate TempsOwned(w: World, first: set<Name>) {
    forall name | name in w.disk.dir && name != Target && name !in first :: exists k :: Owns(w, k, name)
  }

  predicate Owns(w: World, k: WriterId, name: Name) {
    k in w.writers && w.writers[k].Tmp() == name && !w.writers[k].phase.Renamed?
  }

  lemma OwnerKept(w: World, e: Event, w': World, k: WriterId, name: Name)
    requires Step(w, e, w') && Tidy(e) && Owns(w, k, name) && k < w.started && name in w'.disk.dir && name != Target
    ensures Owns(w', k, name)
  {
  }

  lemma OwnerStarted(w: World, k: WriterId, name: Name)
    requires Ground(w) && Owns(w, k, name)
    ensures k < w.started
  {
  }

  lemma NewNameOwned(w: World, e: Event, w': World, name: Name)
    requires Step(w, e, w') && Tidy(e) && name in w'.disk.dir && name !in w.disk.dir && name != Target
    ensures e.Open? && Owns(w', e.k, name)
  {
  }

  lemma TempsOwnedKept(w: World, e: Event, w': World, first: set<Name>)
    requires Ground(w) && Step(w, e, w') && Tidy(e) && TempsOwned(w, first)
    ensures TempsOwned(w', first)
  {
    hide Step, Owns, Ground;
    forall name | name in w'.disk.dir && name != Target && name !in first ensures exists k :: Owns(w', k, name) {
      if name in w.disk.dir {
        var k :| Owns(w, k, name);
        OwnerStarted(w, k, name);
        OwnerKept(w, e, w', k, name);
      } else {
        NewNameOwned(w, e, w', name);
      }
    }
  }

  lemma {:induction false} TempsAreOwned(ws: seq<World>, es: seq<Event>, n: nat)
    requires IsRun(ws, es) && n <= |es| && forall i | 0 <= i < n :: Tidy(es[i])
    ensures TempsOwned(ws[n], ws[0].disk.dir.Keys)
  {
    hide Step;
    if n > 0 {
      TempsAreOwned(ws, es, n - 1);
      InvHolds(ws, es, n - 1);
      TempsOwnedKept(ws[n - 1], es[n - 1], ws[n], ws[0].disk.dir.Keys);
    }
  }

  /** With no crash, once every write has returned the directory holds no temporary file it did not hold at the start. */
  lemma NoTempRemains(ws: seq<World>, es: seq<Event>, n: nat)
    requires IsRun(ws, es) && n <= |es| && (forall i | 0 <= i < n :: Tidy(es[i])) && ws[n].writers == map[]
    ensures ws[n].disk.dir.Keys <= ws[0].disk.dir.Keys + {Target}
  {
    TempsAreOwned(ws, es, n);
  }
}

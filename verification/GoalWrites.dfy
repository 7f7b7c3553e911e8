/** Protected goal writes, interleaved effect by effect, cut by crashes and recovered. */
module GoalWrites {
  import opened Prelude
  import opened StateFiles
  import opened StateWal

  const COMPACT_EVERY: nat := 100

  /** The effects of one protected write: intent, writes, commit, and a compaction every hundredth write. */
  function WritePlan(g: GoalId, op: Op, ts: nat, count: nat, log: seq<Record>): seq<Effect> {
    [Append(g, Intent(op, ts))] + AsWrites(WritePuts(g, op)) + [Append(g, Commit(ts))] +
    if (count + 1) % COMPACT_EVERY == 0 then CompactionPlan(g, LogAfter(g, op, ts, log)) else []
  }

  function LogAfter(g: GoalId, op: Op, ts: nat, log: seq<Record>): seq<Record> {
    if op.WriteRaw? && op.path == Path(g, LogFile) then [Torn(op.payload), Commit(ts)]
    else log + [Intent(op, ts), Commit(ts)]
  }

  /** A write in flight: it holds the lock of its goal and has done the first effects of its plan. */
  datatype Job = Job(req: Request, op: Op, ts: nat, plan: seq<Effect>, done: nat)

  /**
   * The disk, the running process if any, the goals it has read for pace snapshots, and the requests whose intent has
   * reached a log, in that order.
   */
  datatype Machine = Machine(
    store: Store,
    jobs: map<GoalId, Job>,
    counts: map<GoalId, nat>,
    up: bool,
    read: set<(GoalId, Goal)>,
    logged: seq<(GoalId, Request)>)

  datatype Step =
    | ReadGoal(g: GoalId)
    | Begin(g: GoalId, req: Request, ts: nat)
    | Advance(goal: GoalId)
    | Crash
    | Recovery(ids: seq<GoalId>, cut: nat)

  function Init(files: Files): Machine {
    Machine(Store(files, map[], map[]), map[], map[], false, {}, [])
  }

  function Count(m: Machine, g: GoalId): nat {
    if g in m.counts then m.counts[g] else 0
  }

  ghost predicate FreshTime(log: seq<Record>, ts: nat) {
    ts !in Committed(log)
  }

  /** A pace snapshot takes a goal that was read before, without the lock. Recovery finds the directories in goals/. */
  ghost predicate Enabled(m: Machine, step: Step) {
    match step
    case ReadGoal(g) => m.up
    case Begin(g, req, ts) =>
      m.up && g !in m.jobs && FreshTime(Wal(m.store, g), ts) && (req.ReqSavePaceSnapshot? ==> (g, req.read) in m.read)
    case Advance(g) => m.up && g in m.jobs
    case Crash => true
    case Recovery(ids, _) =>
      !m.up && NoDuplicates(ids) && (forall g :: g in ids ==> PlainName(g)) && AllListed(m.store, ids)
  }

  ghost predicate AllListed(s: Store, ids: seq<GoalId>) {
    forall g :: g in s.wals && PlainName(g) ==> g in ids
  }

  predicate AllIntact(s: Store, ids: seq<GoalId>) {
    forall g :: g in ids ==> Intact(Wal(s, g))
  }

  /** The file that a write in flight is about to replace is the directory that a write in flight holds as its lock. */
  predicate MeetsLock(m: Machine, e: Effect) {
    e.Write? && e.put.path.file == LockDirectory && e.put.path.goal in m.jobs
  }

  /**
   * A write throws, which ends it without a commit, when it meets a held lock; it does not start when its own lock is a
   * file. Recovery throws at the first log that cannot be read, and the process is not up then.
   */
  function Next(m: Machine, step: Step): Machine {
    match step
    case ReadGoal(g) =>
      var goal := GoalToUpdate(m.store.files, g);
      if goal.None? then m else m.(read := m.read + {(g, goal.value)})
    case Begin(g, req, ts) =>
      var op := BuildOp(m.store.files, g, req);
      if op.None? || Path(g, LockDirectory) in m.store.files then m else
      var plan := WritePlan(g, op.value, ts, Count(m, g), Wal(m.store, g));
      m.(jobs := m.jobs[g := Job(req, op.value, ts, plan, 0)])
    case Advance(g) =>
      if g !in m.jobs then m else
      var j := m.jobs[g];
      if j.done >= |j.plan| then
        m.(jobs := m.jobs - {g}, counts := m.counts[g := Count(m, g) + 1])
      else if MeetsLock(m, j.plan[j.done]) then
        m.(jobs := m.jobs - {g})
      else
        m.(store := Apply(m.store, j.plan[j.done]),
           jobs := m.jobs[g := j.(done := j.done + 1)],
           logged := if j.done == 0 then m.logged + [(g, j.req)] else m.logged)
    case Crash => m.(jobs := map[], counts := map[], up := false, read := {})
    case Recovery(ids, cut) =>
      var plan := RecoveryPlan(Todo(m.store, ids));
      m.(store := Exec(m.store, if cut < |plan| then plan[..cut] else plan),
         up := cut >= |plan| && AllIntact(m.store, ids))
  }

  function Run(m: Machine, steps: seq<Step>): Machine
    decreases |steps|
  {
    if steps == [] then m else Run(Next(m, steps[0]), steps[1..])
  }

  ghost predicate ValidRun(m: Machine, steps: seq<Step>)
    decreases |steps|
  {
    steps == [] || (Enabled(m, steps[0]) && ValidRun(Next(m, steps[0]), steps[1..]))
  }

  /** Every request is admissible or throws before its intent. */
  ghost predicate AllAdmissible(steps: seq<Step>) {
    forall i :: 0 <= i < |steps| && steps[i].Begin? && Acceptable(steps[i].g, steps[i].req) ==>
      Admissible(steps[i].g, steps[i].req)
  }

  /**
   * The crash-free meaning of a list of requests: one after the other, each read-modify-write on what the former left.
   */
  function Reference(files: Files, requests: seq<(GoalId, Request)>): Files {
    if requests == [] then files
    else Perform(Reference(files, requests[..|requests| - 1]), requests[|requests| - 1].0, requests[|requests| - 1].1)
  }

  // ----- The invariant -----

  ghost predicate SameFor(a: Files, b: Files, g: GoalId) {
    forall p: Path :: p.goal == g ==> (p in a <==> p in b) && (p in a ==> a[p] == b[p])
  }

  ghost predicate WritesOnly(g: GoalId, op: Op) {
    NamesGoal(g, op) && forall put :: put in WritePuts(g, op) ==> put.path.goal == g && Kept(put.path, put.content)
  }

  lemma WritesOnlyIsOrdinary(g: GoalId, op: Op)
    requires WritesOnly(g, op)
    ensures Ordinary(op) && KeepsLogs(op)
  {
    assert op.WriteRaw? ==> Put(op.path, op.payload) in WritePuts(g, op);
  }

  /** Between processes: at most one pending intent, and redoing it gives the reference. */
  ghost predicate Repairable(s: Store, ref: Files, g: GoalId) {
    var pending := Pending(Wal(s, g));
    && |pending| <= 1
    && (pending == [] ==> SameFor(s.files, ref, g))
    && (pending != [] ==>
          WritesOnly(g, pending[0].op) && SameFor(PutAll(s.files, WritePuts(g, pending[0].op)), ref, g))
  }

  ghost predicate Settled(s: Store, ref: Files, g: GoalId) {
    Pending(Wal(s, g)) == [] && SameFor(s.files, ref, g)
  }

  function EmptyCompaction(g: GoalId): seq<Effect> {
    [Append(g, CompactionStart), WriteTmp(g, []), RenameTmp(g), Append(g, CompactionComplete)]
  }

  ghost predicate PlanShape(g: GoalId, j: Job) {
    var puts := WritePuts(g, j.op);
    var core := [Append(g, Intent(j.op, j.ts))] + AsWrites(puts) + [Append(g, Commit(j.ts))];
    && WritesOnly(g, j.op)
    && (j.plan == core || j.plan == core + EmptyCompaction(g))
    && j.done <= |j.plan|
  }

  ghost predicate InFlight(s: Store, ref: Files, g: GoalId, j: Job) {
    var puts := WritePuts(g, j.op);
    && PlanShape(g, j)
    && if j.done == 0 then
         Settled(s, ref, g) && FreshTime(Wal(s, g), j.ts) && BuildOp(ref, g, j.req) == Some(j.op) &&
         Admissible(g, j.req) && ReadNames(g, j.req)
       else if j.done <= |puts| + 1 then
         && Pending(Wal(s, g)) == [Intent(j.op, j.ts)]
         && SameFor(PutAll(s.files, puts), ref, g)
         && SameFor(PutAll(s.files, puts[j.done - 1..]), ref, g)
       else
         Settled(s, ref, g) && (j.done == |puts| + 4 ==> g in s.tmps && s.tmps[g] == [])
  }

  ghost predicate GoalInv(m: Machine, ref: Files, g: GoalId) {
    if g in m.jobs then m.up && InFlight(m.store, ref, g, m.jobs[g])
    else if m.up then Settled(m.store, ref, g)
    else Repairable(m.store, ref, g)
  }

  /** Only goals that recovery finds have a log, every log and temporary can be read, and every file names its goal. */
  ghost predicate Sound(s: Store) {
    && WellNamed(s.files)
    && (forall g :: g in s.wals ==> PlainName(g) && Intact(s.wals[g]))
    && (forall g :: g in s.tmps ==> Intact(s.tmps[g]))
  }

  ghost predicate Inv(m: Machine, ref: Files) {
    && WellNamed(ref) && Sound(m.store)
    && (forall g :: g in m.jobs ==> PlainName(g))
    && (forall r :: r in m.read ==> r.1.id == r.0)
    && forall g :: GoalInv(m, ref, g)
  }

  // ----- Locality -----

  lemma BuildOpLocal(a: Files, b: Files, g: GoalId, req: Request)
    requires SameFor(a, b, g)
    ensures BuildOp(a, g, req) == BuildOp(b, g, req)
  {
    assert Path(g, ObservationsJson).goal == g && Path(g, GoalJson).goal == g && Path(g, GapHistoryJson).goal == g;
    assert Path(g, ArchivedGoalJson).goal == g && Path(g, ArchiveMarker).goal == g;
  }

  lemma {:induction false} PutAllLocal(a: Files, b: Files, g: GoalId, puts: seq<Put>)
    requires SameFor(a, b, g)
    ensures SameFor(PutAll(a, puts), PutAll(b, puts), g)
    decreases |puts|
  {
    if puts != [] {
      PutAllLocal(a[puts[0].path := puts[0].content], b[puts[0].path := puts[0].content], g, puts[1..]);
    }
  }

  lemma {:induction false} PutAllElsewhere(files: Files, puts: seq<Put>, g: GoalId, h: GoalId)
    requires forall put :: put in puts ==> put.path.goal == g
    requires g != h
    ensures SameFor(files, PutAll(files, puts), h)
    decreases |puts|
  {
    if puts != [] {
      PutAllElsewhere(files[puts[0].path := puts[0].content], puts[1..], g, h);
    }
  }

  predicate EffectOf(g: GoalId, e: Effect) {
    match e
    case Append(h, _) => h == g
    case Write(put) => put.path.goal == g
    case WriteTmp(h, _) => h == g
    case RenameTmp(h) => h == g
  }

  ghost predicate StoreSameFor(s: Store, t: Store, g: GoalId) {
    && Wal(s, g) == Wal(t, g) && SameFor(s.files, t.files, g)
    && (g in s.tmps <==> g in t.tmps) && (g in s.tmps ==> s.tmps[g] == t.tmps[g])
  }

  lemma ApplyElsewhere(s: Store, e: Effect, g: GoalId, h: GoalId)
    requires EffectOf(g, e) && g != h
    ensures StoreSameFor(s, Apply(s, e), h)
  {
  }

  lemma InFlightLocal(s: Store, t: Store, ref: Files, ref': Files, g: GoalId, j: Job)
    requires InFlight(s, ref, g, j)
    requires StoreSameFor(s, t, g) && SameFor(ref, ref', g)
    ensures InFlight(t, ref', g, j)
  {
    BuildOpLocal(ref, ref', g, j.req);
    var puts := WritePuts(g, j.op);
    PutAllLocal(s.files, t.files, g, puts);
    if 0 < j.done <= |puts| + 1 {
      PutAllLocal(s.files, t.files, g, puts[j.done - 1..]);
    }
  }

  lemma RepairableLocal(s: Store, t: Store, ref: Files, g: GoalId)
    requires Repairable(s, ref, g) && StoreSameFor(s, t, g)
    ensures Repairable(t, ref, g)
  {
    if Pending(Wal(s, g)) != [] {
      PutAllLocal(s.files, t.files, g, WritePuts(g, Pending(Wal(s, g))[0].op));
    }
  }

  // ----- Steps keep the invariant -----

  lemma CommittedWriteLeavesNothing(log: seq<Record>, op: Op, ts: nat)
    requires Pending(log) == [] && FreshTime(log, ts)
    ensures Pending(log + [Intent(op, ts), Commit(ts)]) == []
  {
    NewIntentIsPending(log, op, ts);
    CommitFilters(log + [Intent(op, ts)], ts);
    assert log + [Intent(op, ts), Commit(ts)] == log + [Intent(op, ts)] + [Commit(ts)];
    assert WithoutTs([Intent(op, ts)], ts) == [];
  }

  lemma BeginKeepsInv(m: Machine, ref: Files, g: GoalId, req: Request, ts: nat)
    requires Inv(m, ref) && Enabled(m, Begin(g, req, ts)) && (Acceptable(g, req) ==> Admissible(g, req))
    ensures Inv(Next(m, Begin(g, req, ts)), ref)
  {
    var m' := Next(m, Begin(g, req, ts));
    assert GoalInv(m, ref, g);
    BuildOpLocal(m.store.files, ref, g, req);
    AcceptableIffSomeFiles(g, req);
    if BuildOp(ref, g, req).Some? {
      assert ReadNames(g, req) by {
        if req.ReqSavePaceSnapshot? { assert (g, req.read) in m.read; }
      }
      BuiltOpNamesGoal(ref, g, req);
      var op := BuildOp(ref, g, req).value;
      WritesOnlyIsOrdinary(g, op);
      assert Path(g, LockDirectory) !in m.store.files;
      CommittedWriteLeavesNothing(Wal(m.store, g), op, ts);
      assert InFlight(m'.store, ref, g, m'.jobs[g]);
      forall h ensures GoalInv(m', ref, h) {
        assert GoalInv(m, ref, h);
      }
    }
  }

  lemma AdvanceIntent(s: Store, ref: Files, g: GoalId, j: Job)
    requires InFlight(s, ref, g, j) && j.done == 0
    ensures j.plan[0] == Append(g, Intent(j.op, j.ts))
    ensures InFlight(Apply(s, j.plan[0]), Perform(ref, g, j.req), g, j.(done := 1))
  {
    var puts := WritePuts(g, j.op);
    NewIntentIsPending(Wal(s, g), j.op, j.ts);
    PutAllLocal(s.files, ref, g, puts);
    assert puts[0..] == puts;
  }

  lemma PutOne(files: Files, puts: seq<Put>, i: nat)
    requires i < |puts|
    ensures var files' := files[puts[i].path := puts[i].content];
      PutAll(files', puts) == PutAll(files, puts) && PutAll(files', puts[i + 1..]) == PutAll(files, puts[i..])
  {
    var one := [puts[i]];
    assert PutAll(files, one) == files[puts[i].path := puts[i].content] by { assert one[1..] == []; }
    assert PathsOf(one) <= PathsOf(puts) by { assert forall k :: 0 <= k < 1 ==> one[k] == puts[i]; }
    RedoPuts(files, puts, one);
    assert puts[i..][1..] == puts[i + 1..];
  }

  lemma AdvancePut(s: Store, ref: Files, g: GoalId, j: Job)
    requires InFlight(s, ref, g, j) && 1 <= j.done <= |WritePuts(g, j.op)|
    ensures j.plan[j.done] == Write(WritePuts(g, j.op)[j.done - 1])
    ensures InFlight(Apply(s, j.plan[j.done]), ref, g, j.(done := j.done + 1))
  {
    var puts := WritePuts(g, j.op);
    var put := puts[j.done - 1];
    assert j.plan[j.done] == AsWrites(puts)[j.done - 1];
    assert put in puts && Apply(s, Write(put)) == s.(files := s.files[put.path := put.content]);
    PutOne(s.files, puts, j.done - 1);
  }

  lemma AdvanceCommit(s: Store, ref: Files, g: GoalId, j: Job)
    requires InFlight(s, ref, g, j) && j.done == |WritePuts(g, j.op)| + 1
    ensures j.plan[j.done] == Append(g, Commit(j.ts))
    ensures InFlight(Apply(s, j.plan[j.done]), ref, g, j.(done := j.done + 1))
  {
    var puts := WritePuts(g, j.op);
    CommitFilters(Wal(s, g), j.ts);
    assert WithoutTs([Intent(j.op, j.ts)], j.ts) == [];
    assert puts[|puts|..] == [];
  }

  /** What the effects of a write in flight do to its own goal. */
  lemma AdvanceOwn(s: Store, ref: Files, g: GoalId, j: Job)
    requires InFlight(s, ref, g, j) && j.done < |j.plan|
    ensures EffectOf(g, j.plan[j.done])
    ensures InFlight(Apply(s, j.plan[j.done]), RefAfter(ref, g, j), g, j.(done := j.done + 1))
  {
    var n := |WritePuts(g, j.op)|;
    if j.done == 0 {
      AdvanceIntent(s, ref, g, j);
    } else if j.done <= n {
      AdvancePut(s, ref, g, j);
    } else if j.done == n + 1 {
      AdvanceCommit(s, ref, g, j);
    } else {
      AdvanceCompaction(s, ref, g, j);
    }
  }

  /** The reference takes a request in when its intent reaches the log. */
  function RefAfter(ref: Files, g: GoalId, j: Job): Files {
    if j.done == 0 then Perform(ref, g, j.req) else ref
  }

  lemma AdvanceCompaction(s: Store, ref: Files, g: GoalId, j: Job)
    requires InFlight(s, ref, g, j) && |WritePuts(g, j.op)| + 2 <= j.done < |j.plan|
    ensures EffectOf(g, j.plan[j.done])
    ensures InFlight(Apply(s, j.plan[j.done]), ref, g, j.(done := j.done + 1))
  {
    var n := |WritePuts(g, j.op)|;
    var e := j.plan[j.done];
    assert e == EmptyCompaction(g)[j.done - n - 2];
    if j.done == n + 2 {
      MarkerChangesNothing(Wal(s, g), CompactionStart);
    } else if j.done == n + 4 {
      assert Pending([]) == [];
    } else if j.done == n + 5 {
      MarkerChangesNothing(Wal(s, g), CompactionComplete);
    }
  }

  predicate SoundEffect(g: GoalId, e: Effect) {
    match e
    case Append(h, r) => h == g && !r.Torn?
    case Write(put) => Kept(put.path, put.content)
    case WriteTmp(h, log) => h == g && Intact(log)
    case RenameTmp(h) => h == g
  }

  lemma PlanIsSound(g: GoalId, j: Job)
    requires PlanShape(g, j) && j.done < |j.plan|
    ensures SoundEffect(g, j.plan[j.done])
  {
    var e, puts := j.plan[j.done], WritePuts(g, j.op);
    if 1 <= j.done <= |puts| {
      assert e == AsWrites(puts)[j.done - 1];
      assert puts[j.done - 1] in puts;
    } else if j.done >= |puts| + 2 {
      assert e == EmptyCompaction(g)[j.done - |puts| - 2];
    }
  }

  lemma ApplySound(s: Store, g: GoalId, e: Effect)
    requires Sound(s) && PlainName(g) && SoundEffect(g, e)
    ensures Sound(Apply(s, e))
  {
  }

  lemma AdvanceOther(m: Machine, ref: Files, g: GoalId, h: GoalId, m': Machine)
    requires GoalInv(m, ref, h) && g in m.jobs && g != h
    requires var j := m.jobs[g];
      j.done < |j.plan| && InFlight(m.store, ref, g, j) && EffectOf(g, j.plan[j.done]) &&
      m'.store == Apply(m.store, j.plan[j.done])
    requires m'.up == m.up && m'.jobs - {g} == m.jobs - {g}
    ensures GoalInv(m', RefAfter(ref, g, m.jobs[g]), h)
  {
    var j := m.jobs[g];
    var ref' := RefAfter(ref, g, j);
    ApplyElsewhere(m.store, j.plan[j.done], g, h);
    if j.done == 0 {
      PutAllElsewhere(ref, WritePuts(g, j.op), g, h);
    }
    assert h in m.jobs <==> h in m.jobs - {g};
    assert h in m'.jobs <==> h in m'.jobs - {g};
    if h in m.jobs {
      assert m'.jobs[h] == (m'.jobs - {g})[h] == (m.jobs - {g})[h];
      InFlightLocal(m.store, m'.store, ref, ref', h, m.jobs[h]);
    } else {
      RepairableLocal(m.store, m'.store, ref, h);
    }
  }

  lemma AdvanceAll(m: Machine, ref: Files, g: GoalId, m': Machine, j: Job)
    requires (forall h :: GoalInv(m, ref, h)) && m.up && g in m.jobs && j == m.jobs[g] && j.done < |j.plan|
    requires m'.store == Apply(m.store, j.plan[j.done]) && m'.jobs == m.jobs[g := j.(done := j.done + 1)] && m'.up
    ensures forall h :: GoalInv(m', RefAfter(ref, g, j), h)
  {
    assert GoalInv(m, ref, g);
    AdvanceOwn(m.store, ref, g, j);
    assert m'.jobs - {g} == m.jobs - {g};
    forall h ensures GoalInv(m', RefAfter(ref, g, j), h) {
      if h != g {
        assert GoalInv(m, ref, h);
        AdvanceOther(m, ref, g, h, m');
      }
    }
  }

  lemma AdvanceKeepsInv(m: Machine, ref: Files, g: GoalId)
    requires Inv(m, ref) && Enabled(m, Advance(g)) && m.jobs[g].done < |m.jobs[g].plan|
    ensures var m' := Next(m, Advance(g)); var j := m.jobs[g];
      && Inv(m', RefAfter(ref, g, j))
      && m'.logged == if j.done == 0 then m.logged + [(g, j.req)] else m.logged
  {
    var m' := Next(m, Advance(g));
    var j := m.jobs[g];
    assert GoalInv(m, ref, g);
    PlanIsSound(g, j);
    ApplySound(m.store, g, j.plan[j.done]);
    AdvanceAll(m, ref, g, m', j);
    if j.done == 0 {
      PerformKeepsWellNamed(ref, g, j.req);
    }
  }

  lemma FinishKeepsInv(m: Machine, ref: Files, g: GoalId)
    requires Inv(m, ref) && Enabled(m, Advance(g)) && m.jobs[g].done >= |m.jobs[g].plan|
    ensures Inv(Next(m, Advance(g)), ref)
  {
    forall h ensures GoalInv(Next(m, Advance(g)), ref, h) {
      assert GoalInv(m, ref, h);
    }
  }

  lemma ReadKeepsInv(m: Machine, ref: Files, g: GoalId)
    requires Inv(m, ref)
    ensures Inv(Next(m, ReadGoal(g)), ref)
  {
    var m' := Next(m, ReadGoal(g));
    if GoalToUpdate(m.store.files, g).Some? {
      LoadedGoalNamed(m.store.files, g);
    }
    forall h ensures GoalInv(m', ref, h) {
      assert GoalInv(m, ref, h);
    }
  }

  lemma CrashKeepsInv(m: Machine, ref: Files)
    requires Inv(m, ref)
    ensures Inv(Next(m, Crash), ref)
  {
    forall g ensures GoalInv(Next(m, Crash), ref, g) {
      assert GoalInv(m, ref, g);
    }
  }

  ghost predicate AllRepairable(s: Store, ref: Files) {
    Sound(s) && forall g :: Repairable(s, ref, g)
  }

  lemma PendingIsOrdinary(s: Store, ref: Files, r: Redo)
    requires AllRepairable(s, ref) && Pending(Wal(s, r.goal)) == [Intent(r.op, r.ts)]
    ensures WritesOnly(r.goal, r.op) && Ordinary(r.op) && KeepsLogs(r.op) && ReplayPuts(r.op) == WritePuts(r.goal, r.op)
    ensures r.goal in s.wals
  {
    assert Repairable(s, ref, r.goal);
    WritesOnlyIsOrdinary(r.goal, r.op);
    ReplayMatchesWrite(r.goal, r.op);
    assert Pending([]) == [];
  }

  lemma {:induction false} PutAllKept(files: Files, puts: seq<Put>)
    requires WellNamed(files) && forall put :: put in puts ==> Kept(put.path, put.content)
    ensures WellNamed(PutAll(files, puts))
    decreases |puts|
  {
    if puts != [] {
      assert puts[0] in puts;
      PutAllKept(files[puts[0].path := puts[0].content], puts[1..]);
    }
  }

  lemma RepairableTimesDistinct(s: Store, ref: Files, ids: seq<GoalId>)
    requires AllRepairable(s, ref)
    ensures DistinctTimes(s, ids)
  {
    forall g | g in ids ensures DistinctPending(Wal(s, g)) {
      assert Repairable(s, ref, g);
    }
  }

  lemma {:induction false} TodoHead(s: Store, ids: seq<GoalId>)
    requires Todo(s, ids) != []
    ensures var r := Todo(s, ids)[0]; Pending(Wal(s, r.goal)) != [] && Pending(Wal(s, r.goal))[0] == Intent(r.op, r.ts)
  {
    if Pending(Wal(s, ids[0])) == [] {
      TodoHead(s, ids[1..]);
      assert Todo(s, ids) == Todo(s, ids[1..]);
    }
  }

  lemma PartOfRedoKeepsRepairable(s: Store, ref: Files, r: Redo, k: nat)
    requires AllRepairable(s, ref)
    requires Pending(Wal(s, r.goal)) == [Intent(r.op, r.ts)]
    requires k < |RedoPlan(r)|
    ensures AllRepairable(Exec(s, RedoPlan(r)[..k]), ref)
  {
    var g := r.goal;
    PendingIsOrdinary(s, ref, r);
    var puts := WritePuts(g, r.op);
    PartOfRedo(s, r, k);
    var s' := Exec(s, RedoPlan(r)[..k]);
    PutAllKept(s.files, puts[..k]);
    forall h ensures Repairable(s', ref, h) {
      assert Repairable(s, ref, h);
      if h == g {
        assert PathsOf(puts[..k]) <= PathsOf(puts) by {
          assert forall i :: 0 <= i < k ==> puts[..k][i] == puts[i];
        }
        RedoPuts(s.files, puts, puts[..k]);
      } else {
        PutAllElsewhere(s.files, puts[..k], g, h);
        RepairableLocal(s, s', ref, h);
      }
    }
  }

  lemma WholeRedoKeepsRepairable(s: Store, ref: Files, r: Redo)
    requires AllRepairable(s, ref)
    requires Pending(Wal(s, r.goal)) == [Intent(r.op, r.ts)]
    ensures AllRepairable(Exec(s, RedoPlan(r)), ref)
  {
    var g := r.goal;
    PendingIsOrdinary(s, ref, r);
    ExecRedo(s, r);
    var s' := Exec(s, RedoPlan(r));
    PutAllKept(s.files, WritePuts(g, r.op));
    forall h ensures Repairable(s', ref, h) {
      assert Repairable(s, ref, h);
      if h == g {
        CommitRemovesItsIntentOnly(Wal(s, g));
        assert Pending(Wal(s', g)) == [];
      } else {
        PutAllElsewhere(s.files, WritePuts(g, r.op), g, h);
        RepairableLocal(s, s', ref, h);
      }
    }
  }

  /** The first item to redo is the one pending intent of its goal. */
  lemma FirstRedo(s: Store, ref: Files, ids: seq<GoalId>)
    requires AllRepairable(s, ref) && NoDuplicates(ids) && Todo(s, ids) != []
    ensures var r := Todo(s, ids)[0]; var s1 := Exec(s, RedoPlan(r));
      && Pending(Wal(s, r.goal)) == [Intent(r.op, r.ts)] && KeepsLogs(r.op)
      && AllRepairable(s1, ref) && Todo(s1, ids) == Todo(s, ids)[1..]
  {
    var r := Todo(s, ids)[0];
    TodoHead(s, ids);
    assert Repairable(s, ref, r.goal);
    PendingIsOrdinary(s, ref, r);
    WholeRedoKeepsRepairable(s, ref, r);
    RepairableTimesDistinct(s, ref, ids);
    RecoverUnfold(s, ids);
  }

  lemma {:induction false} CutRecoveryKeepsRepairable(s: Store, ref: Files, ids: seq<GoalId>, k: nat)
    requires AllRepairable(s, ref) && NoDuplicates(ids)
    requires k <= |RecoveryPlan(Todo(s, ids))|
    ensures AllRepairable(CutRecovery(s, ids, k), ref)
    decreases |Todo(s, ids)|
  {
    if Todo(s, ids) == [] {
      CutNothing(s, ids, k);
    } else {
      var head := RedoPlan(Todo(s, ids)[0]);
      FirstRedo(s, ref, ids);
      CutAtHead(s, ids, k, head, Exec(s, head));
      if k < |head| {
        PartOfRedoKeepsRepairable(s, ref, Todo(s, ids)[0], k);
      } else {
        CutRecoveryKeepsRepairable(Exec(s, head), ref, ids, k - |head|);
      }
    }
  }

  lemma {:induction false} TodoKeepsLogs(s: Store, ref: Files, ids: seq<GoalId>)
    requires AllRepairable(s, ref)
    ensures LogsKept(s, ids)
  {
    if ids != [] {
      var g := ids[0];
      assert Repairable(s, ref, g);
      TodoKeepsLogs(s, ref, ids[1..]);
      forall r | r in Todo(s, ids) ensures KeepsLogs(r.op) {
        if r !in Todo(s, ids[1..]) {
          PendingIsOrdinary(s, ref, r);
        }
      }
    }
  }

  lemma {:induction false} NothingTodo(s: Store, ids: seq<GoalId>, g: GoalId)
    requires Todo(s, ids) == [] && AllIntact(s, ids) && g in ids
    ensures Pending(Wal(s, g)) == []
  {
    assert Intact(Wal(s, ids[0]));
    if g != ids[0] {
      NothingTodo(s, ids[1..], g);
    }
  }

  lemma {:induction false} RecoveryLogsOnly(s: Store, todo: seq<Redo>, g: GoalId)
    requires forall r :: r in todo ==> r.goal != g && KeepsLogs(r.op)
    ensures Wal(Exec(s, RecoveryPlan(todo)), g) == Wal(s, g)
    decreases |todo|
  {
    if todo != [] {
      assert todo[0] in todo;
      RedoCommits(s, todo[0]);
      ExecConcat(s, RedoPlan(todo[0]), RecoveryPlan(todo[1..]));
      RecoveryLogsOnly(Exec(s, RedoPlan(todo[0])), todo[1..], g);
    }
  }

  lemma RecoveredSettled(s: Store, ref: Files, ids: seq<GoalId>, g: GoalId)
    requires AllRepairable(s, ref) && NoDuplicates(ids) && AllListed(s, ids)
    requires AllRepairable(Recover(s, ids), ref)
    ensures Settled(Recover(s, ids), ref, g)
  {
    var s' := Recover(s, ids);
    RepairableTimesDistinct(s, ref, ids);
    TodoKeepsLogs(s, ref, ids);
    assert Repairable(s', ref, g);
    if g in ids {
      RecoveryLeavesNothingPending(s, ids);
      NothingTodo(s', ids, g);
    } else {
      TodoGoals(s, ids);
      RecoveryLogsOnly(s, Todo(s, ids), g);
      assert Wal(s, g) == [];
    }
  }

  lemma RecoveryKeepsInv(m: Machine, ref: Files, ids: seq<GoalId>, cut: nat)
    requires Inv(m, ref) && Enabled(m, Recovery(ids, cut))
    ensures Inv(Next(m, Recovery(ids, cut)), ref)
  {
    var m' := Next(m, Recovery(ids, cut));
    var plan := RecoveryPlan(Todo(m.store, ids));
    assert AllRepairable(m.store, ref) by {
      forall g ensures Repairable(m.store, ref, g) {
        assert GoalInv(m, ref, g);
      }
    }
    var k := if cut < |plan| then cut else |plan|;
    assert plan[..|plan|] == plan;
    CutRecoveryKeepsRepairable(m.store, ref, ids, k);
    forall g ensures GoalInv(m', ref, g) {
      assert GoalInv(m, ref, g);
      if m'.up {
        RecoveredSettled(m.store, ref, ids, g);
      }
    }
  }

  lemma StepKeepsInv(files: Files, m: Machine, step: Step)
    requires Inv(m, Reference(files, m.logged)) && Enabled(m, step)
    requires step.Begin? && Acceptable(step.g, step.req) ==> Admissible(step.g, step.req)
    ensures Inv(Next(m, step), Reference(files, Next(m, step).logged))
  {
    var ref := Reference(files, m.logged);
    match step
    case ReadGoal(g) => ReadKeepsInv(m, ref, g);
    case Begin(g, req, ts) => BeginKeepsInv(m, ref, g, req, ts);
    case Advance(g) =>
      var j, m' := m.jobs[g], Next(m, step);
      if j.done >= |j.plan| {
        FinishKeepsInv(m, ref, g);
      } else {
        assert GoalInv(m, ref, g);
        AdvanceKeepsInv(m, ref, g);
        if j.done == 0 {
          assert m'.logged[..|m'.logged| - 1] == m.logged;
        }
      }
    case Crash => CrashKeepsInv(m, ref);
    case Recovery(ids, cut) => RecoveryKeepsInv(m, ref, ids, cut);
  }

  lemma {:induction false} RunKeepsInv(files: Files, m: Machine, steps: seq<Step>)
    requires Inv(m, Reference(files, m.logged)) && ValidRun(m, steps) && AllAdmissible(steps)
    ensures Inv(Run(m, steps), Reference(files, Run(m, steps).logged))
    decreases |steps|
  {
    if steps != [] {
      StepKeepsInv(files, m, steps[0]);
      RunKeepsInv(files, Next(m, steps[0]), steps[1..]);
    }
  }

  lemma InitInv(files: Files)
    requires WellNamed(files)
    ensures Inv(Init(files), Reference(files, []))
  {
  }

  // ----- Main results -----

  lemma SameForAll(a: Files, b: Files)
    requires forall g :: SameFor(a, b, g)
    ensures a == b
  {
    forall p: Path ensures (p in a <==> p in b) && (p in a ==> a[p] == b[p]) {
      assert SameFor(a, b, p.goal);
    }
    assert a.Keys == b.Keys;
  }

  lemma IntactHasNoDocument(logs: map<GoalId, seq<Record>>, g: GoalId)
    requires forall h :: h in logs ==> Intact(logs[h])
    ensures RawDocument(logs, g) == None
  {
    if g in logs && |logs[g]| == 1 {
      assert logs[g][0] in logs[g];
    }
  }

  lemma IntactShowsFiles(s: Store)
    requires (forall g :: g in s.wals ==> Intact(s.wals[g])) && (forall g :: g in s.tmps ==> Intact(s.tmps[g]))
    ensures Shows(s, s.files)
  {
    forall path ensures Found(s, path) == Lookup(s.files, path) {
      IntactHasNoDocument(s.wals, path.goal);
      IntactHasNoDocument(s.tmps, path.goal);
    }
  }

  /** The files before and after each request, each storing what it should on what the former left. */
  ghost predicate History(files: Files, requests: seq<(GoalId, Request)>, h: seq<Files>) {
    && |h| == |requests| + 1 && h[0] == files
    && forall i :: 0 <= i < |requests| ==> Stores(h[i], requests[i].0, requests[i].1, h[i + 1])
  }

  lemma {:induction false} ReferenceHistory(files: Files, requests: seq<(GoalId, Request)>) returns (h: seq<Files>)
    ensures History(files, requests, h) && h[|requests|] == Reference(files, requests)
    decreases |requests|
  {
    if requests == [] {
      h := [files];
    } else {
      var n := |requests| - 1;
      var before := ReferenceHistory(files, requests[..n]);
      PerformStores(before[n], requests[n].0, requests[n].1);
      h := before + [Reference(files, requests)];
    }
  }

  ghost predicate Atomic(files: Files, m: Machine) {
    m.up && m.jobs == map[] ==> Shows(m.store, Reference(files, m.logged))
  }

  /**
   * Crash atomicity. In every run of interleaved admissible writes, crashes between any two effects, and cut
   * recoveries, whenever a process is up with no write in flight the files are what the requests whose intent reached a
   * log give one after the other, which is said of the files alone; and every log can be read.
   */
  lemma CrashAtomicity(files: Files, steps: seq<Step>)
    requires WellNamed(files) && ValidRun(Init(files), steps) && AllAdmissible(steps)
    ensures Atomic(files, Run(Init(files), steps)) && Sound(Run(Init(files), steps).store)
    ensures var m := Run(Init(files), steps);
      m.up && m.jobs == map[] ==> exists h :: History(files, m.logged, h) && Shows(m.store, h[|m.logged|])
  {
    InitInv(files);
    RunKeepsInv(files, Init(files), steps);
    var m := Run(Init(files), steps);
    if m.up && m.jobs == map[] {
      var ref := Reference(files, m.logged);
      forall g ensures SameFor(m.store.files, ref, g) {
        assert GoalInv(m, ref, g);
      }
      SameForAll(m.store.files, ref);
      IntactShowsFiles(m.store);
      var h := ReferenceHistory(files, m.logged);
    }
  }

  /**
   * From whatever state a run has left behind, a crash followed by a complete recovery gives exactly the logged
   * requests.
   */
  lemma RecoveryAfterAnyRun(files: Files, steps: seq<Step>, ids: seq<GoalId>)
    requires WellNamed(files) && ValidRun(Init(files), steps) && AllAdmissible(steps)
    requires NoDuplicates(ids) && AllListed(Run(Init(files), steps).store, ids)
    ensures var m := Run(Init(files), steps);
      && Shows(Recover(m.store, ids), Reference(files, m.logged))
      && Todo(Recover(m.store, ids), ids) == [] && AllIntact(Recover(m.store, ids), ids)
      && exists h :: History(files, m.logged, h) && Shows(Recover(m.store, ids), h[|m.logged|])
  {
    InitInv(files);
    RunKeepsInv(files, Init(files), steps);
    var m := Run(Init(files), steps);
    var ref := Reference(files, m.logged);
    CrashKeepsInv(m, ref);
    assert AllRepairable(m.store, ref) by {
      forall g ensures Repairable(m.store, ref, g) {
        assert GoalInv(Next(m, Crash), ref, g);
      }
    }
    var plan, s' := RecoveryPlan(Todo(m.store, ids)), Recover(m.store, ids);
    assert plan[..|plan|] == plan;
    CutRecoveryKeepsRepairable(m.store, ref, ids, |plan|);
    forall g ensures SameFor(s'.files, ref, g) {
      RecoveredSettled(m.store, ref, ids, g);
    }
    SameForAll(s'.files, ref);
    IntactShowsFiles(s');
    var h := ReferenceHistory(files, m.logged);
    RepairableTimesDistinct(m.store, ref, ids);
    TodoKeepsLogs(m.store, ref, ids);
    RecoveryLeavesNothingPending(m.store, ids);
  }
}

/** The requests that keep crash atomicity, and a failing run for all others. */
module WriteConditions {
  import opened GoalWrites
  import opened Prelude
  import opened StateFiles
  import opened StateWal

  // ----- Recovering one pending intent -----

  lemma TodoOfOne(s: Store, g: GoalId, op: Op, ts: nat)
    requires Intact(Wal(s, g)) && Pending(Wal(s, g)) == [Intent(op, ts)]
    ensures RecoveryPlan(Todo(s, [g])) == RedoPlan(Redo(g, op, ts))
  {
    TodoUnfold(s, g, []);
    assert [g] + [] == [g];
    assert Todo(s, [g]) == Redos(g, [Intent(op, ts)]) + [] == [Redo(g, op, ts)];
    assert [Redo(g, op, ts)][1..] == [];
    assert RecoveryPlan([Redo(g, op, ts)]) == RedoPlan(Redo(g, op, ts)) + [] == RedoPlan(Redo(g, op, ts));
  }

  lemma TodoOfTwo(s: Store, g: GoalId, h: GoalId, a: Redo, b: Redo)
    requires g != h && a.goal == g && b.goal == h
    requires s == Store(map[], map[h := [Intent(b.op, b.ts)], g := [Intent(a.op, a.ts)]], map[])
    ensures RecoveryPlan(Todo(s, [g, h])) == RedoPlan(a) + RedoPlan(b)
  {
    assert Committed(Wal(s, g)) == {} && Committed(Wal(s, h)) == {};
    UncommittedOne(Intent(a.op, a.ts), {});
    UncommittedOne(Intent(b.op, b.ts), {});
    TodoOfOne(s, h, b.op, b.ts);
    TodoUnfold(s, g, [h]);
    assert [g] + [h] == [g, h];
    assert Todo(s, [g, h]) == [a] + Todo(s, [h]);
    assert ([a] + Todo(s, [h]))[1..] == Todo(s, [h]);
  }

  lemma RecoverOne(files: Files, g: GoalId, op: Op, ts: nat)
    ensures var s := Store(files, map[g := [Intent(op, ts)]], map[]);
      Recover(s, [g]) == Exec(s, RedoPlan(Redo(g, op, ts)))
  {
    var s := Store(files, map[g := [Intent(op, ts)]], map[]);
    assert Committed(Wal(s, g)) == {};
    UncommittedOne(Intent(op, ts), {});
    TodoOfOne(s, g, op, ts);
  }

  /** A raw write to the log that its own intent stands in. */
  predicate WritesOwnLog(g: GoalId, op: Op) {
    op.WriteRaw? && op.path == Path(g, LogFile)
  }

  lemma ExecTwo(s: Store, a: Effect, b: Effect)
    ensures Exec(s, [a, b]) == Apply(Apply(s, a), b)
  {
    assert [a, b] == [a] + [b];
    ExecConcat(s, [a], [b]);
    ExecOne(s, a);
    ExecOne(Apply(s, a), b);
  }

  lemma ShowsOne(s: Store, files: Files, others: Files)
    requires Shows(s, files) && Shows(s, others)
    ensures files == others
  {
    forall path: Path ensures Lookup(files, path) == Lookup(others, path) {
      assert Found(s, path) == Lookup(files, path);
    }
    forall path: Path ensures path in files <==> path in others {
      assert Lookup(files, path) == Lookup(others, path);
    }
    forall path | path in files ensures files[path] == others[path] {
      assert Lookup(files, path) == Lookup(others, path);
    }
  }

  lemma ShowsNoOther(s: Store, files: Files, others: Files)
    requires Shows(s, files) && files != others
    ensures !Shows(s, others)
  {
    if Shows(s, others) {
      ShowsOne(s, files, others);
    }
  }

  lemma RecoveredRaw(files: Files, g: GoalId, path: Path, payload: Content, ts: nat)
    ensures var s := Recover(Store(files, map[g := [Intent(WriteRaw(path, payload), ts)]], map[]), [g]);
      Shows(s, if path == Path(g, LogFile) then files else files[path := payload])
  {
    var op := WriteRaw(path, payload);
    var s0 := Store(files, map[g := [Intent(op, ts)]], map[]);
    RecoverOne(files, g, op, ts);
    assert RedoPlan(Redo(g, op, ts)) == [Write(Put(path, payload)), Append(g, Commit(ts))];
    ExecTwo(s0, Write(Put(path, payload)), Append(g, Commit(ts)));
  }

  lemma RecoveredOp(files: Files, g: GoalId, op: Op, ts: nat)
    requires !op.WriteRaw?
    ensures var s := Recover(Store(files, map[g := [Intent(op, ts)]], map[]), [g]);
      Shows(s, PutAll(files, ReplayPuts(op)))
  {
    var s0 := Store(files, map[g := [Intent(op, ts)]], map[]);
    RecoverOne(files, g, op, ts);
    ExecRedo(s0, Redo(g, op, ts));
    IntactShowsFiles(Recover(s0, [g]));
  }

  lemma ReplayDiffers(g: GoalId, op: Op)
    requires !NamesGoal(g, op)
    ensures PutAll(map[], ReplayPuts(op)) != PutAll(map[], WritePuts(g, op))
  {
    var path := WritePuts(g, op)[0].path;
    PutAllChangesOnly(map[], ReplayPuts(op));
    assert path !in PathsOf(ReplayPuts(op)) && path !in PutAll(map[], ReplayPuts(op));
    PutAllUnfold(map[], WritePuts(g, op));
  }

  lemma RecoveredDiffers(g: GoalId, op: Op, ts: nat)
    requires !NamesGoal(g, op) || WritesOwnLog(g, op)
    ensures !Shows(Recover(Store(map[], map[g := [Intent(op, ts)]], map[]), [g]), PutAll(map[], WritePuts(g, op)))
  {
    var s := Recover(Store(map[], map[g := [Intent(op, ts)]], map[]), [g]);
    PutAllUnfold(map[], WritePuts(g, op));
    if op.WriteRaw? {
      RecoveredRaw(map[], g, op.path, op.payload, ts);
      assert op.path in PutAll(map[], WritePuts(g, op));
      ShowsNoOther(s, map[], PutAll(map[], WritePuts(g, op)));
    } else {
      RecoveredOp(map[], g, op, ts);
      ReplayDiffers(g, op);
      ShowsNoOther(s, PutAll(map[], ReplayPuts(op)), PutAll(map[], WritePuts(g, op)));
    }
  }

  /**
   * With one pending intent, recovery does what its write would have done on every file set exactly when the data names
   * the goal and the write does not replace the log itself.
   */
  lemma RecoveryRedoesTheWriteIffNamed(g: GoalId, op: Op, ts: nat)
    ensures (forall files: Files ::
              Shows(Recover(Store(files, map[g := [Intent(op, ts)]], map[]), [g]), PutAll(files, WritePuts(g, op))))
      <==> NamesGoal(g, op) && !WritesOwnLog(g, op)
  {
    if NamesGoal(g, op) && !WritesOwnLog(g, op) {
      ReplayMatchesWrite(g, op);
      forall files: Files
        ensures Shows(Recover(Store(files, map[g := [Intent(op, ts)]], map[]), [g]), PutAll(files, WritePuts(g, op)))
      {
        PutAllUnfold(files, WritePuts(g, op));
        if op.WriteRaw? {
          RecoveredRaw(files, g, op.path, op.payload, ts);
        } else {
          RecoveredOp(files, g, op, ts);
        }
      }
    } else {
      RecoveredDiffers(g, op, ts);
    }
  }

  /**
   * A raw write can plant a log that names goal "b" under goal "a"; an append to "a" that crashes after its intent is
   * then lost.
   */
  lemma MisnamedLogExample()
    ensures var files: Files := map[Path("a", ObservationsJson) := ObservationDoc(ObservationLog("b", []))];
      var req := ReqAppendObservation(Observation("a", 7));
      var op := BuildOp(files, "a", req);
      && op.Some? && !NamesGoal("a", op.value)
      && !Shows(Recover(Store(files, map["a" := [Intent(op.value, 1)]], map[]), ["a"]), Perform(files, "a", req))
  {
    var files: Files := map[Path("a", ObservationsJson) := ObservationDoc(ObservationLog("b", []))];
    var req := ReqAppendObservation(Observation("a", 7));
    var op := BuildOp(files, "a", req).value;
    RecoveredOp(files, "a", op, 1);
    PutAllUnfold(files, ReplayPuts(op));
    PutAllUnfold(files, WritePuts("a", op));
    assert Path("b", ObservationsJson) !in Perform(files, "a", req);
    ShowsNoOther(Recover(Store(files, map["a" := [Intent(op, 1)]], map[]), ["a"]), PutAll(files, ReplayPuts(op)),
                 Perform(files, "a", req));
  }

  // ----- Runs -----

  lemma RunCons(m: Machine, step: Step, rest: seq<Step>)
    ensures Run(m, [step] + rest) == Run(Next(m, step), rest)
    ensures ValidRun(m, [step] + rest) <==> Enabled(m, step) && ValidRun(Next(m, step), rest)
  {
    assert ([step] + rest)[1..] == rest;
  }

  lemma {:induction false} RunConcat(m: Machine, a: seq<Step>, b: seq<Step>)
    ensures Run(m, a + b) == Run(Run(m, a), b)
    ensures ValidRun(m, a) && ValidRun(Run(m, a), b) ==> ValidRun(m, a + b)
    decreases |a|
  {
    if a == [] {
      assert a + b == b;
    } else {
      var step, rest := a[0], a[1..];
      assert a == [step] + rest && a + b == [step] + (rest + b);
      RunCons(m, step, rest);
      RunCons(m, step, rest + b);
      RunConcat(Next(m, step), rest, b);
    }
  }

  lemma RunOne(m: Machine, step: Step)
    requires Enabled(m, step)
    ensures Run(m, [step]) == Next(m, step) && ValidRun(m, [step])
  {
    assert [step][1..] == [];
  }

  lemma Then(m: Machine, a: seq<Step>, m1: Machine, b: seq<Step>, m2: Machine)
    requires ValidRun(m, a) && Run(m, a) == m1 && ValidRun(m1, b) && Run(m1, b) == m2
    ensures ValidRun(m, a + b) && Run(m, a + b) == m2
  {
    RunConcat(m, a, b);
  }

  lemma ThenOne(m: Machine, a: seq<Step>, m1: Machine, step: Step, m2: Machine)
    requires ValidRun(m, a) && Run(m, a) == m1 && Enabled(m1, step) && Next(m1, step) == m2
    ensures ValidRun(m, a + [step]) && Run(m, a + [step]) == m2
  {
    RunOne(m1, step);
    RunConcat(m, a, [step]);
  }

  function Started(files: Files): Machine {
    Init(files).(up := true)
  }

  lemma StartThen(files: Files, steps: seq<Step>)
    requires ValidRun(Started(files), steps)
    ensures ValidRun(Init(files), [Recovery([], 0)] + steps)
    ensures Run(Init(files), [Recovery([], 0)] + steps) == Run(Started(files), steps)
  {
    RunOne(Init(files), Recovery([], 0));
    RunConcat(Init(files), [Recovery([], 0)], steps);
  }

  function Advances(g: GoalId, n: nat): seq<Step> {
    seq(n, _ => Advance(g))
  }

  /** A request that the machine takes: it is built, its lock is free and its commit time is new. */
  ghost predicate Takes(m: Machine, g: GoalId, req: Request, op: Op, ts: nat) {
    && m.up && g !in m.jobs && BuildOp(m.store.files, g, req) == Some(op) && Path(g, LockDirectory) !in m.store.files
    && FreshTime(Wal(m.store, g), ts) && (req.ReqSavePaceSnapshot? ==> (g, req.read) in m.read)
  }

  function PlanOf(m: Machine, g: GoalId, op: Op, ts: nat): seq<Effect> {
    WritePlan(g, op, ts, Count(m, g), Wal(m.store, g))
  }

  function ToEnd(g: GoalId, n: nat): seq<Step> {
    Advances(g, n) + [Advance(g)]
  }

  function WholeWrite(m: Machine, g: GoalId, req: Request, op: Op, ts: nat): seq<Step> {
    [Begin(g, req, ts)] + ToEnd(g, |PlanOf(m, g, op, ts)|)
  }

  function JobOf(m: Machine, g: GoalId, req: Request, op: Op, ts: nat): Job {
    Job(req, op, ts, PlanOf(m, g, op, ts), 0)
  }

  lemma BeginStep(m: Machine, g: GoalId, req: Request, op: Op, ts: nat)
    requires Takes(m, g, req, op, ts)
    ensures Enabled(m, Begin(g, req, ts))
    ensures Next(m, Begin(g, req, ts)) == m.(jobs := m.jobs[g := JobOf(m, g, req, op, ts)])
  {
  }

  /** The machine with the first effects of a write in flight done up to k. */
  function Advanced(m: Machine, g: GoalId, j: Job, k: nat): Machine
    requires j.done <= k <= |j.plan|
  {
    m.(store := Exec(m.store, j.plan[j.done..k]), jobs := m.jobs[g := j.(done := k)],
       logged := if j.done == 0 < k then m.logged + [(g, j.req)] else m.logged)
  }

  lemma AdvanceStep(m: Machine, g: GoalId, j: Job)
    requires m.up && g in m.jobs && j == m.jobs[g] && j.done < |j.plan| && !MeetsLock(m, j.plan[j.done])
    ensures Enabled(m, Advance(g)) && Next(m, Advance(g)) == Advanced(m, g, j, j.done + 1)
  {
    assert j.plan[j.done..j.done + 1] == [j.plan[j.done]];
    ExecOne(m.store, j.plan[j.done]);
  }

  lemma AdvancedTwice(m: Machine, g: GoalId, j: Job, k: nat)
    requires j.done < k <= |j.plan|
    ensures Advanced(Advanced(m, g, j, j.done + 1), g, j.(done := j.done + 1), k) == Advanced(m, g, j, k)
  {
    var a, b := j.plan[j.done..j.done + 1], j.plan[j.done + 1..k];
    assert a + b == j.plan[j.done..k];
    ExecConcat(m.store, a, b);
    assert m.jobs[g := j.(done := j.done + 1)][g := j.(done := k)] == m.jobs[g := j.(done := k)];
  }

  /** What the next effects of a write in flight do to the machine. */
  lemma {:induction false} AdvanceMany(m: Machine, g: GoalId, j: Job, k: nat)
    requires m.up && g in m.jobs && j == m.jobs[g] && j.done <= k <= |j.plan|
    requires forall e :: e in j.plan ==> !MeetsLock(m, e)
    ensures ValidRun(m, Advances(g, k - j.done)) && Run(m, Advances(g, k - j.done)) == Advanced(m, g, j, k)
    decreases k - j.done
  {
    if j.done == k {
      assert m.jobs[g := j] == m.jobs;
      assert j.plan[k..k] == [];
    } else {
      var m1, j1 := Next(m, Advance(g)), j.(done := j.done + 1);
      AdvanceStep(m, g, j);
      assert m1.jobs.Keys == m.jobs.Keys;
      AdvanceMany(m1, g, j1, k);
      AdvancedTwice(m, g, j, k);
      assert Advances(g, k - j.done) == [Advance(g)] + Advances(g, k - j1.done);
      RunCons(m, Advance(g), Advances(g, k - j1.done));
    }
  }

  lemma PlanWrites(g: GoalId, op: Op, ts: nat, count: nat, log: seq<Record>, e: Effect)
    requires e in WritePlan(g, op, ts, count, log) && e.Write?
    ensures e.put in WritePuts(g, op)
  {
    assert e in AsWrites(WritePuts(g, op));
  }

  lemma PlanMeetsNoLock(m: Machine, g: GoalId, op: Op, ts: nat, count: nat, log: seq<Record>)
    requires forall put :: put in WritePuts(g, op) ==> put.path.file != LockDirectory
    ensures forall e :: e in WritePlan(g, op, ts, count, log) ==> !MeetsLock(m, e)
  {
    forall e | e in WritePlan(g, op, ts, count, log) ensures !MeetsLock(m, e) {
      if e.Write? { PlanWrites(g, op, ts, count, log, e); }
    }
  }

  lemma FinishStep(m: Machine, g: GoalId, j: Job)
    requires m.up && m.jobs == map[g := j] && j.done == |j.plan|
    ensures Enabled(m, Advance(g)) && Next(m, Advance(g)) == m.(jobs := map[], counts := m.counts[g := Count(m, g) + 1])
  {
    assert m.jobs - {g} == map[];
  }

  lemma JobCompletes(m: Machine, g: GoalId, j: Job)
    requires m.up && m.jobs == map[g := j] && j.done == 0 < |j.plan|
    requires forall e :: e in j.plan ==> !MeetsLock(m, e)
    ensures ValidRun(m, ToEnd(g, |j.plan|))
    ensures Run(m, ToEnd(g, |j.plan|)) ==
      m.(store := Exec(m.store, j.plan), jobs := map[], counts := m.counts[g := Count(m, g) + 1],
        logged := m.logged + [(g, j.req)])
  {
    var n := |j.plan|;
    AdvanceMany(m, g, j, n);
    assert j.plan[0..n] == j.plan;
    var m2 := Advanced(m, g, j, n);
    assert m2.jobs == map[g := j.(done := n)] && m2.store == Exec(m.store, j.plan);
    FinishStep(m2, g, j.(done := n));
    ThenOne(m, Advances(g, n), m2, Advance(g), Next(m2, Advance(g)));
  }

  /** A write that meets no lock does its whole plan. */
  lemma WriteCompletes(m: Machine, g: GoalId, req: Request, op: Op, ts: nat)
    requires Takes(m, g, req, op, ts) && m.jobs == map[]
    requires forall put :: put in WritePuts(g, op) ==> put.path.file != LockDirectory
    ensures ValidRun(m, WholeWrite(m, g, req, op, ts))
    ensures Run(m, WholeWrite(m, g, req, op, ts)) ==
      m.(store := Exec(m.store, PlanOf(m, g, op, ts)), counts := m.counts[g := Count(m, g) + 1],
        logged := m.logged + [(g, req)])
  {
    var j := JobOf(m, g, req, op, ts);
    var m1 := m.(jobs := m.jobs[g := j]);
    BeginStep(m, g, req, op, ts);
    RunOne(m, Begin(g, req, ts));
    PlanMeetsNoLock(m1, g, op, ts, Count(m, g), Wal(m.store, g));
    JobCompletes(m1, g, j);
    Then(m, [Begin(g, req, ts)], m1, ToEnd(g, |j.plan|), Run(m1, ToEnd(g, |j.plan|)));
  }

  // ----- A write whose process dies right after the intent, and the recovery -----

  /** A process that is up with no write in flight, and only the log of g, with nothing pending in it. */
  ghost predicate Quiet(m: Machine, g: GoalId) {
    && m.up && m.jobs == map[] && m.store.wals.Keys <= {g} && m.store.tmps == map[]
    && Pending(Wal(m.store, g)) == [] && Intact(Wal(m.store, g))
  }

  function CrashedWrite(g: GoalId, req: Request, ts: nat): seq<Step> {
    [Begin(g, req, ts), Advance(g), Crash, Recovery([g], 3)]
  }

  function WithIntent(m: Machine, g: GoalId, req: Request, op: Op, ts: nat): Machine {
    Machine(m.store.(wals := m.store.wals[g := Wal(m.store, g) + [Intent(op, ts)]]),
            map[], map[], false, {}, m.logged + [(g, req)])
  }

  lemma IntentLogged(m: Machine, g: GoalId, req: Request, ts: nat, op: Op)
    requires Takes(m, g, req, op, ts)
    ensures var m2 := m.(
        store := m.store.(wals := m.store.wals[g := Wal(m.store, g) + [Intent(op, ts)]]),
        jobs := m.jobs[g := JobOf(m, g, req, op, ts).(done := 1)], logged := m.logged + [(g, req)]);
      ValidRun(m, [Begin(g, req, ts), Advance(g)]) && Run(m, [Begin(g, req, ts), Advance(g)]) == m2
  {
    var j := JobOf(m, g, req, op, ts);
    var m1 := m.(jobs := m.jobs[g := j]);
    assert j.plan[0] == Append(g, Intent(op, ts));
    BeginStep(m, g, req, op, ts);
    AdvanceStep(m1, g, j);
    assert j.plan[0..1] == [j.plan[0]];
    ExecOne(m.store, j.plan[0]);
    RunOne(m, Begin(g, req, ts));
    ThenOne(m, [Begin(g, req, ts)], m1, Advance(g), Next(m1, Advance(g)));
    assert [Begin(g, req, ts)] + [Advance(g)] == [Begin(g, req, ts), Advance(g)];
    assert m1.jobs[g := j.(done := 1)] == m.jobs[g := j.(done := 1)];
  }

  lemma IntentThenCrash(m: Machine, g: GoalId, req: Request, ts: nat, op: Op)
    requires Takes(m, g, req, op, ts)
    ensures var steps := [Begin(g, req, ts), Advance(g), Crash];
      ValidRun(m, steps) && Run(m, steps) == WithIntent(m, g, req, op, ts)
  {
    IntentLogged(m, g, req, ts, op);
    var m2 := Run(m, [Begin(g, req, ts), Advance(g)]);
    ThenOne(m, [Begin(g, req, ts), Advance(g)], m2, Crash, Next(m2, Crash));
    assert [Begin(g, req, ts), Advance(g)] + [Crash] == [Begin(g, req, ts), Advance(g), Crash];
  }

  lemma IntentRecovered(log: seq<Record>, op: Op, ts: nat)
    requires Pending(log) == [] && Intact(log) && FreshTime(log, ts)
    ensures var log' := log + [Intent(op, ts)] + [Commit(ts)];
      Pending(log') == [] && Intact(log') && Committed(log') == Committed(log) + {ts}
  {
    assert log + [Intent(op, ts)] + [Commit(ts)] == log + [Intent(op, ts), Commit(ts)];
    CommittedWriteLeavesNothing(log, op, ts);
    CommittedSnoc(log, Intent(op, ts));
    CommittedSnoc(log + [Intent(op, ts)], Commit(ts));
  }

  lemma IntentRedone(s: Store, g: GoalId, log: seq<Record>, op: Op, ts: nat)
    requires Wal(s, g) == log + [Intent(op, ts)] && Pending(log) == [] && Intact(log) && FreshTime(log, ts) &&
      Ordinary(op)
    ensures |RecoveryPlan(Todo(s, [g]))| <= 3
    ensures Recover(s, [g]) == s.(
      files := PutAll(s.files, ReplayPuts(op)), wals := s.wals[g := log + [Intent(op, ts)] + [Commit(ts)]])
  {
    NewIntentIsPending(log, op, ts);
    TodoOfOne(s, g, op, ts);
    ExecRedo(s, Redo(g, op, ts));
  }

  lemma RecoversIntent(m: Machine, g: GoalId, req: Request, ts: nat, op: Op)
    requires Quiet(m, g) && PlainName(g) && FreshTime(Wal(m.store, g), ts) && Ordinary(op)
    ensures var down := WithIntent(m, g, req, op, ts); var m' := Run(down, [Recovery([g], 3)]);
      && ValidRun(down, [Recovery([g], 3)]) && Quiet(m', g)
      && m'.store.files == PutAll(m.store.files, ReplayPuts(op)) && m'.logged == m.logged + [(g, req)]
      && Committed(Wal(m'.store, g)) == Committed(Wal(m.store, g)) + {ts}
  {
    var down, log := WithIntent(m, g, req, op, ts), Wal(m.store, g);
    IntentRedone(down.store, g, log, op, ts);
    RunOne(down, Recovery([g], 3));
    IntentRecovered(log, op, ts);
  }

  lemma CrashedWriteRuns(m: Machine, g: GoalId, req: Request, ts: nat, op: Op)
    requires Quiet(m, g) && PlainName(g) && Takes(m, g, req, op, ts) && Ordinary(op)
    ensures var steps := CrashedWrite(g, req, ts); var m' := Run(m, steps);
      && ValidRun(m, steps) && Quiet(m', g)
      && m'.store.files == PutAll(m.store.files, ReplayPuts(op)) && m'.logged == m.logged + [(g, req)]
      && Committed(Wal(m'.store, g)) == Committed(Wal(m.store, g)) + {ts}
  {
    var first := [Begin(g, req, ts), Advance(g), Crash];
    IntentThenCrash(m, g, req, ts, op);
    RecoversIntent(m, g, req, ts, op);
    RunConcat(m, first, [Recovery([g], 3)]);
    assert first + [Recovery([g], 3)] == CrashedWrite(g, req, ts);
  }

  // ----- Requests that break atomicity -----

  /** The same call: what a pace snapshot reads is not the caller's. */
  ghost predicate SameCall(a: Request, b: Request) {
    a == b || (a.ReqSavePaceSnapshot? && b.ReqSavePaceSnapshot? && a.snapshot == b.snapshot)
  }

  ghost predicate AdmissibleOr(steps: seq<Step>, g: GoalId, req: Request) {
    forall i :: 0 <= i < |steps| && steps[i].Begin? && Acceptable(steps[i].g, steps[i].req) ==>
      Admissible(steps[i].g, steps[i].req) || (steps[i].g == g && SameCall(steps[i].req, req))
  }

  /**
   * In all runs whose requests are this one or admissible, the files are what the logged requests give one after the
   * other.
   */
  ghost predicate KeepsAtomicity(g: GoalId, req: Request) {
    forall files, steps :: WellNamed(files) && ValidRun(Init(files), steps) && AdmissibleOr(steps, g, req) ==>
      Atomic(files, Run(Init(files), steps))
  }

  ghost predicate Breaks(g: GoalId, req: Request, files: Files, steps: seq<Step>) {
    WellNamed(files) && ValidRun(Init(files), steps) && AdmissibleOr(steps, g, req) &&
      !Atomic(files, Run(Init(files), steps))
  }

  lemma ReferenceOne(files: Files, g: GoalId, req: Request)
    ensures Reference(files, [(g, req)]) == Perform(files, g, req)
  {
    assert [(g, req)][..0] == [];
  }

  lemma ReferenceTwo(files: Files, g: GoalId, req: Request, h: GoalId, req': Request)
    ensures Reference(files, [(g, req), (h, req')]) == Perform(Perform(files, g, req), h, req')
  {
    assert [(g, req), (h, req')][..1] == [(g, req)];
    ReferenceOne(files, g, req);
  }

  /** Nothing that the model's requests do removes a file. */
  lemma {:induction false} ReferenceHolds(files: Files, logged: seq<(GoalId, Request)>, i: nat, path: Path)
    requires i < |logged| && logged[i].1.ReqWriteRaw? && logged[i].1.path == path
    ensures path in Reference(files, logged)
    decreases |logged|
  {
    var n := |logged| - 1;
    var before, g, req := Reference(files, logged[..n]), logged[n].0, logged[n].1;
    if i < n {
      ReferenceHolds(files, logged[..n], i, path);
    }
    var op := BuildOp(before, g, req);
    if op.Some? {
      PutAllUnfold(before, WritePuts(g, op.value));
    }
  }

  // Writing a log

  lemma RawPlan(m: Machine, g: GoalId, path: Path, payload: Content, ts: nat)
    requires (Count(m, g) + 1) % COMPACT_EVERY != 0
    ensures PlanOf(m, g, WriteRaw(path, payload), ts) ==
      [Append(g, Intent(WriteRaw(path, payload), ts)), Write(Put(path, payload)), Append(g, Commit(ts))]
  {
  }

  lemma ExecThree(s: Store, a: Effect, b: Effect, c: Effect)
    ensures Exec(s, [a, b, c]) == Apply(Apply(Apply(s, a), b), c)
  {
    assert [a, b, c] == [a, b] + [c];
    ExecConcat(s, [a, b], [c]);
    ExecTwo(s, a, b);
    ExecOne(Apply(Apply(s, a), b), c);
  }

  function AfterRaw(s: Store, g: GoalId, path: Path, payload: Content, ts: nat): Store {
    Apply(Apply(Apply(s, Append(g, Intent(WriteRaw(path, payload), ts))), Write(Put(path, payload))),
      Append(g, Commit(ts)))
  }

  lemma RawWriteCompletes(m: Machine, g: GoalId, path: Path, payload: Content, ts: nat)
    requires Takes(m, g, ReqWriteRaw(path, payload), WriteRaw(path, payload), ts) && m.jobs == map[]
    requires path.file != LockDirectory && (Count(m, g) + 1) % COMPACT_EVERY != 0
    ensures var steps := WholeWrite(m, g, ReqWriteRaw(path, payload), WriteRaw(path, payload), ts);
      && ValidRun(m, steps)
      && Run(m, steps) ==
        m.(store := AfterRaw(m.store, g, path, payload, ts), counts := m.counts[g := Count(m, g) + 1],
           logged := m.logged + [(g, ReqWriteRaw(path, payload))])
  {
    var op := WriteRaw(path, payload);
    RawPlan(m, g, path, payload, ts);
    ExecThree(m.store, Append(g, Intent(op, ts)), Write(Put(path, payload)), Append(g, Commit(ts)));
    WriteCompletes(m, g, ReqWriteRaw(path, payload), op, ts);
  }

  /** An admissible raw write that other runs are filled with. */
  function Note(g: GoalId): Request {
    ReqWriteRaw(Path(g, OtherFile("note.json")), RawDoc(0))
  }

  function NoteOp(g: GoalId): Op {
    WriteRaw(Path(g, OtherFile("note.json")), RawDoc(0))
  }

  function OneNote(m: Machine, h: GoalId, ts: nat): seq<Step> {
    WholeWrite(m, h, Note(h), NoteOp(h), ts)
  }

  function LogThenNote(g: GoalId, path: Path, payload: Content): seq<Step> {
    var m := Started(map[]);
    var first := WholeWrite(m, g, ReqWriteRaw(path, payload), WriteRaw(path, payload), 1);
    if path.goal == g then first else first + OneNote(Run(m, first), path.goal, 1)
  }

  /** The raw write is logged and done, and something has been appended to the log that it replaced. */
  ghost predicate LogSpoilt(m: Machine, g: GoalId, path: Path, payload: Content) {
    && m.up && m.jobs == map[] && Found(m.store, path) == None && !Intact(Wal(m.store, path.goal))
    && m.logged != [] && m.logged[0] == (g, ReqWriteRaw(path, payload))
  }

  lemma OwnLogSpoilt(g: GoalId, path: Path, payload: Content)
    requires path == Path(g, LogFile)
    ensures LogSpoilt(Run(Started(map[]), LogThenNote(g, path, payload)), g, path, payload)
    ensures ValidRun(Started(map[]), LogThenNote(g, path, payload))
  {
    RawWriteCompletes(Started(map[]), g, path, payload, 1);
    var m := Run(Started(map[]), LogThenNote(g, path, payload));
    assert m.store.wals[g] == [Torn(payload), Commit(1)];
    assert Torn(payload) in m.store.wals[g];
  }

  lemma OtherLogReplaced(g: GoalId, path: Path, payload: Content, m: Machine)
    requires path.file == LogFile && path.goal != g
    requires
      m == Run(Started(map[]), WholeWrite(Started(map[]), g, ReqWriteRaw(path, payload), WriteRaw(path, payload), 1))
    ensures
      ValidRun(Started(map[]), WholeWrite(Started(map[]), g, ReqWriteRaw(path, payload), WriteRaw(path, payload), 1))
    ensures m.up && m.jobs == map[] && Wal(m.store, path.goal) == [Torn(payload)] && m.store.files == map[]
    ensures m.logged == [(g, ReqWriteRaw(path, payload))] && Count(m, path.goal) == 0
  {
    RawWriteCompletes(Started(map[]), g, path, payload, 1);
    assert [] + [(g, ReqWriteRaw(path, payload))] == [(g, ReqWriteRaw(path, payload))];
  }

  lemma NoteAfterTorn(m: Machine, h: GoalId, payload: Content)
    requires m.up && m.jobs == map[] && Wal(m.store, h) == [Torn(payload)] && m.store.files == map[] && Count(m, h) == 0
    ensures ValidRun(m, OneNote(m, h, 1))
    ensures var m' := Run(m, OneNote(m, h, 1));
      && m'.up && m'.jobs == map[] && Found(m'.store, Path(h, LogFile)) == None && !Intact(Wal(m'.store, h))
      && m'.logged == m.logged + [(h, Note(h))]
  {
    assert Committed([Torn(payload)]) == {};
    RawWriteCompletes(m, h, Path(h, OtherFile("note.json")), RawDoc(0), 1);
    var log := Wal(Run(m, OneNote(m, h, 1)).store, h);
    assert log[0] == Torn(payload) && |log| == 3;
    assert Torn(payload) in log;
  }

  lemma OtherLogSpoilt(g: GoalId, path: Path, payload: Content)
    requires path.file == LogFile && path.goal != g
    ensures LogSpoilt(Run(Started(map[]), LogThenNote(g, path, payload)), g, path, payload)
    ensures ValidRun(Started(map[]), LogThenNote(g, path, payload))
  {
    var m, h := Started(map[]), path.goal;
    var first := WholeWrite(m, g, ReqWriteRaw(path, payload), WriteRaw(path, payload), 1);
    var m1 := Run(m, first);
    OtherLogReplaced(g, path, payload, m1);
    NoteAfterTorn(m1, h, payload);
    Then(m, first, m1, OneNote(m1, h, 1), Run(m1, OneNote(m1, h, 1)));
  }

  lemma LogThenNoteRuns(g: GoalId, path: Path, payload: Content)
    requires path.file == LogFile
    ensures LogSpoilt(Run(Started(map[]), LogThenNote(g, path, payload)), g, path, payload)
    ensures ValidRun(Started(map[]), LogThenNote(g, path, payload))
  {
    if path.goal == g {
      OwnLogSpoilt(g, path, payload);
    } else {
      OtherLogSpoilt(g, path, payload);
    }
  }

  /** The requests of the steps are this one of g and notes of h. */
  ghost predicate OnlyAndNotes(steps: seq<Step>, g: GoalId, req: Request, h: GoalId) {
    forall step :: step in steps && step.Begin? ==>
      (step.g == g && step.req == req) || (step.g == h && step.req == Note(h))
  }

  lemma NotesAreAdmissible(steps: seq<Step>, g: GoalId, req: Request, h: GoalId)
    requires PlainName(h) && OnlyAndNotes(steps, g, req, h)
    ensures AdmissibleOr([Recovery([], 0)] + steps, g, req)
  {
    forall i | 0 <= i < |[Recovery([], 0)] + steps| && ([Recovery([], 0)] + steps)[i].Begin?
      ensures ([Recovery([], 0)] + steps)[i] in steps
    {
    }
  }

  lemma WholeWriteBegins(m: Machine, g: GoalId, req: Request, op: Op, ts: nat, step: Step)
    requires step in WholeWrite(m, g, req, op, ts) && step.Begin?
    ensures step.g == g && step.req == req
  {
  }

  /** A run from the empty store in which a raw write is logged and its file is missing at the end. */
  lemma MissingFileBreaks(g: GoalId, path: Path, payload: Content, steps: seq<Step>)
    requires ValidRun(Started(map[]), steps) && AdmissibleOr([Recovery([], 0)] + steps, g, ReqWriteRaw(path, payload))
    requires var m := Run(Started(map[]), steps);
      m.up && m.jobs == map[] && Found(m.store, path) == None && m.logged != [] &&
        m.logged[0] == (g, ReqWriteRaw(path, payload))
    ensures Breaks(g, ReqWriteRaw(path, payload), map[], [Recovery([], 0)] + steps)
  {
    StartThen(map[], steps);
    ReferenceHolds(map[], Run(Started(map[]), steps).logged, 0, path);
  }

  lemma LogThenNoteBegins(g: GoalId, path: Path, payload: Content)
    ensures OnlyAndNotes(LogThenNote(g, path, payload), g, ReqWriteRaw(path, payload), path.goal)
  {
    var m, h := Started(map[]), path.goal;
    var first := WholeWrite(m, g, ReqWriteRaw(path, payload), WriteRaw(path, payload), 1);
    forall step | step in LogThenNote(g, path, payload) && step.Begin?
      ensures (step.g == g && step.req == ReqWriteRaw(path, payload)) || (step.g == h && step.req == Note(h))
    {
      if step in first {
        WholeWriteBegins(m, g, ReqWriteRaw(path, payload), WriteRaw(path, payload), 1, step);
      } else {
        WholeWriteBegins(Run(m, first), h, Note(h), NoteOp(h), 1, step);
      }
    }
  }

  /** A raw write to a log does not last: the next line is appended to it. */
  lemma LogWriteBreaks(g: GoalId, path: Path, payload: Content)
    requires path.file == LogFile && PlainName(path.goal)
    ensures exists steps :: Breaks(g, ReqWriteRaw(path, payload), map[], steps)
  {
    LogThenNoteRuns(g, path, payload);
    LogThenNoteBegins(g, path, payload);
    NotesAreAdmissible(LogThenNote(g, path, payload), g, ReqWriteRaw(path, payload), path.goal);
    MissingFileBreaks(g, path, payload, LogThenNote(g, path, payload));
  }

  // A log that cannot be read stays so

  ghost predicate TornLog(m: Machine, g: GoalId) {
    PlainName(g) && !Intact(Wal(m.store, g)) && forall h :: h in m.jobs ==> RenameTmp(g) !in m.jobs[h].plan
  }

  lemma TornStays(s: Store, g: GoalId, e: Effect)
    requires !Intact(Wal(s, g)) && e != RenameTmp(g)
    ensures !Intact(Wal(Apply(s, e), g))
  {
    var r :| r in Wal(s, g) && r.Torn?;
    if e.Append? && e.goal == g {
      assert r in Wal(s, g) + [e.record];
    } else if e.Write? && e.put.path == Path(g, LogFile) {
      assert Torn(e.put.content) in [Torn(e.put.content)];
    }
  }

  lemma {:induction false} TornStaysOver(s: Store, g: GoalId, effects: seq<Effect>)
    requires !Intact(Wal(s, g)) && RenameTmp(g) !in effects
    ensures !Intact(Wal(Exec(s, effects), g))
    decreases |effects|
  {
    if effects != [] {
      TornStays(s, g, effects[0]);
      TornStaysOver(Apply(s, effects[0]), g, effects[1..]);
    }
  }

  lemma {:induction false} RecoveryRenamesNothing(todo: seq<Redo>, g: GoalId)
    ensures RenameTmp(g) !in RecoveryPlan(todo)
  {
    if todo != [] {
      RecoveryRenamesNothing(todo[1..], g);
    }
  }

  lemma TornLogStep(m: Machine, g: GoalId, step: Step)
    requires TornLog(m, g) && Enabled(m, step)
    ensures TornLog(Next(m, step), g) && (!m.up ==> !Next(m, step).up)
  {
    var m' := Next(m, step);
    match step
    case ReadGoal(_) =>
    case Begin(h, req, ts) =>
      if m' != m {
        var op, log := BuildOp(m.store.files, h, req).value, Wal(m.store, h);
        if h == g {
          var r :| r in log && r.Torn?;
          assert r in LogAfter(h, op, ts, log) || LogAfter(h, op, ts, log)[0].Torn?;
        }
        assert RenameTmp(g) !in AsWrites(WritePuts(h, op));
      }
    case Advance(h) =>
      var j := m.jobs[h];
      if j.done < |j.plan| && !MeetsLock(m, j.plan[j.done]) {
        assert j.plan[j.done] in j.plan;
        TornStays(m.store, g, j.plan[j.done]);
      }
    case Crash =>
    case Recovery(ids, cut) =>
      var plan := RecoveryPlan(Todo(m.store, ids));
      RecoveryRenamesNothing(Todo(m.store, ids), g);
      TornStaysOver(m.store, g, if cut < |plan| then plan[..cut] else plan);
      assert g in m.store.wals && g in ids;
  }

  /** Once a log cannot be read, no recovery ever completes: a process that dies is the last one. */
  lemma {:induction false} TornLogEndsRecovery(m: Machine, g: GoalId, steps: seq<Step>)
    requires TornLog(m, g) && ValidRun(m, steps) && !m.up
    ensures !Run(m, steps).up && !Intact(Wal(Run(m, steps).store, g))
    decreases |steps|
  {
    if steps != [] {
      TornLogStep(m, g, steps[0]);
      TornLogEndsRecovery(Next(m, steps[0]), g, steps[1..]);
    }
  }

  /** So it is after any raw write to a log that something has been appended to. */
  lemma LogWriteEndsRecovery(g: GoalId, path: Path, payload: Content, more: seq<Step>)
    requires path.file == LogFile && PlainName(path.goal)
    ensures var steps := LogThenNote(g, path, payload) + [Crash];
      && ValidRun(Started(map[]), steps)
      && (ValidRun(Run(Started(map[]), steps), more) ==> !Run(Run(Started(map[]), steps), more).up)
  {
    var steps := LogThenNote(g, path, payload);
    LogThenNoteRuns(g, path, payload);
    var m := Run(Started(map[]), steps);
    RunOne(m, Crash);
    RunConcat(Started(map[]), steps, [Crash]);
    if ValidRun(Next(m, Crash), more) {
      TornLogEndsRecovery(Next(m, Crash), path.goal, more);
    }
  }

  /** Redoing a raw write to a log, cut before its commit, keeps recovery from what comes after it. */
  lemma PendingLogWriteExample()
    ensures var spoil, save := WriteRaw(Path("a", LogFile), RawDoc(0)), SaveGoal(Goal("b", [], false, 0, 0));
      var s := Store(map[], map["b" := [Intent(save, 1)], "a" := [Intent(spoil, 1)]], map[]);
      && |RecoveryPlan(Todo(s, ["a", "b"]))| == 4
      && Path("b", GoalJson) in Recover(s, ["a", "b"]).files
      && Path("b", GoalJson) !in Recover(CutRecovery(s, ["a", "b"], 1), ["a", "b"]).files
  {
    var spoil, save := WriteRaw(Path("a", LogFile), RawDoc(0)), SaveGoal(Goal("b", [], false, 0, 0));
    var s := Store(map[], map["b" := [Intent(save, 1)], "a" := [Intent(spoil, 1)]], map[]);
    var a, b := Redo("a", spoil, 1), Redo("b", save, 1);
    TodoOfTwo(s, "a", "b", a, b);
    var plan := RecoveryPlan(Todo(s, ["a", "b"]));
    assert plan[..1] == [Write(Put(Path("a", LogFile), RawDoc(0)))];
    ExecOne(s, plan[0]);
    var cut := CutRecovery(s, ["a", "b"], 1);
    assert Torn(RawDoc(0)) in Wal(cut, "a");
    assert Todo(cut, ["a", "b"]) == [];
    ExecConcat(s, RedoPlan(a), RedoPlan(b));
    ExecRedo(Exec(s, RedoPlan(a)), b);
    PutAllChangesOnly(Exec(s, RedoPlan(a)).files, ReplayPuts(save));
    PutAllUnfold(Exec(s, RedoPlan(a)).files, ReplayPuts(save));
  }

  // Writing the temporary of a log

  /** A machine at rest on which notes to h can be written at times from ts on. */
  ghost predicate Writable(m: Machine, h: GoalId, ts: nat) {
    && m.up && m.jobs == map[] && Path(h, LockDirectory) !in m.store.files && Count(m, h) < COMPACT_EVERY
    && Intact(Wal(m.store, h)) && forall t :: t in Committed(Wal(m.store, h)) ==> t < ts
  }

  /** Nothing but the note is new among the files, and what was logged stays. */
  ghost predicate OnlyNoted(m: Machine, m': Machine, h: GoalId) {
    && m'.up && m'.jobs == map[] && m.logged <= m'.logged
    && forall p :: p in m'.store.files ==> p in m.store.files || p == Path(h, OtherFile("note.json"))
  }

  lemma LastNote(m: Machine, h: GoalId, ts: nat)
    requires Writable(m, h, ts) && Count(m, h) == COMPACT_EVERY - 1
    ensures var m' := Run(m, OneNote(m, h, ts));
      ValidRun(m, OneNote(m, h, ts)) && OnlyNoted(m, m', h) && h !in m'.store.tmps
  {
    WriteCompletes(m, h, Note(h), NoteOp(h), ts);
    NoteThenCompaction(m.store, h, ts);
  }

  lemma NextNote(m: Machine, h: GoalId, ts: nat)
    requires Writable(m, h, ts) && Count(m, h) < COMPACT_EVERY - 1
    ensures var m' := Run(m, OneNote(m, h, ts));
      && ValidRun(m, OneNote(m, h, ts)) && OnlyNoted(m, m', h) && Writable(m', h, ts + 1)
      && Count(m', h) == Count(m, h) + 1
  {
    RawWriteCompletes(m, h, Path(h, OtherFile("note.json")), RawDoc(0), ts);
    NoteKept(m.store, h, ts);
  }

  lemma OneNoteBegins(m: Machine, h: GoalId, ts: nat)
    ensures OnlyAndNotes(OneNote(m, h, ts), h, Note(h), h)
  {
    forall step | step in OneNote(m, h, ts) && step.Begin? ensures step.g == h && step.req == Note(h) {
      WholeWriteBegins(m, h, Note(h), NoteOp(h), ts, step);
    }
  }

  /** Notes written to h until its hundredth write compacts the log. */
  lemma {:induction false} NotesUntilCompaction(m: Machine, h: GoalId, ts: nat) returns (steps: seq<Step>)
    requires Writable(m, h, ts)
    ensures ValidRun(m, steps) && OnlyAndNotes(steps, h, Note(h), h)
    ensures OnlyNoted(m, Run(m, steps), h) && h !in Run(m, steps).store.tmps
    decreases COMPACT_EVERY - Count(m, h)
  {
    steps := OneNote(m, h, ts);
    OneNoteBegins(m, h, ts);
    if Count(m, h) == COMPACT_EVERY - 1 {
      LastNote(m, h, ts);
    } else {
      NextNote(m, h, ts);
      var m1 := Run(m, steps);
      var rest := NotesUntilCompaction(m1, h, ts + 1);
      Then(m, steps, m1, rest, Run(m1, rest));
      steps := steps + rest;
    }
  }

  lemma NoteKept(s: Store, h: GoalId, ts: nat)
    requires Intact(Wal(s, h)) && forall t :: t in Committed(Wal(s, h)) ==> t < ts
    ensures var s' := AfterRaw(s, h, Path(h, OtherFile("note.json")), RawDoc(0), ts);
      && Intact(Wal(s', h)) && (forall t :: t in Committed(Wal(s', h)) ==> t < ts + 1)
      && s'.files == s.files[Path(h, OtherFile("note.json")) := RawDoc(0)]
  {
    var log := Wal(s, h);
    CommittedSnoc(log, Intent(NoteOp(h), ts));
    CommittedSnoc(log + [Intent(NoteOp(h), ts)], Commit(ts));
  }

  lemma NoteThenCompaction(s: Store, h: GoalId, ts: nat)
    requires Intact(Wal(s, h))
    ensures var s' := Exec(s, WritePlan(h, NoteOp(h), ts, COMPACT_EVERY - 1, Wal(s, h)));
      h !in s'.tmps && s'.files == s.files[Path(h, OtherFile("note.json")) := RawDoc(0)]
  {
    var op, log := NoteOp(h), Wal(s, h);
    var path := Path(h, OtherFile("note.json"));
    var core := [Append(h, Intent(op, ts)), Write(Put(path, RawDoc(0))), Append(h, Commit(ts))];
    var tail := CompactionPlan(h, LogAfter(h, op, ts, log));
    assert WritePlan(h, op, ts, COMPACT_EVERY - 1, log) == core + tail;
    ExecConcat(s, core, tail);
    ExecThree(s, core[0], core[1], core[2]);
    ExecFour(Exec(s, core), tail, 4);
    assert tail[..4] == tail;
  }

  /** A raw write to the temporary of a log goes away with the next compaction. */
  lemma TemporaryBreaks(g: GoalId, path: Path, payload: Content)
    requires path.file == LogTemporary && PlainName(path.goal)
    ensures exists steps :: Breaks(g, ReqWriteRaw(path, payload), map[], steps)
  {
    var m, h, req := Started(map[]), path.goal, ReqWriteRaw(path, payload);
    var first := TemporaryWritten(g, path, payload);
    var m1 := Run(m, first);
    var rest := NotesUntilCompaction(m1, h, 2);
    var m2 := Run(m1, rest);
    Then(m, first, m1, rest, m2);
    assert RawDocument(m2.store.tmps, h) == None && path !in m2.store.files;
    assert m2.logged[0] == m1.logged[0];
    NotesAreAdmissible(first + rest, g, req, h);
    MissingFileBreaks(g, path, payload, first + rest);
  }

  lemma TemporaryWritten(g: GoalId, path: Path, payload: Content) returns (steps: seq<Step>)
    requires path.file == LogTemporary
    ensures ValidRun(Started(map[]), steps) && OnlyAndNotes(steps, g, ReqWriteRaw(path, payload), path.goal)
    ensures var m := Run(Started(map[]), steps);
      Writable(m, path.goal, 2) && m.store.files == map[] && m.logged == [(g, ReqWriteRaw(path, payload))]
  {
    var m, req, op := Started(map[]), ReqWriteRaw(path, payload), WriteRaw(path, payload);
    steps := WholeWrite(m, g, req, op, 1);
    RawWriteCompletes(m, g, path, payload, 1);
    forall step | step in steps && step.Begin? ensures step.g == g && step.req == req {
      WholeWriteBegins(m, g, req, op, 1, step);
    }
    assert [] + [(g, req)] == [(g, req)];
    assert Wal(Run(m, steps).store, path.goal) == if g == path.goal then [Intent(op, 1), Commit(1)] else [];
  }

  // Writing a lock

  /** Below a held lock the write throws after its intent was logged. */
  lemma LockedWriteThrows(m: Machine, g: GoalId, path: Path, payload: Content, ts: nat)
    requires Takes(m, g, ReqWriteRaw(path, payload), WriteRaw(path, payload), ts)
    requires path.file == LockDirectory && (path.goal == g || path.goal in m.jobs)
    ensures var steps := [Begin(g, ReqWriteRaw(path, payload), ts), Advance(g), Advance(g)];
      && ValidRun(m, steps)
      && Run(m, steps) ==
        m.(store := Apply(m.store, Append(g, Intent(WriteRaw(path, payload), ts))),
           logged := m.logged + [(g, ReqWriteRaw(path, payload))])
  {
    var req, op := ReqWriteRaw(path, payload), WriteRaw(path, payload);
    var j := JobOf(m, g, req, op, ts);
    IntentLogged(m, g, req, ts, op);
    var m2 := Run(m, [Begin(g, req, ts), Advance(g)]);
    assert j.plan[1] == Write(Put(path, payload));
    assert m2.jobs - {g} == m.jobs;
    ThenOne(m, [Begin(g, req, ts), Advance(g)], m2, Advance(g), m2.(jobs := m.jobs));
    assert [Begin(g, req, ts), Advance(g)] + [Advance(g)] == [Begin(g, req, ts), Advance(g), Advance(g)];
  }

  lemma OwnLockBreaks(g: GoalId, path: Path, payload: Content)
    requires path == Path(g, LockDirectory)
    ensures exists steps :: Breaks(g, ReqWriteRaw(path, payload), map[], steps)
  {
    var req := ReqWriteRaw(path, payload);
    var steps := [Begin(g, req, 1), Advance(g), Advance(g)];
    LockedWriteThrows(Started(map[]), g, path, payload, 1);
    MissingFileBreaks(g, path, payload, steps);
  }

  lemma HeldLockRuns(g: GoalId, path: Path, payload: Content) returns (steps: seq<Step>)
    requires path.file == LockDirectory && path.goal != g
    ensures var m := Run(Started(map[]), steps); var h := path.goal;
      && ValidRun(Started(map[]), steps) && m.up && m.jobs == map[] && m.logged != [] && m.store.tmps == map[]
      && m.store.files.Keys == {Path(h, OtherFile("note.json"))} && m.logged[0] == (g, ReqWriteRaw(path, payload))
    ensures steps ==
      [Begin(path.goal, Note(path.goal), 1)] + [Begin(g, ReqWriteRaw(path, payload), 1), Advance(g), Advance(g)] +
      ToEnd(path.goal, 3)
  {
    var m, h, req := Started(map[]), path.goal, ReqWriteRaw(path, payload);
    var m1 := Next(m, Begin(h, Note(h), 1));
    var j := Job(Note(h), NoteOp(h), 1, WritePlan(h, NoteOp(h), 1, 0, []), 0);
    RunOne(m, Begin(h, Note(h), 1));
    var locked := [Begin(g, req, 1), Advance(g), Advance(g)];
    LockedWriteThrows(m1, g, path, payload, 1);
    var m2 := Run(m1, locked);
    HeldWriteEnds(m2, h, j);
    var rest := ToEnd(h, 3);
    RunConcat(m, [Begin(h, Note(h), 1)], locked);
    RunConcat(m, [Begin(h, Note(h), 1)] + locked, rest);
    steps := [Begin(h, Note(h), 1)] + locked + rest;
  }

  lemma HeldLockBegins(g: GoalId, path: Path, payload: Content, steps: seq<Step>)
    requires steps ==
      [Begin(path.goal, Note(path.goal), 1)] + [Begin(g, ReqWriteRaw(path, payload), 1), Advance(g), Advance(g)] +
      ToEnd(path.goal, 3)
    ensures OnlyAndNotes(steps, g, ReqWriteRaw(path, payload), path.goal)
  {
  }

  lemma HeldLockBreaks(g: GoalId, path: Path, payload: Content)
    requires path.file == LockDirectory && path.goal != g && PlainName(path.goal)
    ensures exists steps :: Breaks(g, ReqWriteRaw(path, payload), map[], steps)
  {
    var steps := HeldLockRuns(g, path, payload);
    HeldLockBegins(g, path, payload, steps);
    assert Found(Run(Started(map[]), steps).store, path) == None;
    NotesAreAdmissible(steps, g, ReqWriteRaw(path, payload), path.goal);
    MissingFileBreaks(g, path, payload, steps);
  }

  lemma HeldWriteEnds(m: Machine, h: GoalId, j: Job)
    requires m.up && m.jobs == map[h := j] && j == Job(Note(h), NoteOp(h), 1, WritePlan(h, NoteOp(h), 1, 0, []), 0)
    requires m.store.files == map[] && m.store.tmps == map[] && m.logged != []
    ensures var m' := Run(m, ToEnd(h, 3));
      && ValidRun(m, ToEnd(h, 3)) && m'.up && m'.jobs == map[] && m.logged <= m'.logged
      && m'.store.files.Keys == {Path(h, OtherFile("note.json"))} && m'.store.tmps == map[]
  {
    PlanMeetsNoLock(m, h, NoteOp(h), 1, 0, []);
    assert j.plan ==
      [Append(h, Intent(NoteOp(h), 1)), Write(Put(Path(h, OtherFile("note.json")), RawDoc(0))), Append(h, Commit(1))];
    JobCompletes(m, h, j);
    ExecThree(m.store, j.plan[0], j.plan[1], j.plan[2]);
  }

  // Planting documents

  lemma Planted(g: GoalId, path: Path, payload: Content)
    requires PlainName(g) && path.goal == g && Ordinary(WriteRaw(path, payload))
    ensures var steps := CrashedWrite(g, ReqWriteRaw(path, payload), 1); var m := Run(Started(map[]), steps);
      && ValidRun(Started(map[]), steps) && Quiet(m, g) && FreshTime(Wal(m.store, g), 2)
      && m.store.files == map[path := payload] && m.logged == [(g, ReqWriteRaw(path, payload))]
  {
    assert Committed([]) == {} && Pending([]) == [];
    CrashedWriteRuns(Started(map[]), g, ReqWriteRaw(path, payload), 1, WriteRaw(path, payload));
    PutAllUnfold(map[], [Put(path, payload)]);
  }

  lemma PlantedReference(g: GoalId, path: Path, payload: Content, req: Request)
    ensures Reference(map[], [(g, ReqWriteRaw(path, payload)), (g, req)]) == Perform(map[path := payload], g, req)
  {
    ReferenceTwo(map[], g, ReqWriteRaw(path, payload), g, req);
    PutAllUnfold(map[], [Put(path, payload)]);
  }

  /** The planted document, then the request that is built from it and is cut after its intent. */
  function PlantThen(g: GoalId, path: Path, payload: Content, req: Request): seq<Step> {
    CrashedWrite(g, ReqWriteRaw(path, payload), 1) + ([ReadGoal(g)] + CrashedWrite(g, req, 2))
  }

  lemma ReadThenCrashed(m: Machine, g: GoalId, req: Request, ts: nat, op: Op)
    requires Quiet(m, g) && PlainName(g) && FreshTime(Wal(m.store, g), ts) && Path(g, LockDirectory) !in m.store.files
    requires BuildOp(m.store.files, g, req) == Some(op) && Ordinary(op)
    requires req.ReqSavePaceSnapshot? ==> GoalToUpdate(m.store.files, g) == Some(req.read)
    ensures var steps := [ReadGoal(g)] + CrashedWrite(g, req, ts); var m' := Run(m, steps);
      && ValidRun(m, steps) && Quiet(m', g) && m'.store.files == PutAll(m.store.files, ReplayPuts(op))
      && m'.logged == m.logged + [(g, req)]
  {
    var m1 := Next(m, ReadGoal(g));
    RunOne(m, ReadGoal(g));
    CrashedWriteRuns(m1, g, req, ts, op);
    Then(m, [ReadGoal(g)], m1, CrashedWrite(g, req, ts), Run(m1, CrashedWrite(g, req, ts)));
  }

  lemma PlantThenRuns(g: GoalId, path: Path, payload: Content, req: Request, op: Op)
    requires PlainName(g) && path.goal == g && Ordinary(WriteRaw(path, payload)) && path.file != LockDirectory
    requires BuildOp(map[path := payload], g, req) == Some(op) && Ordinary(op)
    requires req.ReqSavePaceSnapshot? ==> GoalToUpdate(map[path := payload], g) == Some(req.read)
    ensures var steps := PlantThen(g, path, payload, req); var m := Run(Started(map[]), steps);
      && ValidRun(Started(map[]), steps) && Quiet(m, g) && m.store.files == PutAll(map[path := payload], ReplayPuts(op))
      && m.logged == [(g, ReqWriteRaw(path, payload)), (g, req)]
  {
    var plant := ReqWriteRaw(path, payload);
    Planted(g, path, payload);
    var m1 := Run(Started(map[]), CrashedWrite(g, plant, 1));
    ReadThenCrashed(m1, g, req, 2, op);
    var rest := [ReadGoal(g)] + CrashedWrite(g, req, 2);
    Then(Started(map[]), CrashedWrite(g, plant, 1), m1, rest, Run(m1, rest));
    assert [(g, plant)] + [(g, req)] == [(g, plant), (g, req)];
  }

  lemma PlantBreaks(g: GoalId, path: Path, payload: Content, req: Request, op: Op)
    requires PlainName(g) && path.goal == g && Ordinary(WriteRaw(path, payload)) && path.file != LockDirectory
    requires BuildOp(map[path := payload], g, req) == Some(op) && Ordinary(op) && !req.ReqWriteRaw?
    requires req.ReqSavePaceSnapshot? ==> GoalToUpdate(map[path := payload], g) == Some(req.read)
    requires PutAll(map[path := payload], ReplayPuts(op)) != Perform(map[path := payload], g, req)
    ensures exists steps :: Breaks(g, ReqWriteRaw(path, payload), map[], steps)
  {
    var steps := PlantThen(g, path, payload, req);
    PlantThenRuns(g, path, payload, req, op);
    IntactShowsFiles(Run(Started(map[]), steps).store);
    PlantedReference(g, path, payload, req);
    StartThen(map[], steps);
    ShowsNoOther(Run(Started(map[]), steps).store, PutAll(map[path := payload], ReplayPuts(op)),
      Perform(map[path := payload], g, req));
    PlantThenAdmissible(g, path, payload, req);
    assert Breaks(g, ReqWriteRaw(path, payload), map[], [Recovery([], 0)] + steps);
  }

  lemma PlantThenAdmissible(g: GoalId, path: Path, payload: Content, req: Request)
    requires PlainName(g) && !req.ReqWriteRaw?
    ensures AdmissibleOr([Recovery([], 0)] + PlantThen(g, path, payload, req), g, ReqWriteRaw(path, payload))
  {
  }

  lemma AppendMissesPlanted(files: Files, g: GoalId, log: ObservationLog, entry: Observation)
    requires log.goalId != g && entry.goalId == g && files == map[Path(g, ObservationsJson) := ObservationDoc(log)]
    requires log.entries != [] ==> entry != log.entries[|log.entries| - 1]
    ensures var req := ReqAppendObservation(entry); var op := BuildOp(files, g, req);
      op.Some? && PutAll(files, ReplayPuts(op.value)) != Perform(files, g, req)
  {
    var path, op := Path(g, ObservationsJson), BuildOp(files, g, ReqAppendObservation(entry)).value;
    var entries := Capped(log.entries + [entry]);
    assert entries[|entries| - 1] == entry && entries != log.entries;
    PutAllChangesOnly(files, ReplayPuts(op));
    assert path !in PathsOf(ReplayPuts(op));
    PutAllUnfold(files, WritePuts(g, op));
  }

  /** An append to a planted observation log that names another goal is replayed into that goal's directory. */
  lemma PlantedLogBreaks(g: GoalId, log: ObservationLog)
    requires PlainName(g) && log.goalId != g
    ensures exists steps :: Breaks(g, ReqWriteRaw(Path(g, ObservationsJson), ObservationDoc(log)), map[], steps)
  {
    var entry := Observation(g, if log.entries == [] then 0 else log.entries[|log.entries| - 1].value + 1);
    var files: Files := map[Path(g, ObservationsJson) := ObservationDoc(log)];
    AppendMissesPlanted(files, g, log, entry);
    var req := ReqAppendObservation(entry);
    PlantBreaks(g, Path(g, ObservationsJson), ObservationDoc(log), req, BuildOp(files, g, req).value);
  }

  lemma SnapshotMissesPlanted(files: Files, path: Path, g: GoalId, goal: Goal)
    requires goal.id != g && path.goal == g && (path.file == GoalJson || path.file == ArchivedGoalJson)
    requires files == map[path := GoalDoc(goal)]
    ensures var req := ReqSavePaceSnapshot(goal, goal.pace + 1);
      GoalToUpdate(files, g) == Some(goal) &&
        PutAll(files, ReplayPuts(BuildOp(files, g, req).value)) != Perform(files, g, req)
  {
    var op := SavePaceSnapshot(goal.(pace := goal.pace + 1));
    PutAllChangesOnly(files, ReplayPuts(op));
    assert Path(g, GoalJson) !in PathsOf(ReplayPuts(op));
    PutAllUnfold(files, WritePuts(g, op));
    assert Perform(files, g, ReqSavePaceSnapshot(goal, goal.pace + 1))[Path(g, GoalJson)] == GoalDoc(op.goal);
  }

  /** A pace snapshot of a planted goal that names another one is replayed into that goal's directory. */
  lemma PlantedGoalBreaks(g: GoalId, path: Path, goal: Goal)
    requires PlainName(g) && goal.id != g && path.goal == g && (path.file == GoalJson || path.file == ArchivedGoalJson)
    ensures exists steps :: Breaks(g, ReqWriteRaw(path, GoalDoc(goal)), map[], steps)
  {
    var files: Files := map[path := GoalDoc(goal)];
    var req := ReqSavePaceSnapshot(goal, goal.pace + 1);
    SnapshotMissesPlanted(files, path, g, goal);
    PlantBreaks(g, path, GoalDoc(goal), req, BuildOp(files, g, req).value);
  }

  // Ids that recovery does not list

  /** The intent of a goal that is not listed is never replayed. */
  lemma UnlistedBreaks(g: GoalId, req: Request)
    requires !PlainName(g) && Acceptable(g, req) && (req.ReqWriteRaw? ==> Ordinary(WriteRaw(req.path, req.payload)))
    ensures exists files, steps :: Breaks(g, req, files, steps)
  {
    var req' :=
      if req.ReqSavePaceSnapshot? then ReqSavePaceSnapshot(Goal(g, [], false, req.snapshot + 1, 0), req.snapshot)
      else req;
    var files := AcceptingFiles(g, req');
    var op := BuildOp(files, g, req').value;
    var steps := ReadThenLose(g, req');
    LostWriteRuns(files, g, req', op);
    StartThen(files, steps);
    ReferenceOne(files, g, req');
    ShowsNoOther(Run(Started(files), steps).store, files, Perform(files, g, req'));
    LostWriteAdmissible(g, req, req');
    assert Breaks(g, req, files, [Recovery([], 0)] + steps);
  }

  lemma LostWriteAdmissible(g: GoalId, req: Request, req': Request)
    requires SameCall(req', req)
    ensures AdmissibleOr([Recovery([], 0)] + ReadThenLose(g, req'), g, req)
  {
  }

  /** A write that dies after its intent and is not found by the recovery. */
  function ReadThenLose(g: GoalId, req: Request): seq<Step> {
    [ReadGoal(g)] + ([Begin(g, req, 1), Advance(g), Crash] + [Recovery([], 0)])
  }

  lemma LostWriteRuns(files: Files, g: GoalId, req: Request, op: Op)
    requires !PlainName(g) && WellNamed(files) && BuildOp(files, g, req) == Some(op)
    requires req.ReqSavePaceSnapshot? ==> GoalToUpdate(files, g) == Some(req.read)
    ensures var m := Run(Started(files), ReadThenLose(g, req));
      && ValidRun(Started(files), ReadThenLose(g, req))
      && m.up && m.jobs == map[] && Shows(m.store, files) && m.logged == [(g, req)]
  {
    var m := Started(files);
    RunOne(m, ReadGoal(g));
    var m1 := Next(m, ReadGoal(g));
    assert Committed([]) == {};
    assert Path(g, LockDirectory) !in files;
    IntentThenCrash(m1, g, req, 1, op);
    var down := WithIntent(m1, g, req, op, 1);
    var write := [Begin(g, req, 1), Advance(g), Crash];
    assert [] + [Intent(op, 1)] == [Intent(op, 1)];
    ThenOne(m1, write, down, Recovery([], 0), down.(up := true));
    Then(m, [ReadGoal(g)], m1, write + [Recovery([], 0)], down.(up := true));
    IntactShowsFiles(down.store);
    assert [] + [(g, req)] == [(g, req)];
  }

  // Leaving the directory

  /**
   * The machine after the intents of two raw writes to one path, the first in the log of h and the second in that of g.
   */
  lemma TwoIntents(g: GoalId, h: GoalId, first: Request, second: Request, path: Path, c: Content, d: Content)
    requires g != h && first == ReqWriteRaw(path, c) && second == ReqWriteRaw(path, d)
    ensures var steps := [Begin(h, first, 1), Advance(h), Begin(g, second, 1), Advance(g), Crash];
      var down := Run(Started(map[]), steps);
      && ValidRun(Started(map[]), steps) && !down.up && down.jobs == map[] && down.logged == [(h, first), (g, second)]
      && down.store == Store(map[], map[h := [Intent(WriteRaw(path, c), 1)], g := [Intent(WriteRaw(path, d), 1)]],
        map[])
  {
    var m := Started(map[]);
    var a, b := [Begin(h, first, 1), Advance(h)], [Begin(g, second, 1), Advance(g)];
    IntentLogged(m, h, first, 1, WriteRaw(path, c));
    var m1 := Run(m, a);
    assert [] + [Intent(WriteRaw(path, c), 1)] == [Intent(WriteRaw(path, c), 1)];
    IntentLogged(m1, g, second, 1, WriteRaw(path, d));
    var m2 := Run(m1, b);
    assert [] + [Intent(WriteRaw(path, d), 1)] == [Intent(WriteRaw(path, d), 1)];
    assert [] + [(h, first)] + [(g, second)] == [(h, first), (g, second)];
    Then(m, a, m1, b, m2);
    ThenOne(m, a + b, m2, Crash, Next(m2, Crash));
    assert a + b + [Crash] == [Begin(h, first, 1), Advance(h), Begin(g, second, 1), Advance(g), Crash];
  }

  lemma RecoverTwo(s: Store, g: GoalId, h: GoalId, path: Path, c: Content, d: Content)
    requires g != h && Ordinary(WriteRaw(path, c))
    requires s == Store(map[], map[h := [Intent(WriteRaw(path, c), 1)], g := [Intent(WriteRaw(path, d), 1)]], map[])
    ensures var plan := RecoveryPlan(Todo(s, [g, h])); var s' := Exec(s, plan);
      && |plan| == 4 && s'.files == map[path := c] && s'.tmps == map[]
      && forall i :: i in s'.wals ==> Intact(s'.wals[i])
  {
    var a, b := Redo(g, WriteRaw(path, d), 1), Redo(h, WriteRaw(path, c), 1);
    TodoOfTwo(s, g, h, a, b);
    ExecConcat(s, RedoPlan(a), RedoPlan(b));
    PutAllUnfold(map[], [Put(path, d)]);
    PutAllUnfold(map[path := d], [Put(path, c)]);
    ExecRedo(s, a);
    var s1 := Exec(s, RedoPlan(a));
    assert s1.files == map[path := d] && s1.wals[h] == s.wals[h];
    ExecRedo(s1, b);
    assert map[path := d][path := c] == map[path := c];
  }

  function TwoCrashed(g: GoalId, h: GoalId, first: Request, second: Request): seq<Step> {
    [Recovery([], 0)] + ([Begin(h, first, 1), Advance(h), Begin(g, second, 1), Advance(g), Crash] +
      [Recovery([g, h], 4)])
  }

  lemma TwoRecovered(g: GoalId, h: GoalId, path: Path, c: Content, d: Content, down: Machine)
    requires g != h && !down.up && down.jobs == map[] && PlainName(g) && PlainName(h) && Ordinary(WriteRaw(path, c))
    requires down.store == Store(map[], map[h := [Intent(WriteRaw(path, c), 1)], g := [Intent(WriteRaw(path, d), 1)]],
      map[])
    ensures var step := Recovery([g, h], 4); var m := Run(down, [step]);
      ValidRun(down, [step]) && m.up && m.jobs == map[] && Shows(m.store, map[path := c]) && m.logged == down.logged
  {
    RecoverTwo(down.store, g, h, path, c, d);
    RunOne(down, Recovery([g, h], 4));
    IntactShowsFiles(Run(down, [Recovery([g, h], 4)]).store);
  }

  lemma TwoReference(g: GoalId, h: GoalId, path: Path, c: Content, d: Content)
    ensures Reference(map[], [(h, ReqWriteRaw(path, c)), (g, ReqWriteRaw(path, d))]) == map[path := d]
  {
    ReferenceTwo(map[], h, ReqWriteRaw(path, c), g, ReqWriteRaw(path, d));
    PutAllUnfold(map[], [Put(path, c)]);
    PutAllUnfold(map[path := c], [Put(path, d)]);
  }

  lemma TwoCrashedRuns(g: GoalId, h: GoalId, path: Path, c: Content, d: Content)
    requires g != h && c != d && PlainName(g) && PlainName(h) && Ordinary(WriteRaw(path, c))
    ensures var steps := TwoCrashed(g, h, ReqWriteRaw(path, c), ReqWriteRaw(path, d));
      ValidRun(Init(map[]), steps) && !Atomic(map[], Run(Init(map[]), steps))
  {
    var first, second := ReqWriteRaw(path, c), ReqWriteRaw(path, d);
    var steps := [Begin(h, first, 1), Advance(h), Begin(g, second, 1), Advance(g), Crash];
    TwoIntents(g, h, first, second, path, c, d);
    TwoRecovered(g, h, path, c, d, Run(Started(map[]), steps));
    RunConcat(Started(map[]), steps, [Recovery([g, h], 4)]);
    StartThen(map[], steps + [Recovery([g, h], 4)]);
    TwoReference(g, h, path, c, d);
    assert map[path := c][path] != map[path := d][path];
    ShowsNoOther(Run(Started(map[]), steps + [Recovery([g, h], 4)]).store, map[path := c], map[path := d]);
  }

  /**
   * A raw write that leaves its goal's directory is logged apart from the writes to where it goes, so recovery may undo
   * one.
   */
  lemma StrayingWriteBreaks(g: GoalId, path: Path, payload: Content)
    requires PlainName(g) && path.goal != g && PlainName(path.goal) && Kept(path, RawDoc(0))
    ensures exists steps :: Breaks(g, ReqWriteRaw(path, payload), map[], steps)
  {
    var h, c := path.goal, if payload == RawDoc(0) then RawDoc(1) else RawDoc(0);
    TwoCrashedRuns(g, h, path, c, payload);
    assert Breaks(g, ReqWriteRaw(path, payload), map[],
      TwoCrashed(g, h, ReqWriteRaw(path, c), ReqWriteRaw(path, payload)));
  }

  // ----- The exact condition -----

  lemma RawWriteBreaks(g: GoalId, path: Path, payload: Content)
    requires PlainName(path.goal) && !Admissible(g, ReqWriteRaw(path, payload))
    ensures exists files, steps :: Breaks(g, ReqWriteRaw(path, payload), files, steps)
  {
    if path.file == LogFile {
      LogWriteBreaks(g, path, payload);
    } else if path.file == LogTemporary {
      TemporaryBreaks(g, path, payload);
    } else if path == Path(g, LockDirectory) {
      OwnLockBreaks(g, path, payload);
    } else if path.file == LockDirectory {
      HeldLockBreaks(g, path, payload);
    } else if !PlainName(g) {
      UnlistedBreaks(g, ReqWriteRaw(path, payload));
    } else if path.goal != g {
      StrayingWriteBreaks(g, path, payload);
    } else if payload.GoalDoc? {
      PlantedGoalBreaks(g, path, payload.goal);
    } else {
      PlantedLogBreaks(g, payload.log);
    }
  }

  /**
   * Atomicity survives a request exactly when it throws before its intent or is admissible: its goal's id names one
   * directory, and a raw write stays in it, keeps off the log, its temporary and the lock, and plants no document that
   * names another goal.
   */
  lemma AtomicIffAdmissible(g: GoalId, req: Request)
    requires req.ReqWriteRaw? ==> PlainName(req.path.goal)
    ensures KeepsAtomicity(g, req) <==> (Acceptable(g, req) ==> Admissible(g, req))
  {
    if Acceptable(g, req) ==> Admissible(g, req) {
      forall files, steps | WellNamed(files) && ValidRun(Init(files), steps) && AdmissibleOr(steps, g, req)
        ensures Atomic(files, Run(Init(files), steps))
      {
        CrashAtomicity(files, steps);
      }
    } else if req.ReqWriteRaw? {
      RawWriteBreaks(g, req.path, req.payload);
    } else {
      UnlistedBreaks(g, req);
    }
  }
}

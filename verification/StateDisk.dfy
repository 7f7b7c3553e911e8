/** Writing, replaying and compacting on a disk whose process may die before any effect. */
module StateDisk {
  import GoalWrites
  import opened Prelude
  import opened StateFiles
  import opened StateWal

  /**
   * What a run of the plan has done when the process had left effects to live; alive tells whether it is still there.
   */
  ghost predicate Ran(s: Store, left: nat, plan: seq<Effect>, s': Store, left': nat, alive: bool) {
    if left >= |plan| then
      alive && s' == Exec(s, plan) && left' == left - |plan|
    else
      !alive && s' == Exec(s, plan[..left]) && left' == 0
  }

  lemma RanConcat(s: Store, l: nat, p: seq<Effect>, s1: Store, l1: nat, q: seq<Effect>, s2: Store, l2: nat, alive: bool)
    requires Ran(s, l, p, s1, l1, true) && Ran(s1, l1, q, s2, l2, alive)
    ensures Ran(s, l, p + q, s2, l2, alive)
  {
    ExecConcat(s, p, q);
    if l1 < |q| {
      ExecConcat(s, p, q[..l1]);
      assert (p + q)[..l] == p + q[..l1];
    }
  }

  lemma RanStopped(s: Store, l: nat, p: seq<Effect>, q: seq<Effect>, s1: Store, l1: nat)
    requires Ran(s, l, p, s1, l1, false)
    ensures Ran(s, l, p + q, s1, l1, false)
  {
    assert (p + q)[..l] == p[..l];
  }

  lemma UncommittedSnoc(records: seq<Record>, i: nat, c: set<nat>)
    requires i < |records|
    ensures Uncommitted(records[..i + 1], c) ==
      if records[i].Intent? && records[i].ts !in c then Uncommitted(records[..i], c) + [records[i]]
      else Uncommitted(records[..i], c)
  {
    assert records[..i + 1] == records[..i] + [records[i]];
    UncommittedConcat(records[..i], [records[i]], c);
    UncommittedOne(records[i], c);
  }

  lemma RedosSnoc(g: GoalId, before: seq<Record>, r: Record)
    requires forall i :: 0 <= i < |before| ==> before[i].Intent?
    requires r.Intent?
    ensures Redos(g, before + [r]) == Redos(g, before) + [Redo(g, r.op, r.ts)]
  {
  }

  lemma RecoveryPlanCons(r: Redo, rest: seq<Redo>)
    ensures RecoveryPlan([r] + rest) == RedoPlan(r) + RecoveryPlan(rest)
  {
    assert ([r] + rest)[1..] == rest;
  }

  lemma {:induction false} RecoveryPlanConcat(xs: seq<Redo>, ys: seq<Redo>)
    ensures RecoveryPlan(xs + ys) == RecoveryPlan(xs) + RecoveryPlan(ys)
  {
    if xs == [] {
      assert xs + ys == ys;
    } else {
      var r, rest := xs[0], xs[1..];
      calc {
        RecoveryPlan(xs + ys);
      == { assert xs + ys == [r] + (rest + ys); RecoveryPlanCons(r, rest + ys); }
        RedoPlan(r) + RecoveryPlan(rest + ys);
      == { RecoveryPlanConcat(rest, ys); }
        RedoPlan(r) + (RecoveryPlan(rest) + RecoveryPlan(ys));
      == { Associative(RedoPlan(r), RecoveryPlan(rest), RecoveryPlan(ys)); }
        RedoPlan(r) + RecoveryPlan(rest) + RecoveryPlan(ys);
      == { assert xs == [r] + rest; RecoveryPlanCons(r, rest); }
        RecoveryPlan(xs) + RecoveryPlan(ys);
      }
    }
  }

  lemma RecoveryPlanSnoc(xs: seq<Redo>, r: Redo)
    ensures RecoveryPlan(xs + [r]) == RecoveryPlan(xs) + RedoPlan(r)
  {
    RecoveryPlanConcat(xs, [r]);
    assert [r][1..] == [];
    assert RecoveryPlan([r]) == RedoPlan(r) + RecoveryPlan([]);
  }

  lemma UncommittedSplit(records: seq<Record>, i: nat, c: set<nat>)
    requires i <= |records|
    ensures Uncommitted(records, c) == Uncommitted(records[..i], c) + Uncommitted(records[i..], c)
  {
    assert records == records[..i] + records[i..];
    UncommittedConcat(records[..i], records[i..], c);
  }

  lemma RedosConcat(g: GoalId, a: seq<Record>, b: seq<Record>)
    requires forall i :: 0 <= i < |a| ==> a[i].Intent?
    requires forall i :: 0 <= i < |b| ==> b[i].Intent?
    ensures Redos(g, a + b) == Redos(g, a) + Redos(g, b)
  {
  }

  /** The whole replay plan is the part up to record i, the part of record i, and the rest. */
  lemma RecoveryPlanPrefix(g: GoalId, records: seq<Record>, i: nat, c: set<nat>)
    requires i < |records| && records[i].Intent? && records[i].ts !in c
    ensures RecoveryPlan(Redos(g, Uncommitted(records, c))) ==
      RecoveryPlan(Redos(g, Uncommitted(records[..i], c))) + RedoPlan(Redo(g, records[i].op, records[i].ts)) +
      RecoveryPlan(Redos(g, Uncommitted(records[i + 1..], c)))
  {
    var before, rest := Uncommitted(records[..i], c), Uncommitted(records[i + 1..], c);
    UncommittedSplit(records, i + 1, c);
    UncommittedSnoc(records, i, c);
    RedosConcat(g, before + [records[i]], rest);
    RecoveryPlanConcat(Redos(g, before + [records[i]]), Redos(g, rest));
    RedosSnoc(g, before, records[i]);
    RecoveryPlanSnoc(Redos(g, before), Redo(g, records[i].op, records[i].ts));
  }

  lemma {:induction false} TodoConcat(s: Store, xs: seq<GoalId>, ys: seq<GoalId>)
    requires GoalWrites.AllIntact(s, xs)
    ensures Todo(s, xs + ys) == Todo(s, xs) + Todo(s, ys)
    decreases |xs|
  {
    if xs == [] {
      assert xs + ys == ys;
    } else {
      var g, rest := xs[0], xs[1..];
      assert xs == [g] + rest && xs + ys == [g] + (rest + ys);
      TodoConcat(s, rest, ys);
      TodoUnfold(s, g, rest);
      TodoUnfold(s, g, rest + ys);
      Associative(Redos(g, Pending(Wal(s, g))), Todo(s, rest), Todo(s, ys));
    }
  }

  /**
   * What a recovery does goes on after the first i goals, with nothing more when the log of the next cannot be read.
   */
  lemma TodoSplit(s: Store, ids: seq<GoalId>, i: nat)
    requires i <= |ids| && GoalWrites.AllIntact(s, ids[..i])
    ensures Todo(s, ids) == Todo(s, ids[..i]) + Todo(s, ids[i..])
    ensures i < |ids| && !Intact(Wal(s, ids[i])) ==> Todo(s, ids) == Todo(s, ids[..i])
  {
    assert ids == ids[..i] + ids[i..];
    TodoConcat(s, ids[..i], ids[i..]);
  }

  lemma TodoSnoc(s: Store, ids: seq<GoalId>, i: nat)
    requires i < |ids| && GoalWrites.AllIntact(s, ids[..i]) && Intact(Wal(s, ids[i]))
    ensures Todo(s, ids[..i + 1]) == Todo(s, ids[..i]) + Redos(ids[i], Pending(Wal(s, ids[i])))
    ensures GoalWrites.AllIntact(s, ids[..i + 1])
  {
    assert ids[..i + 1] == ids[..i] + [ids[i]];
    TodoConcat(s, ids[..i], [ids[i]]);
    TodoUnfold(s, ids[i], []);
    assert [ids[i]] + [] == [ids[i]];
  }

  lemma DoneElsewhere(s: Store, ids: seq<GoalId>, i: nat)
    requires i < |ids| && NoDuplicates(ids) && LogsKept(s, ids) && GoalWrites.AllIntact(s, ids[..i])
    ensures Wal(Exec(s, RecoveryPlan(Todo(s, ids[..i]))), ids[i]) == Wal(s, ids[i])
  {
    TodoGoals(s, ids[..i]);
    TodoSplit(s, ids, i);
    forall r | r in Todo(s, ids[..i]) ensures r.goal != ids[i] && KeepsLogs(r.op) {
      assert r in Todo(s, ids);
    }
    GoalWrites.RecoveryLogsOnly(s, Todo(s, ids[..i]), ids[i]);
  }

  /** How a method ends: it returns, the process dies in it, or it throws. */
  datatype End = Returned | Died | Threw

  class Disk {
    var files: Files
    var wals: map<GoalId, seq<Record>>
    var tmps: map<GoalId, seq<Record>>
    var left: nat

    ghost function S(): Store
      reads this
    {
      Store(files, wals, tmps)
    }

    /** Parsing throws on a log that a raw write has replaced. */
    method ReadWal(g: GoalId) returns (log: seq<Record>, parsed: bool)
      ensures log == Wal(S(), g) && parsed == Intact(log)
    {
      log := if g in wals then wals[g] else [];
      parsed := forall r :: r in log ==> !r.Torn?;
    }

    method AppendWalRecord(g: GoalId, r: Record) returns (alive: bool)
      modifies this
      ensures Ran(old(S()), old(left), [Append(g, r)], S(), left, alive)
    {
      ExecOne(S(), Append(g, r));
      if left == 0 { return false; }
      wals := wals[g := (if g in wals then wals[g] else []) + [r]];
      left := left - 1;
      alive := true;
    }

    method AtomicWrite(path: Path, content: Content) returns (alive: bool)
      modifies this
      ensures Ran(old(S()), old(left), AsWrites([Put(path, content)]), S(), left, alive)
    {
      ExecOne(S(), Write(Put(path, content)));
      assert AsWrites([Put(path, content)]) == [Write(Put(path, content))];
      if left == 0 { return false; }
      match path.file {
        case LogFile => wals := wals[path.goal := [Torn(content)]];
        case LogTemporary => tmps := tmps[path.goal := [Torn(content)]];
        case _ => files := files[path := content];
      }
      left := left - 1;
      alive := true;
    }

    method WriteTmpLog(g: GoalId, log: seq<Record>) returns (alive: bool)
      modifies this
      ensures Ran(old(S()), old(left), [WriteTmp(g, log)], S(), left, alive)
    {
      ExecOne(S(), WriteTmp(g, log));
      if left == 0 { return false; }
      tmps := tmps[g := log];
      left := left - 1;
      alive := true;
    }

    method RenameTmpLog(g: GoalId) returns (alive: bool)
      modifies this
      ensures Ran(old(S()), old(left), [RenameTmp(g)], S(), left, alive)
    {
      ExecOne(S(), RenameTmp(g));
      if left == 0 { return false; }
      if g in tmps {
        wals, tmps := wals[g := tmps[g]], tmps - {g};
      }
      left := left - 1;
      alive := true;
    }

    method WriteTwo(p: Path, c: Content, q: Path, d: Content) returns (alive: bool)
      modifies this
      ensures Ran(old(S()), old(left), AsWrites([Put(p, c), Put(q, d)]), S(), left, alive)
    {
      alive := AtomicWrite(p, c);
      ghost var a, b := AsWrites([Put(p, c)]), AsWrites([Put(q, d)]);
      assert AsWrites([Put(p, c), Put(q, d)]) == a + b;
      if !alive {
        RanStopped(old(S()), old(left), a, b, S(), left);
        return;
      }
      ghost var s1, l1 := S(), left;
      alive := AtomicWrite(q, d);
      RanConcat(old(S()), old(left), a, s1, l1, b, S(), left, alive);
    }

    /** The write function handed to a protected write. */
    method WriteFn(g: GoalId, op: Op) returns (alive: bool)
      modifies this
      ensures Ran(old(S()), old(left), AsWrites(WritePuts(g, op)), S(), left, alive)
    {
      match op
      case SaveGoal(goal) => alive := AtomicWrite(Path(g, GoalJson), GoalDoc(goal));
      case SaveObservation(log) => alive := AtomicWrite(Path(g, ObservationsJson), ObservationDoc(log));
      case AppendObservation(log) => alive := AtomicWrite(Path(g, ObservationsJson), ObservationDoc(log));
      case ObservationAndGoal(log, goal) =>
        alive := WriteTwo(Path(g, ObservationsJson), ObservationDoc(log), Path(g, GoalJson), GoalDoc(goal));
      case SaveGapHistory(_, entries) => alive := AtomicWrite(Path(g, GapHistoryJson), GapDoc(entries));
      case AppendGapEntry(_, entries) => alive := AtomicWrite(Path(g, GapHistoryJson), GapDoc(entries));
      case SavePaceSnapshot(goal) => alive := AtomicWrite(Path(g, GoalJson), GoalDoc(goal));
      case WriteRaw(path, payload) => alive := AtomicWrite(path, payload);
    }

    method ReplayIntent(op: Op) returns (alive: bool)
      modifies this
      ensures Ran(old(S()), old(left), AsWrites(ReplayPuts(op)), S(), left, alive)
    {
      alive := true;
      match op
      case SaveGoal(goal) =>
        if goal.id != "" { alive := AtomicWrite(Path(goal.id, GoalJson), GoalDoc(goal)); }
      case SaveObservation(log) =>
        if log.goalId != "" { alive := AtomicWrite(Path(log.goalId, ObservationsJson), ObservationDoc(log)); }
      case AppendObservation(log) =>
        if log.goalId != "" { alive := AtomicWrite(Path(log.goalId, ObservationsJson), ObservationDoc(log)); }
      case ObservationAndGoal(log, goal) =>
        if goal.id != "" {
          alive := WriteTwo(Path(goal.id, ObservationsJson), ObservationDoc(log), Path(goal.id, GoalJson),
            GoalDoc(goal));
        }
      case SaveGapHistory(goalId, entries) =>
        if goalId != "" { alive := AtomicWrite(Path(goalId, GapHistoryJson), GapDoc(entries)); }
      case AppendGapEntry(goalId, entries) =>
        if goalId != "" { alive := AtomicWrite(Path(goalId, GapHistoryJson), GapDoc(entries)); }
      case SavePaceSnapshot(goal) =>
        if goal.id != "" { alive := AtomicWrite(Path(goal.id, GoalJson), GoalDoc(goal)); }
      case WriteRaw(path, payload) => alive := AtomicWrite(path, payload);
    }

    /** Redo the pending intents of one log, in order, committing each; count is how many. */
    method ReplayWal(g: GoalId) returns (end: End, count: nat)
      modifies this
      ensures end == Threw <==> !Intact(Wal(old(S()), g))
      ensures end == Threw ==> S() == old(S()) && left == old(left)
      ensures end != Threw ==>
        Ran(old(S()), old(left), RecoveryPlan(Redos(g, Pending(Wal(old(S()), g)))), S(), left, end == Returned)
      ensures end == Returned ==> count == |Pending(Wal(old(S()), g))|
    {
      count := 0;
      var records, parsed := ReadWal(g);
      if !parsed {
        return Threw, 0;
      }
      var committed := CommittedTimes(records);
      ghost var s0, l0 := S(), left;
      ghost var all := Pending(records);
      for i := 0 to |records|
        invariant count == |Uncommitted(records[..i], committed)|
        invariant Ran(s0, l0, RecoveryPlan(Redos(g, Uncommitted(records[..i], committed))), S(), left, true)
      {
        ghost var before := Uncommitted(records[..i], committed);
        ghost var done := RecoveryPlan(Redos(g, before));
        UncommittedSnoc(records, i, committed);
        if records[i].Intent? && records[i].ts !in committed {
          ghost var r := Redo(g, records[i].op, records[i].ts);
          RedosSnoc(g, before, records[i]);
          RecoveryPlanSnoc(Redos(g, before), r);
          RecoveryPlanPrefix(g, records, i, committed);
          ghost var s1, l1 := S(), left;
          var alive := RedoIntent(g, records[i].op, records[i].ts);
          if !alive {
            RanConcat(s0, l0, done, s1, l1, RedoPlan(r), S(), left, false);
            ghost var rest := Redos(g, Uncommitted(records[i + 1..], committed));
            RanStopped(s0, l0, done + RedoPlan(r), RecoveryPlan(rest), S(), left);
            return Died, count;
          }
          RanConcat(s0, l0, done, s1, l1, RedoPlan(r), S(), left, true);
          count := count + 1;
        }
      }
      assert records[..|records|] == records;
      end := Returned;
    }

    method CommittedTimes(records: seq<Record>) returns (committed: set<nat>)
      ensures committed == Committed(records)
    {
      committed := {};
      for i := 0 to |records|
        invariant committed == Committed(records[..i])
      {
        CommittedSnoc(records[..i], records[i]);
        assert records[..i + 1] == records[..i] + [records[i]];
        if records[i].Commit? {
          committed := committed + {records[i].refTs};
        }
      }
      assert records[..|records|] == records;
    }

    method Remaining(records: seq<Record>, committed: set<nat>) returns (remaining: seq<Record>)
      ensures remaining == Uncommitted(records, committed)
    {
      remaining := [];
      for i := 0 to |records|
        invariant remaining == Uncommitted(records[..i], committed)
      {
        UncommittedSnoc(records, i, committed);
        if records[i].Intent? && records[i].ts !in committed {
          remaining := remaining + [records[i]];
        }
      }
      assert records[..|records|] == records;
    }

    method RedoIntent(g: GoalId, op: Op, ts: nat) returns (alive: bool)
      modifies this
      ensures Ran(old(S()), old(left), RedoPlan(Redo(g, op, ts)), S(), left, alive)
    {
      alive := ReplayIntent(op);
      if !alive {
        RanStopped(old(S()), old(left), AsWrites(ReplayPuts(op)), [Append(g, Commit(ts))], S(), left);
        return;
      }
      ghost var s1, l1 := S(), left;
      alive := AppendWalRecord(g, Commit(ts));
      RanConcat(old(S()), old(left), AsWrites(ReplayPuts(op)), s1, l1, [Append(g, Commit(ts))], S(), left, alive);
    }

    method CompactWal(g: GoalId) returns (end: End)
      modifies this
      ensures end == Threw <==> !Intact(Wal(old(S()), g))
      ensures Ran(old(S()), old(left), CompactionPlan(g, Wal(old(S()), g)), S(), left, end != Died)
    {
      var records, parsed := ReadWal(g);
      if !parsed {
        return Threw;
      }
      ghost var plan := CompactionPlan(g, records);
      ghost var s0, l0 := S(), left;
      var alive := AppendWalRecord(g, CompactionStart);
      if !alive {
        RanStopped(s0, l0, plan[..1], plan[1..], S(), left);
        assert plan[..1] + plan[1..] == plan;
        return Died;
      }
      assert plan[..1] == [Append(g, CompactionStart)];
      var committed := CommittedTimes(records);
      var remaining := Remaining(records, committed);
      ghost var s1, l1 := S(), left;
      alive := WriteTmpLog(g, remaining);
      RanConcat(s0, l0, plan[..1], s1, l1, [WriteTmp(g, remaining)], S(), left, alive);
      assert plan[..1] + [WriteTmp(g, remaining)] == plan[..2];
      if !alive {
        RanStopped(s0, l0, plan[..2], plan[2..], S(), left);
        assert plan[..2] + plan[2..] == plan;
        return Died;
      }
      ghost var s2, l2 := S(), left;
      alive := RenameTmpLog(g);
      RanConcat(s0, l0, plan[..2], s2, l2, [RenameTmp(g)], S(), left, alive);
      assert plan[..2] + [RenameTmp(g)] == plan[..3];
      if !alive {
        RanStopped(s0, l0, plan[..3], plan[3..], S(), left);
        assert plan[..3] + plan[3..] == plan;
        return Died;
      }
      ghost var s3, l3 := S(), left;
      alive := AppendWalRecord(g, CompactionComplete);
      RanConcat(s0, l0, plan[..3], s3, l3, [Append(g, CompactionComplete)], S(), left, alive);
      assert plan[..3] + [Append(g, CompactionComplete)] == plan;
      end := if alive then Returned else Died;
    }

    /** Startup recovery over the goal directories found. */
    method RecoverWal(ids: seq<GoalId>) returns (end: End)
      requires NoDuplicates(ids)
      modifies this
      ensures LogsKept(old(S()), ids) ==>
        && Ran(old(S()), old(left), RecoveryPlan(Todo(old(S()), ids)), S(), left, end != Died)
        && (end == Returned ==> GoalWrites.AllIntact(old(S()), ids))
        && (end == Threw ==> !GoalWrites.AllIntact(old(S()), ids))
    {
      ghost var s0, l0 := S(), left;
      ghost var kept := LogsKept(s0, ids);
      for i := 0 to |ids|
        invariant kept ==>
          GoalWrites.AllIntact(s0, ids[..i]) && Ran(s0, l0, RecoveryPlan(Todo(s0, ids[..i])), S(), left, true)
      {
        ghost var s1, l1 := S(), left;
        var n;
        end, n := ReplayWal(ids[i]);
        if kept {
          GoalRecovered(s0, l0, ids, i, s1, l1, S(), left, end);
        }
        if end != Returned {
          return;
        }
      }
      assert ids[..|ids|] == ids;
      end := Returned;
    }
  }

  /** Replaying the next goal's log takes a recovery one goal further, or ends it. */
  lemma GoalRecovered(s0: Store, l0: nat, ids: seq<GoalId>, i: nat, s1: Store, l1: nat, s2: Store, l2: nat, end: End)
    requires i < |ids| && NoDuplicates(ids) && LogsKept(s0, ids) && GoalWrites.AllIntact(s0, ids[..i])
    requires Ran(s0, l0, RecoveryPlan(Todo(s0, ids[..i])), s1, l1, true)
    requires end == Threw <==> !Intact(Wal(s1, ids[i]))
    requires end == Threw ==> s2 == s1 && l2 == l1
    requires end != Threw ==>
      Ran(s1, l1, RecoveryPlan(Redos(ids[i], Pending(Wal(s1, ids[i])))), s2, l2, end == Returned)
    ensures end == Returned ==>
      GoalWrites.AllIntact(s0, ids[..i + 1]) && Ran(s0, l0, RecoveryPlan(Todo(s0, ids[..i + 1])), s2, l2, true)
    ensures end != Returned ==> Ran(s0, l0, RecoveryPlan(Todo(s0, ids)), s2, l2, end == Threw)
    ensures end == Threw ==> !GoalWrites.AllIntact(s0, ids)
  {
    DoneElsewhere(s0, ids, i);
    TodoSplit(s0, ids, i);
    if end != Threw {
      var done, mine := Todo(s0, ids[..i]), Redos(ids[i], Pending(Wal(s0, ids[i])));
      TodoSnoc(s0, ids, i);
      RecoveryPlanConcat(done, mine);
      RanConcat(s0, l0, RecoveryPlan(done), s1, l1, RecoveryPlan(mine), s2, l2, end == Returned);
      if end == Died {
        TodoSplit(s0, ids, i + 1);
        RecoveryPlanConcat(Todo(s0, ids[..i + 1]), Todo(s0, ids[i + 1..]));
        RanStopped(s0, l0, RecoveryPlan(Todo(s0, ids[..i + 1])), RecoveryPlan(Todo(s0, ids[i + 1..])), s2, l2);
      }
    }
  }

  datatype Outcome = Written | Refused | Failed | Killed

  function CorePlan(g: GoalId, op: Op, ts: nat): seq<Effect> {
    [Append(g, Intent(op, ts))] + AsWrites(WritePuts(g, op)) + [Append(g, Commit(ts))]
  }

  function TailPlan(g: GoalId, op: Op, ts: nat, count: nat, log: seq<Record>): seq<Effect> {
    if (count + 1) % GoalWrites.COMPACT_EVERY == 0 then CompactionPlan(g, GoalWrites.LogAfter(g, op, ts, log)) else []
  }

  /** A raw write aimed at the directory that the write itself holds as its lock. */
  predicate MeetsOwnLock(g: GoalId, op: Op) {
    op.WriteRaw? && op.path == Path(g, LockDirectory)
  }

  /** The compaction that is due cannot read the log. */
  predicate CannotCompact(g: GoalId, op: Op, ts: nat, count: nat, log: seq<Record>) {
    (count + 1) % GoalWrites.COMPACT_EVERY == 0 && !Intact(GoalWrites.LogAfter(g, op, ts, log))
  }

  lemma WritesOnLog(s: Store, g: GoalId, op: Op)
    ensures Wal(Exec(s, AsWrites(WritePuts(g, op))), g) ==
      if op.WriteRaw? && op.path == Path(g, LogFile) then [Torn(op.payload)] else Wal(s, g)
  {
    if KeepsLogs(op) {
      WritesKeepLogs(s, WritePuts(g, op));
    } else {
      assert AsWrites(WritePuts(g, op)) == [Write(Put(op.path, op.payload))];
      ExecOne(s, Write(Put(op.path, op.payload)));
    }
  }

  lemma CoreLog(s: Store, g: GoalId, op: Op, ts: nat)
    ensures Wal(Exec(s, CorePlan(g, op, ts)), g) == GoalWrites.LogAfter(g, op, ts, Wal(s, g))
  {
    var a, b, c := [Append(g, Intent(op, ts))], AsWrites(WritePuts(g, op)), [Append(g, Commit(ts))];
    ExecConcat(s, a + b, c);
    ExecConcat(s, a, b);
    ExecOne(s, a[0]);
    WritesOnLog(Exec(s, a), g, op);
    ExecOne(Exec(s, a + b), c[0]);
  }

  lemma {:induction false} NoWritesKeepFiles(s: Store, effects: seq<Effect>)
    requires forall e :: e in effects ==> !e.Write?
    ensures Exec(s, effects).files == s.files
    decreases |effects|
  {
    if effects != [] {
      assert effects[0] in effects;
      NoWritesKeepFiles(Apply(s, effects[0]), effects[1..]);
    }
  }

  lemma PlanFiles(s: Store, g: GoalId, op: Op, ts: nat, count: nat, log: seq<Record>)
    requires Ordinary(op)
    ensures Exec(s, GoalWrites.WritePlan(g, op, ts, count, log)).files == PutAll(s.files, WritePuts(g, op))
  {
    var a, b, c := [Append(g, Intent(op, ts))], AsWrites(WritePuts(g, op)), [Append(g, Commit(ts))];
    var tail := TailPlan(g, op, ts, count, log);
    assert GoalWrites.WritePlan(g, op, ts, count, log) == a + b + c + tail;
    ExecConcat(s, a + b + c, tail);
    NoWritesKeepFiles(Exec(s, a + b + c), tail);
    ExecConcat(s, a + b, c);
    ExecOne(Exec(s, a + b), c[0]);
    ExecConcat(s, a, b);
    ExecOne(s, a[0]);
    ExecWrites(Apply(s, a[0]), WritePuts(g, op));
  }

  /** Logged or not, a completed write stores what its request asks for. */
  lemma WrittenAsAsked(s: Store, g: GoalId, req: Request, op: Op, ts: nat, count: nat)
    requires BuildOp(s.files, g, req) == Some(op) && !req.ReqWriteRaw?
    ensures Stores(s.files, g, req, Exec(s, GoalWrites.WritePlan(g, op, ts, count, Wal(s, g))).files)
    ensures Stores(s.files, g, req, Exec(s, AsWrites(WritePuts(g, op))).files)
  {
    PlanFiles(s, g, op, ts, count, Wal(s, g));
    ExecWrites(s, WritePuts(g, op));
    PerformStores(s.files, g, req);
  }

  /** Lock, fence, intent, write, commit, compact; the lock makes the method one block for its goal. */
  class GoalWriteCoordinator {
    const disk: Disk
    const walEnabled: bool
    var writeCount: map<GoalId, nat>
    var writeFences: map<GoalId, Op -> bool>

    constructor (disk: Disk, walEnabled: bool)
      ensures this.disk == disk && this.walEnabled == walEnabled
      ensures writeCount == map[] && writeFences == map[]
    {
      this.disk, this.walEnabled := disk, walEnabled;
      writeCount, writeFences := map[], map[];
    }

    ghost function Count(g: GoalId): nat
      reads this
    {
      if g in writeCount then writeCount[g] else 0
    }

    predicate FenceAllows(g: GoalId, op: Op)
      reads this
    {
      g in writeFences ==> writeFences[g](op)
    }

    method SetWriteFence(g: GoalId, fence: Op -> bool)
      modifies this
      ensures writeFences == old(writeFences)[g := fence] && writeCount == old(writeCount)
    {
      writeFences := writeFences[g := fence];
    }

    method ClearWriteFence(g: GoalId)
      modifies this
      ensures writeFences == old(writeFences) - {g} && writeCount == old(writeCount)
      ensures forall op :: FenceAllows(g, op)
    {
      writeFences := writeFences - {g};
    }

    /**
     * A refused write touches nothing; an accepted one runs its plan up to the crash, or fails: at its own lock, or
     * when the compaction after it throws.
     */
    method ProtectedWrite(g: GoalId, op: Op, ts: nat) returns (outcome: Outcome)
      modifies this`writeCount, disk
      ensures outcome == Refused <==> !FenceAllows(g, op)
      ensures outcome == Refused ==> disk.S() == old(disk.S()) && disk.left == old(disk.left)
      ensures outcome != Refused ==>
        Ran(old(disk.S()), old(disk.left), PlanFor(g, op, ts, old(Count(g)), old(disk.S())), disk.S(), disk.left,
            outcome != Killed)
      ensures outcome == Written ==> !Throws(g, op, ts, old(Count(g)), old(disk.S()))
      ensures outcome == Failed ==> Throws(g, op, ts, old(Count(g)), old(disk.S()))
      ensures walEnabled && !MeetsOwnLock(g, op) && (outcome == Written || outcome == Failed) ==>
        writeCount == old(writeCount)[g := old(Count(g)) + 1]
      ensures outcome == Refused || !walEnabled || MeetsOwnLock(g, op) ==> writeCount == old(writeCount)
    {
      if g in writeFences && !writeFences[g](op) {
        return Refused;
      }
      if !walEnabled {
        if MeetsOwnLock(g, op) { return Failed; }
        var ok := disk.WriteFn(g, op);
        return if ok then Written else Killed;
      }
      if MeetsOwnLock(g, op) {
        var ok := disk.AppendWalRecord(g, Intent(op, ts));
        return if ok then Failed else Killed;
      }
      outcome := LoggedWrite(g, op, ts);
    }

    method LoggedWrite(g: GoalId, op: Op, ts: nat) returns (outcome: Outcome)
      modifies this`writeCount, disk
      ensures outcome != Refused
      ensures Ran(old(disk.S()), old(disk.left), GoalWrites.WritePlan(g, op, ts, old(Count(g)), Wal(old(disk.S()), g)),
                  disk.S(), disk.left, outcome != Killed)
      ensures outcome == Written ==> !CannotCompact(g, op, ts, old(Count(g)), Wal(old(disk.S()), g))
      ensures outcome == Failed ==> CannotCompact(g, op, ts, old(Count(g)), Wal(old(disk.S()), g))
      ensures outcome != Killed ==> writeCount == old(writeCount)[g := old(Count(g)) + 1]
    {
      ghost var s0, l0 := disk.S(), disk.left;
      ghost var core, tail := CorePlan(g, op, ts), TailPlan(g, op, ts, Count(g), Wal(s0, g));
      assert GoalWrites.WritePlan(g, op, ts, Count(g), Wal(s0, g)) == core + tail;
      var alive := WriteCore(g, op, ts);
      if !alive {
        RanStopped(s0, l0, core, tail, disk.S(), disk.left);
        return Killed;
      }
      ghost var s1, l1 := disk.S(), disk.left;
      CoreLog(s0, g, op, ts);
      var count := (if g in writeCount then writeCount[g] else 0) + 1;
      writeCount := writeCount[g := count];
      if count % GoalWrites.COMPACT_EVERY == 0 {
        var end := disk.CompactWal(g);
        RanConcat(s0, l0, core, s1, l1, tail, disk.S(), disk.left, end != Died);
        if end != Returned { return if end == Died then Killed else Failed; }
      } else {
        assert core + tail == core;
      }
      outcome := Written;
    }

    method WriteCore(g: GoalId, op: Op, ts: nat) returns (alive: bool)
      modifies disk
      ensures Ran(old(disk.S()), old(disk.left), CorePlan(g, op, ts), disk.S(), disk.left, alive)
    {
      ghost var s0, l0 := disk.S(), disk.left;
      ghost var a, b, c := [Append(g, Intent(op, ts))], AsWrites(WritePuts(g, op)), [Append(g, Commit(ts))];
      alive := disk.AppendWalRecord(g, Intent(op, ts));
      if !alive {
        RanStopped(s0, l0, a, b + c, disk.S(), disk.left);
        assert a + (b + c) == CorePlan(g, op, ts);
        return;
      }
      ghost var s1, l1 := disk.S(), disk.left;
      alive := disk.WriteFn(g, op);
      RanConcat(s0, l0, a, s1, l1, b, disk.S(), disk.left, alive);
      if !alive {
        RanStopped(s0, l0, a + b, c, disk.S(), disk.left);
        return;
      }
      ghost var s2, l2 := disk.S(), disk.left;
      alive := disk.AppendWalRecord(g, Commit(ts));
      RanConcat(s0, l0, a + b, s2, l2, c, disk.S(), disk.left, alive);
    }

    ghost function PlanFor(g: GoalId, op: Op, ts: nat, count: nat, s: Store): seq<Effect> {
      if MeetsOwnLock(g, op) then (if walEnabled then [Append(g, Intent(op, ts))] else [])
      else if walEnabled then GoalWrites.WritePlan(g, op, ts, count, Wal(s, g))
      else AsWrites(WritePuts(g, op))
    }

    ghost predicate Throws(g: GoalId, op: Op, ts: nat, count: nat, s: Store) {
      MeetsOwnLock(g, op) || (walEnabled && CannotCompact(g, op, ts, count, Wal(s, g)))
    }

    /** Reads under the lock, then writes as above; data that cannot be built leaves everything as it was. */
    method ProtectedReadModifyWrite(g: GoalId, req: Request, ts: nat) returns (outcome: Outcome)
      modifies this`writeCount, disk
      ensures var op := BuildOp(old(disk.files), g, req);
        if op.None? || !FenceAllows(g, op.value) then
          outcome == Refused && disk.S() == old(disk.S()) && disk.left == old(disk.left) &&
            writeCount == old(writeCount)
        else
          && outcome != Refused
          && Ran(old(disk.S()), old(disk.left), PlanFor(g, op.value, ts, old(Count(g)), old(disk.S())), disk.S(),
            disk.left,
                 outcome != Killed)
          && (outcome == Written ==> !Throws(g, op.value, ts, old(Count(g)), old(disk.S())))
          && (outcome == Failed ==> Throws(g, op.value, ts, old(Count(g)), old(disk.S())))
      ensures outcome == Written && walEnabled ==> writeCount == old(writeCount)[g := old(Count(g)) + 1]
      ensures !walEnabled ==> writeCount == old(writeCount)
      ensures outcome == Written && !req.ReqWriteRaw? ==> Stores(old(disk.files), g, req, disk.files)
    {
      var op := BuildOp(disk.files, g, req);
      if op.None? {
        return Refused;
      }
      ghost var s0, count := disk.S(), Count(g);
      outcome := ProtectedWrite(g, op.value, ts);
      if outcome == Written && !req.ReqWriteRaw? {
        WrittenAsAsked(s0, g, req, op.value, ts, count);
      }
    }
  }
}

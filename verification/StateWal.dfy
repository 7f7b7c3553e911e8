/** The write-ahead log: replay and compaction as disk effects that a crash may cut. */
module StateWal {
  import opened Prelude
  import opened StateFiles

  /**
   * One line of wal.jsonl. Only the time that ties a commit to its intent is kept. Torn is a document that a raw write
   * put in place of the log: it has no line end, so that what is appended goes on its last line, and reading the log
   * throws.
   */
  datatype Record =
    | Intent(op: Op, ts: nat)
    | Commit(refTs: nat)
    | CompactionStart
    | CompactionComplete
    | Torn(content: Content)

  predicate Intact(log: seq<Record>) {
    forall r :: r in log ==> !r.Torn?
  }

  function Committed(log: seq<Record>): set<nat> {
    set i | 0 <= i < |log| && log[i].Commit? :: log[i].refTs
  }

  function Uncommitted(log: seq<Record>, committed: set<nat>): (r: seq<Record>)
    ensures forall i :: 0 <= i < |r| ==> r[i].Intent?
  {
    if log == [] then []
    else (if log[0].Intent? && log[0].ts !in committed then [log[0]] else []) + Uncommitted(log[1..], committed)
  }

  /** The intents without a commit, in log order. */
  function Pending(log: seq<Record>): (r: seq<Record>)
    ensures forall i :: 0 <= i < |r| ==> r[i].Intent?
  {
    Uncommitted(log, Committed(log))
  }

  ghost predicate DistinctPending(log: seq<Record>) {
    forall i, j :: 0 <= i < j < |Pending(log)| ==> Pending(log)[i].ts != Pending(log)[j].ts
  }

  // ----- Disk effects -----

  datatype Effect =
    | Append(goal: GoalId, record: Record)
    | Write(put: Put)
    | WriteTmp(goal: GoalId, log: seq<Record>)
    | RenameTmp(goal: GoalId)

  /** wals holds goals/<id>/wal.jsonl and tmps its compaction temporary. */
  datatype Store = Store(files: Files, wals: map<GoalId, seq<Record>>, tmps: map<GoalId, seq<Record>>)

  function Wal(s: Store, g: GoalId): seq<Record> {
    if g in s.wals then s.wals[g] else []
  }

  function Apply(s: Store, e: Effect): Store {
    match e
    case Append(g, r) => s.(wals := s.wals[g := Wal(s, g) + [r]])
    case Write(put) =>
      var g := put.path.goal;
      match put.path.file {
        case LogFile => s.(wals := s.wals[g := [Torn(put.content)]])
        case LogTemporary => s.(tmps := s.tmps[g := [Torn(put.content)]])
        case _ => s.(files := s.files[put.path := put.content])
      }
    case WriteTmp(g, log) => s.(tmps := s.tmps[g := log])
    case RenameTmp(g) => if g in s.tmps then s.(wals := s.wals[g := s.tmps[g]], tmps := s.tmps - {g}) else s
  }

  /** The document that a raw write left in a log or its temporary, when nothing has been appended to it. */
  function RawDocument(logs: map<GoalId, seq<Record>>, g: GoalId): Option<Content> {
    if g in logs && |logs[g]| == 1 && logs[g][0].Torn? then Some(logs[g][0].content) else None
  }

  function Lookup(files: Files, path: Path): Option<Content> {
    if path in files then Some(files[path]) else None
  }

  /** What a reader finds at a path. */
  function Found(s: Store, path: Path): Option<Content> {
    if path.file == LogFile && RawDocument(s.wals, path.goal).Some? then RawDocument(s.wals, path.goal)
    else if path.file == LogTemporary && RawDocument(s.tmps, path.goal).Some? then RawDocument(s.tmps, path.goal)
    else Lookup(s.files, path)
  }

  ghost predicate Shows(s: Store, files: Files) {
    forall path :: Found(s, path) == Lookup(files, path)
  }

  function Exec(s: Store, effects: seq<Effect>): Store
    decreases |effects|
  {
    if effects == [] then s else Exec(Apply(s, effects[0]), effects[1..])
  }

  lemma {:induction false} ExecConcat(s: Store, xs: seq<Effect>, ys: seq<Effect>)
    ensures Exec(s, xs + ys) == Exec(Exec(s, xs), ys)
    decreases |xs|
  {
    if xs == [] {
      assert xs + ys == ys;
    } else {
      ExecConcat(Apply(s, xs[0]), xs[1..], ys);
      assert (xs + ys)[1..] == xs[1..] + ys;
    }
  }

  function AsWrites(puts: seq<Put>): (r: seq<Effect>)
    ensures |r| == |puts| && forall i :: 0 <= i < |r| ==> r[i] == Write(puts[i])
  {
    seq(|puts|, i requires 0 <= i < |puts| => Write(puts[i]))
  }

  /** The operation writes neither a log nor the temporary of one. */
  predicate Ordinary(op: Op) {
    op.WriteRaw? ==> op.path.file != LogFile && op.path.file != LogTemporary
  }

  predicate KeepsLogs(op: Op) {
    op.WriteRaw? ==> op.path.file != LogFile
  }

  lemma {:induction false} ExecWrites(s: Store, puts: seq<Put>)
    requires forall i :: 0 <= i < |puts| ==> puts[i].path.file != LogFile && puts[i].path.file != LogTemporary
    ensures Exec(s, AsWrites(puts)) == s.(files := PutAll(s.files, puts))
    decreases |puts|
  {
    if puts != [] {
      ExecWrites(Apply(s, Write(puts[0])), puts[1..]);
      assert AsWrites(puts)[1..] == AsWrites(puts[1..]);
    }
  }

  lemma {:induction false} WritesKeepLogs(s: Store, puts: seq<Put>)
    requires forall i :: 0 <= i < |puts| ==> puts[i].path.file != LogFile
    ensures Exec(s, AsWrites(puts)).wals == s.wals
    decreases |puts|
  {
    if puts != [] {
      WritesKeepLogs(Apply(s, Write(puts[0])), puts[1..]);
      assert AsWrites(puts)[1..] == AsWrites(puts[1..]);
    }
  }

  // ----- Properties of the pending list -----

  lemma {:induction false} UncommittedConcat(xs: seq<Record>, ys: seq<Record>, c: set<nat>)
    ensures Uncommitted(xs + ys, c) == Uncommitted(xs, c) + Uncommitted(ys, c)
    decreases |xs|
  {
    if xs == [] {
      assert xs + ys == ys;
    } else {
      UncommittedConcat(xs[1..], ys, c);
      assert (xs + ys)[1..] == xs[1..] + ys;
    }
  }

  function WithoutTs(intents: seq<Record>, t: nat): seq<Record> {
    if intents == [] then []
    else (if intents[0].Intent? && intents[0].ts == t then [] else [intents[0]]) + WithoutTs(intents[1..], t)
  }

  lemma {:induction false} UncommittedWithout(log: seq<Record>, c: set<nat>, t: nat)
    ensures Uncommitted(log, c + {t}) == WithoutTs(Uncommitted(log, c), t)
  {
    if log != [] {
      UncommittedWithout(log[1..], c, t);
      assert ([log[0]] + Uncommitted(log[1..], c))[1..] == Uncommitted(log[1..], c);
      assert [] + Uncommitted(log[1..], c) == Uncommitted(log[1..], c);
      assert [] + Uncommitted(log[1..], c + {t}) == Uncommitted(log[1..], c + {t});
    }
  }

  lemma CommittedSnoc(log: seq<Record>, r: Record)
    ensures Committed(log + [r]) == Committed(log) + (if r.Commit? then {r.refTs} else {})
  {
    var l := log + [r];
    forall t | t in Committed(log) ensures t in Committed(l) {
      var i :| 0 <= i < |log| && log[i].Commit? && log[i].refTs == t;
      assert l[i] == log[i];
    }
    assert l[|log|] == r;
  }

  /** A commit takes every pending intent of its timestamp off the list. */
  lemma CommitFilters(log: seq<Record>, t: nat)
    ensures Pending(log + [Commit(t)]) == WithoutTs(Pending(log), t)
  {
    CommittedSnoc(log, Commit(t));
    UncommittedConcat(log, [Commit(t)], Committed(log) + {t});
    UncommittedOne(Commit(t), Committed(log) + {t});
    UncommittedWithout(log, Committed(log), t);
  }

  lemma {:induction false} WithoutTsAbsent(intents: seq<Record>, t: nat)
    ensures (forall i :: 0 <= i < |intents| && intents[i].Intent? ==> intents[i].ts != t) <==>
            WithoutTs(intents, t) == intents
    ensures |WithoutTs(intents, t)| <= |intents|
  {
    if intents != [] {
      WithoutTsAbsent(intents[1..], t);
      assert forall i :: 0 <= i < |intents| - 1 ==> intents[1..][i] == intents[i + 1];
    }
  }

  /**
   * Committing the first pending intent takes off that intent alone, exactly when no other pending intent has its
   * timestamp.
   */
  lemma CommitRemovesItsIntentOnly(log: seq<Record>)
    requires Pending(log) != []
    ensures Pending(log + [Commit(Pending(log)[0].ts)]) == Pending(log)[1..] <==>
            forall i :: 1 <= i < |Pending(log)| ==> Pending(log)[i].ts != Pending(log)[0].ts
  {
    var p := Pending(log);
    CommitFilters(log, p[0].ts);
    WithoutTsAbsent(p[1..], p[0].ts);
    assert forall i :: 0 <= i < |p| - 1 ==> p[1..][i] == p[i + 1];
  }

  lemma UncommittedOne(r: Record, c: set<nat>)
    ensures Uncommitted([r], c) == if r.Intent? && r.ts !in c then [r] else []
  {
    assert [r][1..] == [];
    assert Uncommitted([], c) == [];
  }

  lemma NewIntentIsPending(log: seq<Record>, op: Op, t: nat)
    requires t !in Committed(log)
    ensures Pending(log + [Intent(op, t)]) == Pending(log) + [Intent(op, t)]
  {
    CommittedSnoc(log, Intent(op, t));
    UncommittedConcat(log, [Intent(op, t)], Committed(log));
    UncommittedOne(Intent(op, t), Committed(log));
    assert Committed(log + [Intent(op, t)]) == Committed(log);
  }

  lemma MarkerChangesNothing(log: seq<Record>, r: Record)
    requires r.CompactionStart? || r.CompactionComplete?
    ensures Pending(log + [r]) == Pending(log)
  {
    CommittedSnoc(log, r);
    UncommittedConcat(log, [r], Committed(log));
    UncommittedOne(r, Committed(log));
    assert Committed(log + [r]) == Committed(log);
  }

  lemma {:induction false} IntentsStayUncommitted(intents: seq<Record>)
    requires forall i :: 0 <= i < |intents| ==> intents[i].Intent?
    ensures Uncommitted(intents, {}) == intents
  {
    if intents != [] {
      IntentsStayUncommitted(intents[1..]);
    }
  }

  lemma PendingOfPending(log: seq<Record>)
    ensures Pending(Pending(log)) == Pending(log)
  {
    assert Committed(Pending(log)) == {};
    IntentsStayUncommitted(Pending(log));
  }

  // ----- Compaction -----

  /** Nothing when reading the log throws. */
  function CompactionPlan(g: GoalId, log: seq<Record>): seq<Effect> {
    if !Intact(log) then [] else
    [Append(g, CompactionStart), WriteTmp(g, Pending(log)), RenameTmp(g), Append(g, CompactionComplete)]
  }

  lemma ExecFour(s: Store, plan: seq<Effect>, k: nat)
    requires |plan| == 4 && k <= 4
    ensures Exec(s, plan[..k]) ==
      if k == 0 then s
      else if k == 1 then Apply(s, plan[0])
      else if k == 2 then Apply(Apply(s, plan[0]), plan[1])
      else if k == 3 then Apply(Apply(Apply(s, plan[0]), plan[1]), plan[2])
      else Apply(Apply(Apply(Apply(s, plan[0]), plan[1]), plan[2]), plan[3])
  {
    if k > 0 {
      var k' := k - 1;
      assert plan[..k] == plan[..k'] + [plan[k']];
      ExecConcat(s, plan[..k'], [plan[k']]);
      ExecFour(s, plan, k');
      ExecOne(Exec(s, plan[..k']), plan[k']);
    }
  }

  lemma ExecOne(s: Store, e: Effect)
    ensures Exec(s, [e]) == Apply(s, e)
  {
    assert [e][1..] == [];
  }

  function CompactedLog(log: seq<Record>, k: nat): seq<Record> {
    if k == 0 then log
    else if k <= 2 then log + [CompactionStart]
    else if k == 3 then Pending(log)
    else Pending(log) + [CompactionComplete]
  }

  lemma CutCompaction(s: Store, g: GoalId, k: nat)
    requires k <= |CompactionPlan(g, Wal(s, g))|
    ensures var s' := Exec(s, CompactionPlan(g, Wal(s, g))[..k]);
      && s'.files == s.files
      && Wal(s', g) == CompactedLog(Wal(s, g), k)
      && (forall h :: h != g ==> Wal(s', h) == Wal(s, h))
  {
    if Intact(Wal(s, g)) {
      ExecFour(s, CompactionPlan(g, Wal(s, g)), k);
    }
  }

  lemma CompactedLogPending(log: seq<Record>, k: nat)
    requires Intact(log)
    ensures Pending(CompactedLog(log, k)) == Pending(log) && Intact(CompactedLog(log, k))
  {
    MarkerChangesNothing(log, CompactionStart);
    PendingOfPending(log);
    MarkerChangesNothing(Pending(log), CompactionComplete);
  }

  /** Wherever compaction is cut, recovery finds the same pending intents; complete, it leaves them and one marker. */
  lemma CompactionPreservesPending(s: Store, g: GoalId, k: nat)
    requires k <= |CompactionPlan(g, Wal(s, g))|
    ensures var s' := Exec(s, CompactionPlan(g, Wal(s, g))[..k]);
      && s'.files == s.files
      && Pending(Wal(s', g)) == Pending(Wal(s, g)) && (Intact(Wal(s', g)) <==> Intact(Wal(s, g)))
      && (forall h :: h != g ==> Wal(s', h) == Wal(s, h))
      && (k == 4 ==> Wal(s', g) == Pending(Wal(s, g)) + [CompactionComplete])
  {
    CutCompaction(s, g, k);
    if Intact(Wal(s, g)) {
      CompactedLogPending(Wal(s, g), k);
    }
  }

  // ----- Recovery -----

  /** One pending intent of one goal. */
  datatype Redo = Redo(goal: GoalId, op: Op, ts: nat)

  function Redos(g: GoalId, intents: seq<Record>): (r: seq<Redo>)
    requires forall i :: 0 <= i < |intents| ==> intents[i].Intent?
    ensures |r| == |intents|
    ensures forall i :: 0 <= i < |r| ==> r[i] == Redo(g, intents[i].op, intents[i].ts)
  {
    seq(|intents|, i requires 0 <= i < |intents| => Redo(g, intents[i].op, intents[i].ts))
  }

  /**
   * What a recovery over the listed goals has to redo, in its order; it throws at the first log that cannot be read.
   */
  function Todo(s: Store, ids: seq<GoalId>): seq<Redo> {
    if ids == [] || !Intact(Wal(s, ids[0])) then [] else Redos(ids[0], Pending(Wal(s, ids[0]))) + Todo(s, ids[1..])
  }

  function RedoPlan(r: Redo): seq<Effect> {
    AsWrites(ReplayPuts(r.op)) + [Append(r.goal, Commit(r.ts))]
  }

  function RecoveryPlan(todo: seq<Redo>): seq<Effect> {
    if todo == [] then [] else RedoPlan(todo[0]) + RecoveryPlan(todo[1..])
  }

  function Recover(s: Store, ids: seq<GoalId>): Store {
    Exec(s, RecoveryPlan(Todo(s, ids)))
  }

  ghost predicate NoDuplicates<T>(xs: seq<T>) {
    forall i, j :: 0 <= i < j < |xs| ==> xs[i] != xs[j]
  }

  ghost predicate DistinctTimes(s: Store, ids: seq<GoalId>) {
    forall g :: g in ids ==> DistinctPending(Wal(s, g))
  }

  ghost predicate LogsKept(s: Store, ids: seq<GoalId>) {
    forall r :: r in Todo(s, ids) ==> KeepsLogs(r.op)
  }

  lemma TodoDependsOnLogs(s: Store, t: Store, ids: seq<GoalId>)
    requires forall g :: g in ids ==> Wal(s, g) == Wal(t, g)
    ensures Todo(s, ids) == Todo(t, ids)
  {
  }

  lemma NotAmongRest<T>(xs: seq<T>, x: T)
    requires NoDuplicates(xs) && xs != [] && x in xs[1..]
    ensures x != xs[0]
  {
    var i :| 0 <= i < |xs[1..]| && xs[1..][i] == x;
    assert xs[i + 1] == x;
  }

  lemma {:induction false} TodoGoals(s: Store, ids: seq<GoalId>)
    ensures forall i :: 0 <= i < |Todo(s, ids)| ==> Todo(s, ids)[i].goal in ids
  {
    if ids != [] {
      TodoGoals(s, ids[1..]);
    }
  }

  /** The logs of t are those of s with the commit of item r appended. */
  ghost predicate CommittedIn(s: Store, t: Store, r: Redo) {
    t.wals == s.wals[r.goal := Wal(s, r.goal) + [Commit(r.ts)]]
  }

  lemma TailOfConcat<T>(xs: seq<T>, ys: seq<T>)
    requires xs != []
    ensures (xs + ys)[1..] == xs[1..] + ys && (xs + ys)[0] == xs[0]
  {
  }

  lemma RedoHead(s: Store, t: Store, g: GoalId, rest: seq<GoalId>, p: seq<Record>)
    requires p == Pending(Wal(s, g)) && p != [] && DistinctPending(Wal(s, g))
    requires g !in rest
    requires CommittedIn(s, t, Redo(g, p[0].op, p[0].ts))
    ensures Pending(Wal(t, g)) == p[1..]
    ensures Todo(t, rest) == Todo(s, rest)
    ensures DistinctPending(Wal(t, g))
  {
    CommitRemovesItsIntentOnly(Wal(s, g));
    assert Wal(t, g) == Wal(s, g) + [Commit(p[0].ts)];
    TodoDependsOnLogs(s, t, rest);
    assert forall i :: 0 <= i < |p[1..]| ==> p[1..][i] == p[i + 1];
  }

  lemma TodoUnfold(s: Store, g: GoalId, rest: seq<GoalId>)
    requires Intact(Wal(s, g))
    ensures Todo(s, [g] + rest) == Redos(g, Pending(Wal(s, g))) + Todo(s, rest)
  {
    assert ([g] + rest)[1..] == rest;
  }

  lemma TimesStayDistinct(s: Store, t: Store, g: GoalId, ids: seq<GoalId>)
    requires DistinctTimes(s, ids) && DistinctPending(Wal(t, g))
    requires forall h :: h != g ==> Wal(t, h) == Wal(s, h)
    ensures DistinctTimes(t, ids)
  {
  }

  /** Redoing the first item takes it, and nothing else, off the list. */
  lemma {:induction false} RedoOne(s: Store, t: Store, ids: seq<GoalId>)
    requires NoDuplicates(ids) && DistinctTimes(s, ids)
    requires Todo(s, ids) != []
    requires CommittedIn(s, t, Todo(s, ids)[0])
    ensures Todo(t, ids) == Todo(s, ids)[1..]
    ensures DistinctTimes(t, ids)
  {
    var g, rest := ids[0], ids[1..];
    assert ids == [g] + rest;
    TodoUnfold(s, g, rest);
    if Pending(Wal(s, g)) == [] {
      TodoGoals(s, rest);
      NotAmongRest(ids, Todo(s, ids)[0].goal);
      RedoOne(s, t, rest);
      assert Wal(t, g) == Wal(s, g);
    } else {
      var p := Pending(Wal(s, g));
      TailOfConcat(Redos(g, p), Todo(s, rest));
      assert g !in rest by {
        if g in rest { NotAmongRest(ids, g); }
      }
      RedoHead(s, t, g, rest, p);
      assert Redos(g, p)[1..] == Redos(g, p[1..]);
      TimesStayDistinct(s, t, g, ids);
    }
    TodoUnfold(t, g, rest);
  }

  lemma ExecRedo(s: Store, r: Redo)
    requires Ordinary(r.op)
    ensures Exec(s, RedoPlan(r)) ==
      s.(files := PutAll(s.files, ReplayPuts(r.op)), wals := s.wals[r.goal := Wal(s, r.goal) + [Commit(r.ts)]])
  {
    ExecConcat(s, AsWrites(ReplayPuts(r.op)), [Append(r.goal, Commit(r.ts))]);
    ExecWrites(s, ReplayPuts(r.op));
    ExecOne(Exec(s, AsWrites(ReplayPuts(r.op))), Append(r.goal, Commit(r.ts)));
  }

  lemma RedoCommits(s: Store, r: Redo)
    requires KeepsLogs(r.op)
    ensures CommittedIn(s, Exec(s, RedoPlan(r)), r)
  {
    ExecConcat(s, AsWrites(ReplayPuts(r.op)), [Append(r.goal, Commit(r.ts))]);
    WritesKeepLogs(s, ReplayPuts(r.op));
    ExecOne(Exec(s, AsWrites(ReplayPuts(r.op))), Append(r.goal, Commit(r.ts)));
  }

  lemma AsWritesPrefix(puts: seq<Put>, k: nat)
    requires k <= |puts|
    ensures AsWrites(puts)[..k] == AsWrites(puts[..k])
  {
  }

  /** Cut inside an item, recovery has only done some of its puts. */
  lemma PartOfRedo(s: Store, r: Redo, k: nat)
    requires k < |RedoPlan(r)|
    ensures Ordinary(r.op) ==> Exec(s, RedoPlan(r)[..k]) == s.(files := PutAll(s.files, ReplayPuts(r.op)[..k]))
    ensures KeepsLogs(r.op) ==> Exec(s, RedoPlan(r)[..k]).wals == s.wals
  {
    var puts := ReplayPuts(r.op);
    assert RedoPlan(r)[..k] == AsWrites(puts)[..k];
    AsWritesPrefix(puts, k);
    if Ordinary(r.op) {
      ExecWrites(s, puts[..k]);
    } else if KeepsLogs(r.op) {
      WritesKeepLogs(s, puts[..k]);
    }
  }

  lemma WriteTwice(s: Store, put: Put)
    ensures Apply(Apply(s, Write(put)), Write(put)) == Apply(s, Write(put))
  {
    match put.path.file
    case LogFile =>
    case LogTemporary =>
    case _ =>
  }

  lemma FirstAgain(s: Store, e: Effect, rest: seq<Effect>)
    requires Apply(Apply(s, e), e) == Apply(s, e)
    ensures Exec(Exec(s, [e]), [e] + rest) == Exec(s, [e] + rest)
  {
    ExecOne(s, e);
    ExecOne(Apply(s, e), e);
    ExecConcat(s, [e], rest);
    ExecConcat(Apply(s, e), [e], rest);
  }

  lemma RawRedoTwice(s: Store, r: Redo, k: nat)
    requires r.op.WriteRaw? && k < |RedoPlan(r)|
    ensures Exec(Exec(s, RedoPlan(r)[..k]), RedoPlan(r)) == Exec(s, RedoPlan(r))
  {
    var put, commit := Put(r.op.path, r.op.payload), Append(r.goal, Commit(r.ts));
    assert RedoPlan(r) == [Write(put)] + [commit];
    if k == 1 {
      assert RedoPlan(r)[..1] == [Write(put)];
      WriteTwice(s, put);
      FirstAgain(s, Write(put), [commit]);
    } else {
      assert RedoPlan(r)[..0] == [];
    }
  }

  /** Doing an item again repairs a cut inside it. */
  lemma CutInsideRedo(s: Store, r: Redo, k: nat)
    requires k < |RedoPlan(r)|
    ensures Exec(Exec(s, RedoPlan(r)[..k]), RedoPlan(r)) == Exec(s, RedoPlan(r))
  {
    if r.op.WriteRaw? {
      RawRedoTwice(s, r, k);
    } else {
      var puts := ReplayPuts(r.op);
      PartOfRedo(s, r, k);
      ExecRedo(s, r);
      ExecRedo(Exec(s, RedoPlan(r)[..k]), r);
      assert PathsOf(puts[..k]) <= PathsOf(puts) by {
        assert forall i :: 0 <= i < k ==> puts[..k][i] == puts[i];
      }
      RedoPuts(s.files, puts, puts[..k]);
    }
  }

  lemma RecoverUnfold(s: Store, ids: seq<GoalId>)
    requires NoDuplicates(ids) && DistinctTimes(s, ids)
    requires Todo(s, ids) != [] && KeepsLogs(Todo(s, ids)[0].op)
    ensures var s1 := Exec(s, RedoPlan(Todo(s, ids)[0]));
      Todo(s1, ids) == Todo(s, ids)[1..] && DistinctTimes(s1, ids) && Recover(s1, ids) == Recover(s, ids)
  {
    var todo := Todo(s, ids);
    RedoCommits(s, todo[0]);
    RedoOne(s, Exec(s, RedoPlan(todo[0])), ids);
    ExecConcat(s, RedoPlan(todo[0]), RecoveryPlan(todo[1..]));
  }

  lemma {:induction false} RecoveryLeavesNothingPending(s: Store, ids: seq<GoalId>)
    requires NoDuplicates(ids) && DistinctTimes(s, ids) && LogsKept(s, ids)
    ensures Todo(Recover(s, ids), ids) == []
    decreases |Todo(s, ids)|
  {
    if Todo(s, ids) != [] {
      assert Todo(s, ids)[0] in Todo(s, ids);
      RecoverUnfold(s, ids);
      RecoveryLeavesNothingPending(Exec(s, RedoPlan(Todo(s, ids)[0])), ids);
    }
  }

  lemma ExecPrefixConcat(s: Store, xs: seq<Effect>, ys: seq<Effect>, k: nat)
    requires k <= |xs| + |ys|
    ensures Exec(s, (xs + ys)[..k]) == if k < |xs| then Exec(s, xs[..k]) else Exec(Exec(s, xs), ys[..k - |xs|])
  {
    if k < |xs| {
      assert (xs + ys)[..k] == xs[..k];
    } else {
      assert (xs + ys)[..k] == xs + ys[..k - |xs|];
      ExecConcat(s, xs, ys[..k - |xs|]);
    }
  }

  lemma CutInFirstRedo(s: Store, ids: seq<GoalId>, k: nat)
    requires NoDuplicates(ids) && DistinctTimes(s, ids)
    requires Todo(s, ids) != [] && k < |RedoPlan(Todo(s, ids)[0])| && KeepsLogs(Todo(s, ids)[0].op)
    ensures var s' := Exec(s, RedoPlan(Todo(s, ids)[0])[..k]);
      DistinctTimes(s', ids) && Todo(s', ids) == Todo(s, ids) && Recover(s', ids) == Recover(s, ids)
  {
    var r := Todo(s, ids)[0];
    var s' := Exec(s, RedoPlan(r)[..k]);
    PartOfRedo(s, r, k);
    CutInsideRedo(s, r, k);
    TodoDependsOnLogs(s, s', ids);
    RecoverUnfold(s, ids);
    RecoverUnfold(s', ids);
  }

  function CutRecovery(s: Store, ids: seq<GoalId>, k: nat): Store
    requires k <= |RecoveryPlan(Todo(s, ids))|
  {
    Exec(s, RecoveryPlan(Todo(s, ids))[..k])
  }

  lemma CutOf(s: Store, ids: seq<GoalId>, plan: seq<Effect>, k: nat)
    requires plan == RecoveryPlan(Todo(s, ids)) && k <= |plan|
    ensures CutRecovery(s, ids, k) == Exec(s, plan[..k])
  {
  }

  lemma PlanUnfold(todo: seq<Redo>, head: seq<Effect>, rest: seq<Effect>)
    requires todo != [] && head == RedoPlan(todo[0]) && rest == RecoveryPlan(todo[1..])
    ensures RecoveryPlan(todo) == head + rest
  {
  }

  /** A cut recovery is cut inside the redo of the first item, or is a cut recovery of what is left after it. */
  lemma CutAtHead(s: Store, ids: seq<GoalId>, k: nat, head: seq<Effect>, s1: Store)
    requires Todo(s, ids) != [] && head == RedoPlan(Todo(s, ids)[0]) && s1 == Exec(s, head)
    requires Todo(s1, ids) == Todo(s, ids)[1..] && k <= |RecoveryPlan(Todo(s, ids))|
    ensures k < |head| ==> CutRecovery(s, ids, k) == Exec(s, head[..k])
    ensures k >= |head| ==>
      k - |head| <= |RecoveryPlan(Todo(s1, ids))| && CutRecovery(s, ids, k) == CutRecovery(s1, ids, k - |head|)
  {
    var rest := RecoveryPlan(Todo(s1, ids));
    PlanUnfold(Todo(s, ids), head, rest);
    CutOf(s, ids, head + rest, k);
    ExecPrefixConcat(s, head, rest, k);
    if k >= |head| {
      CutOf(s1, ids, rest, k - |head|);
    }
  }

  lemma CutNothing(s: Store, ids: seq<GoalId>, k: nat)
    requires Todo(s, ids) == [] && k <= |RecoveryPlan(Todo(s, ids))|
    ensures CutRecovery(s, ids, k) == s
  {
    assert RecoveryPlan(Todo(s, ids))[..k] == [];
  }

  /** A recovery cut after any effect, then run again to its end, leaves the store of an uninterrupted recovery. */
  lemma {:induction false} InterruptedRecovery(s: Store, ids: seq<GoalId>, k: nat)
    requires NoDuplicates(ids) && DistinctTimes(s, ids) && LogsKept(s, ids)
    requires k <= |RecoveryPlan(Todo(s, ids))|
    ensures var s' := CutRecovery(s, ids, k);
      DistinctTimes(s', ids) && LogsKept(s', ids) && Recover(s', ids) == Recover(s, ids)
    decreases |Todo(s, ids)|
  {
    if Todo(s, ids) == [] {
      CutNothing(s, ids, k);
    } else {
      var head := RedoPlan(Todo(s, ids)[0]);
      assert Todo(s, ids)[0] in Todo(s, ids);
      RecoverUnfold(s, ids);
      CutAtHead(s, ids, k, head, Exec(s, head));
      if k < |head| {
        CutInFirstRedo(s, ids, k);
      } else {
        InterruptedRecovery(Exec(s, head), ids, k - |head|);
      }
    }
  }

  ghost predicate IsCut(s: Store, t: Store, ids: seq<GoalId>) {
    exists k :: 0 <= k <= |RecoveryPlan(Todo(s, ids))| && t == CutRecovery(s, ids, k)
  }

  /** Recoveries cut one after the other; each reads the logs afresh. */
  ghost predicate AreCuts(stores: seq<Store>, ids: seq<GoalId>) {
    stores != [] && forall i :: 0 <= i < |stores| - 1 ==> IsCut(stores[i], stores[i + 1], ids)
  }

  /** However often recovery is cut, the run that completes gives the same store and leaves no pending intent. */
  lemma {:induction false} RecoveryConverges(stores: seq<Store>, ids: seq<GoalId>)
    requires AreCuts(stores, ids) && NoDuplicates(ids) && DistinctTimes(stores[0], ids) && LogsKept(stores[0], ids)
    ensures Recover(stores[|stores| - 1], ids) == Recover(stores[0], ids)
    ensures Todo(Recover(stores[0], ids), ids) == []
    decreases |stores|
  {
    RecoveryLeavesNothingPending(stores[0], ids);
    if |stores| > 1 {
      assert IsCut(stores[0], stores[0 + 1], ids);
      var k :| 0 <= k <= |RecoveryPlan(Todo(stores[0], ids))| && stores[1] == CutRecovery(stores[0], ids, k);
      InterruptedRecovery(stores[0], ids, k);
      assert AreCuts(stores[1..], ids) by {
        forall i | 0 <= i < |stores| - 2 ensures IsCut(stores[1..][i], stores[1..][i + 1], ids) {
          assert IsCut(stores[i + 1], stores[i + 1 + 1], ids);
        }
      }
      RecoveryConverges(stores[1..], ids);
    }
  }

  /** Compaction, cut anywhere, changes nothing of what a later recovery does to the files. */
  lemma CompactionPreservesRecovery(s: Store, g: GoalId, ids: seq<GoalId>, k: nat)
    requires k <= |CompactionPlan(g, Wal(s, g))|
    ensures var s' := Exec(s, CompactionPlan(g, Wal(s, g))[..k]);
      Todo(s', ids) == Todo(s, ids) && Recover(s', ids).files == Recover(s, ids).files
  {
    CompactionPreservesPending(s, g, k);
    var s' := Exec(s, CompactionPlan(g, Wal(s, g))[..k]);
    TodoSamePending(s, s', ids);
    FilesIgnoreLogs(s, s', RecoveryPlan(Todo(s, ids)));
  }

  lemma {:induction false} TodoSamePending(s: Store, t: Store, ids: seq<GoalId>)
    requires forall h :: Pending(Wal(s, h)) == Pending(Wal(t, h)) && (Intact(Wal(s, h)) <==> Intact(Wal(t, h)))
    ensures Todo(s, ids) == Todo(t, ids)
  {
    if ids != [] {
      var g := ids[0];
      assert Pending(Wal(s, g)) == Pending(Wal(t, g));
      TodoSamePending(s, t, ids[1..]);
    }
  }

  lemma {:induction false} FilesIgnoreLogs(s: Store, t: Store, plan: seq<Effect>)
    requires s.files == t.files
    ensures Exec(s, plan).files == Exec(t, plan).files
    decreases |plan|
  {
    if plan != [] {
      FilesIgnoreLogs(Apply(s, plan[0]), Apply(t, plan[0]), plan[1..]);
    }
  }
}

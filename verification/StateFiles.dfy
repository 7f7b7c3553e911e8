/** The files of a goal, and what a logged write and its replay put where. */
module StateFiles {
  import opened Prelude

  type GoalId = string

  datatype Goal = Goal(id: GoalId, children: seq<GoalId>, archived: bool, pace: int, details: int)

  datatype Observation = Observation(goalId: GoalId, value: int)

  datatype ObservationLog = ObservationLog(goalId: GoalId, entries: seq<Observation>)

  /**
   * LogFile is wal.jsonl, LogTemporary the file that compaction renames to it, LockDirectory the lock held during a
   * write.
   */
  datatype FileName =
    | GoalJson
    | ObservationsJson
    | GapHistoryJson
    | ArchivedGoalJson
    | ArchiveMarker
    | LogFile
    | LogTemporary
    | LockDirectory
    | OtherFile(name: string)

  /** The file goals/<goal>/<file>, or one of the two in archive/<goal> that a goal is loaded from. */
  datatype Path = Path(goal: GoalId, file: FileName)

  /** Parsed JSON; RawDoc is any document that none of the schemas accepts. */
  datatype Content =
    | GoalDoc(goal: Goal)
    | ObservationDoc(log: ObservationLog)
    | GapDoc(entries: seq<int>)
    | RawDoc(json: int)

  type Files = map<Path, Content>

  const MAX_HISTORY_ENTRIES: nat := 500

  /** The name of one directory, as listing goals/ gives it. */
  predicate PlainName(g: GoalId) {
    g != "" && g != "." && g != ".." && '/' !in g
  }

  /** The op and data fields of a logged intent. */
  datatype Op =
    | SaveGoal(goal: Goal)
    | SaveObservation(log: ObservationLog)
    | AppendObservation(log: ObservationLog)
    | ObservationAndGoal(log: ObservationLog, goal: Goal)
    | SaveGapHistory(goalId: GoalId, entries: seq<int>)
    | AppendGapEntry(goalId: GoalId, entries: seq<int>)
    | SavePaceSnapshot(goal: Goal)
    | WriteRaw(path: Path, payload: Content)

  /** One atomic file replacement. */
  datatype Put = Put(path: Path, content: Content)

  function PutAll(files: Files, puts: seq<Put>): Files
    decreases |puts|
  {
    if puts == [] then files else PutAll(files[puts[0].path := puts[0].content], puts[1..])
  }

  function PathsOf(puts: seq<Put>): set<Path> {
    set i | 0 <= i < |puts| :: puts[i].path
  }

  /** What the write function of a protected write on goal g does; the directory is that of g. */
  function WritePuts(g: GoalId, op: Op): seq<Put> {
    match op
    case SaveGoal(goal) => [Put(Path(g, GoalJson), GoalDoc(goal))]
    case SaveObservation(log) => [Put(Path(g, ObservationsJson), ObservationDoc(log))]
    case AppendObservation(log) => [Put(Path(g, ObservationsJson), ObservationDoc(log))]
    case ObservationAndGoal(log, goal) =>
      [Put(Path(g, ObservationsJson), ObservationDoc(log)), Put(Path(g, GoalJson), GoalDoc(goal))]
    case SaveGapHistory(_, entries) => [Put(Path(g, GapHistoryJson), GapDoc(entries))]
    case AppendGapEntry(_, entries) => [Put(Path(g, GapHistoryJson), GapDoc(entries))]
    case SavePaceSnapshot(goal) => [Put(Path(g, GoalJson), GoalDoc(goal))]
    case WriteRaw(path, payload) => [Put(path, payload)]
  }

  /**
   * What replaying the same intent does; the directory is that of the id inside the data, and an empty id is skipped.
   */
  function ReplayPuts(op: Op): seq<Put> {
    match op
    case SaveGoal(goal) =>
      if goal.id == "" then [] else [Put(Path(goal.id, GoalJson), GoalDoc(goal))]
    case SaveObservation(log) =>
      if log.goalId == "" then [] else [Put(Path(log.goalId, ObservationsJson), ObservationDoc(log))]
    case AppendObservation(log) =>
      if log.goalId == "" then [] else [Put(Path(log.goalId, ObservationsJson), ObservationDoc(log))]
    case ObservationAndGoal(log, goal) =>
      if goal.id == "" then [] else
      [Put(Path(goal.id, ObservationsJson), ObservationDoc(log)), Put(Path(goal.id, GoalJson), GoalDoc(goal))]
    case SaveGapHistory(goalId, entries) =>
      if goalId == "" then [] else [Put(Path(goalId, GapHistoryJson), GapDoc(entries))]
    case AppendGapEntry(goalId, entries) =>
      if goalId == "" then [] else [Put(Path(goalId, GapHistoryJson), GapDoc(entries))]
    case SavePaceSnapshot(goal) =>
      if goal.id == "" then [] else [Put(Path(goal.id, GoalJson), GoalDoc(goal))]
    case WriteRaw(path, payload) => [Put(path, payload)]
  }

  /** The id that a replay reads out of the data. */
  function EmbeddedId(op: Op): Option<GoalId> {
    match op
    case SaveGoal(goal) => Some(goal.id)
    case SaveObservation(log) => Some(log.goalId)
    case AppendObservation(log) => Some(log.goalId)
    case ObservationAndGoal(_, goal) => Some(goal.id)
    case SaveGapHistory(goalId, _) => Some(goalId)
    case AppendGapEntry(goalId, _) => Some(goalId)
    case SavePaceSnapshot(goal) => Some(goal.id)
    case WriteRaw(_, _) => None
  }

  predicate NamesGoal(g: GoalId, op: Op) {
    EmbeddedId(op).Some? ==> EmbeddedId(op).value == g != ""
  }

  /** A replay writes what the original write wrote exactly when the data names the goal in whose log it stands. */
  lemma ReplayMatchesWrite(g: GoalId, op: Op)
    ensures ReplayPuts(op) == WritePuts(g, op) <==> NamesGoal(g, op)
  {
    if !NamesGoal(g, op) && ReplayPuts(op) != [] {
      assert ReplayPuts(op)[0].path.goal != WritePuts(g, op)[0].path.goal;
    }
  }

  // ----- Requests: how the public operations build the data of an intent from the current files -----

  datatype Request =
    | ReqSaveGoal(goal: Goal)
    | ReqSaveObservationLog(log: ObservationLog)
    | ReqAppendObservation(entry: Observation)
    | ReqObservationAndGoal(entry: Observation, update: Goal -> Goal)
    | ReqSaveGapHistory(entries: seq<int>)
    | ReqAppendGapEntry(gap: int)
    | ReqSavePaceSnapshot(read: Goal, snapshot: int)
    | ReqWriteRaw(path: Path, payload: Content)

  function Capped<T>(entries: seq<T>): seq<T> {
    if |entries| <= MAX_HISTORY_ENTRIES then entries else entries[|entries| - MAX_HISTORY_ENTRIES..]
  }

  /** None when the stored document is there but does not parse. */
  function LoadObservations(files: Files, g: GoalId): Option<ObservationLog> {
    var p := Path(g, ObservationsJson);
    if p !in files then Some(ObservationLog(g, []))
    else if files[p].ObservationDoc? then Some(files[p].log) else None
  }

  function LoadGaps(files: Files, g: GoalId): Option<seq<int>> {
    var p := Path(g, GapHistoryJson);
    if p !in files then Some([]) else if files[p].GapDoc? then Some(files[p].entries) else None
  }

  function ParsedGoal(content: Content): Option<Goal> {
    if content.GoalDoc? then Some(content.goal) else None
  }

  /**
   * A complete archive wins, then the live goal, then any archived copy; None when there is none or it does not parse.
   */
  function GoalToUpdate(files: Files, g: GoalId): Option<Goal> {
    if Path(g, ArchiveMarker) in files && Path(g, ArchivedGoalJson) in files then
      ParsedGoal(files[Path(g, ArchivedGoalJson)])
    else if Path(g, GoalJson) in files then ParsedGoal(files[Path(g, GoalJson)])
    else if Path(g, ArchivedGoalJson) in files then ParsedGoal(files[Path(g, ArchivedGoalJson)])
    else None
  }

  /**
   * The operation that is logged; None when the request throws before its intent is appended. Saving a goal or an
   * observation log locks the id inside the data, so there is no such request on another goal.
   */
  function BuildOp(files: Files, g: GoalId, req: Request): Option<Op> {
    match req
    case ReqSaveGoal(goal) => if goal.id != g then None else Some(SaveGoal(goal))
    case ReqSaveObservationLog(log) => if log.goalId != g then None else Some(SaveObservation(log))
    case ReqAppendObservation(entry) =>
      var log := LoadObservations(files, g);
      if entry.goalId != g || log.None? then None
      else Some(AppendObservation(log.value.(entries := Capped(log.value.entries + [entry]))))
    case ReqObservationAndGoal(entry, update) =>
      var log := LoadObservations(files, g);
      var goal := GoalToUpdate(files, g);
      if entry.goalId != g || goal.None? || log.None? || update(goal.value).id != g then None
      else Some(ObservationAndGoal(log.value.(entries := Capped(log.value.entries + [entry])), update(goal.value)))
    case ReqSaveGapHistory(entries) => Some(SaveGapHistory(g, entries))
    case ReqAppendGapEntry(gap) =>
      var gaps := LoadGaps(files, g);
      if gaps.None? then None else Some(AppendGapEntry(g, Capped(gaps.value + [gap])))
    case ReqSavePaceSnapshot(read, snapshot) => Some(SavePaceSnapshot(read.(pace := snapshot)))
    case ReqWriteRaw(path, payload) => Some(WriteRaw(path, payload))
  }

  /** An ordinary file of a goal, holding no goal or observation log that names another goal. */
  predicate Kept(path: Path, content: Content) {
    match path.file
    case GoalJson => content.GoalDoc? ==> content.goal.id == path.goal
    case ArchivedGoalJson => content.GoalDoc? ==> content.goal.id == path.goal
    case ObservationsJson => content.ObservationDoc? ==> content.log.goalId == path.goal
    case LogFile => false
    case LogTemporary => false
    case LockDirectory => false
    case _ => true
  }

  ghost predicate WellNamed(files: Files) {
    forall p :: p in files ==> Kept(p, files[p])
  }

  /** There are well named files on which the request gets as far as its intent. */
  ghost predicate Acceptable(g: GoalId, req: Request) {
    match req
    case ReqSaveGoal(goal) => goal.id == g
    case ReqSaveObservationLog(log) => log.goalId == g
    case ReqAppendObservation(entry) => entry.goalId == g
    case ReqObservationAndGoal(entry, update) =>
      entry.goalId == g && exists goal: Goal :: goal.id == g && update(goal).id == g
    case _ => true
  }

  /**
   * The goal's id names one directory. A raw write stays in it, which its path may leave, keeps off the log, its
   * temporary and the lock, and plants no goal or observation log that names another goal.
   */
  predicate Admissible(g: GoalId, req: Request) {
    PlainName(g) && (req.ReqWriteRaw? ==> req.path.goal == g && Kept(req.path, req.payload))
  }

  /** What a request does when nothing fails. */
  function Perform(files: Files, g: GoalId, req: Request): Files {
    var op := BuildOp(files, g, req);
    if op.None? then files else PutAll(files, WritePuts(g, op.value))
  }

  // ----- What a request stores, said of the files -----

  /** The former entries and then the new one, of all these the last five hundred. */
  ghost predicate Appended<T>(former: seq<T>, entry: T, now: seq<T>) {
    && |now| == (if |former| < 500 then |former| + 1 else 500)
    && now[|now| - 1] == entry
    && forall i :: 0 <= i < |now| - 1 ==> now[i] == former[|former| - (|now| - 1) + i]
  }

  ghost predicate FormerObservations(files: Files, g: GoalId, log: ObservationLog) {
    if Path(g, ObservationsJson) in files then files[Path(g, ObservationsJson)] == ObservationDoc(log)
    else log == ObservationLog(g, [])
  }

  ghost predicate FormerGaps(files: Files, g: GoalId, entries: seq<int>) {
    if Path(g, GapHistoryJson) in files then files[Path(g, GapHistoryJson)] == GapDoc(entries) else entries == []
  }

  /** The goal loads from the archived copy if its archive is marked, else from the live one, else from any copy. */
  ghost predicate FormerGoal(files: Files, g: GoalId, goal: Goal) {
    var live, copy := Path(g, GoalJson), Path(g, ArchivedGoalJson);
    || (Path(g, ArchiveMarker) in files && copy in files && files[copy] == GoalDoc(goal))
    || (!(Path(g, ArchiveMarker) in files && copy in files) && live in files && files[live] == GoalDoc(goal))
    || (live !in files && copy in files && files[copy] == GoalDoc(goal))
  }

  ghost predicate WithEntry(files: Files, g: GoalId, entry: Observation, now: ObservationLog) {
    exists log :: FormerObservations(files, g, log) && now.goalId == log.goalId &&
      Appended(log.entries, entry, now.entries)
  }

  ghost predicate WithGap(files: Files, g: GoalId, gap: int, now: seq<int>) {
    exists entries :: FormerGaps(files, g, entries) && Appended(entries, gap, now)
  }

  ghost predicate UpdatedGoal(files: Files, g: GoalId, update: Goal -> Goal, now: Goal) {
    exists goal :: FormerGoal(files, g, goal) && update(goal) == now && now.id == g
  }

  /** The files after a request: exactly these writes, or no change when it cannot be carried out. */
  ghost predicate Stores(files: Files, g: GoalId, req: Request, after: Files) {
    match req
    case ReqSaveGoal(goal) => after == if goal.id == g then files[Path(g, GoalJson) := GoalDoc(goal)] else files
    case ReqSaveObservationLog(log) =>
      after == if log.goalId == g then files[Path(g, ObservationsJson) := ObservationDoc(log)] else files
    case ReqAppendObservation(entry) =>
      if entry.goalId == g && exists now :: WithEntry(files, g, entry, now) then
        exists now :: WithEntry(files, g, entry, now) &&
          after == files[Path(g, ObservationsJson) := ObservationDoc(now)]
      else after == files
    case ReqObservationAndGoal(entry, update) =>
      if entry.goalId == g && (exists now :: WithEntry(files, g, entry, now)) &&
        exists goal :: UpdatedGoal(files, g, update, goal)
      then
        exists now, goal :: WithEntry(files, g, entry, now) && UpdatedGoal(files, g, update, goal) &&
          after == files[Path(g, ObservationsJson) := ObservationDoc(now)][Path(g, GoalJson) := GoalDoc(goal)]
      else after == files
    case ReqSaveGapHistory(entries) => after == files[Path(g, GapHistoryJson) := GapDoc(entries)]
    case ReqAppendGapEntry(gap) =>
      if exists now :: WithGap(files, g, gap, now) then
        exists now :: WithGap(files, g, gap, now) && after == files[Path(g, GapHistoryJson) := GapDoc(now)]
      else after == files
    case ReqSavePaceSnapshot(read, pace) =>
      after == files[Path(g, GoalJson) := GoalDoc(Goal(read.id, read.children, read.archived, pace, read.details))]
    case ReqWriteRaw(path, payload) => after == files[path := payload]
  }

  lemma AppendedOne<T>(former: seq<T>, entry: T, a: seq<T>, b: seq<T>)
    requires Appended(former, entry, a) && Appended(former, entry, b)
    ensures a == b
  {
    forall i | 0 <= i < |a| ensures a[i] == b[i] {
    }
  }

  lemma CappedIsAppended<T>(former: seq<T>, entry: T)
    ensures Appended(former, entry, Capped(former + [entry]))
  {
  }

  lemma EntryAdded(files: Files, g: GoalId, entry: Observation)
    ensures match LoadObservations(files, g)
      case Some(log) => WithEntry(files, g, entry, log.(entries := Capped(log.entries + [entry])))
      case None => forall now :: !WithEntry(files, g, entry, now)
  {
    if LoadObservations(files, g).Some? {
      var log := LoadObservations(files, g).value;
      CappedIsAppended(log.entries, entry);
      assert FormerObservations(files, g, log);
    }
  }

  lemma GapAdded(files: Files, g: GoalId, gap: int)
    ensures match LoadGaps(files, g)
      case Some(entries) => WithGap(files, g, gap, Capped(entries + [gap]))
      case None => forall now :: !WithGap(files, g, gap, now)
  {
    if LoadGaps(files, g).Some? {
      var entries := LoadGaps(files, g).value;
      CappedIsAppended(entries, gap);
      assert FormerGaps(files, g, entries);
    }
  }

  lemma GoalLoads(files: Files, g: GoalId, goal: Goal)
    ensures FormerGoal(files, g, goal) <==> GoalToUpdate(files, g) == Some(goal)
  {
  }

  lemma GoalUpdated(files: Files, g: GoalId, update: Goal -> Goal)
    ensures match GoalToUpdate(files, g)
      case Some(goal) =>
        if update(goal).id == g then UpdatedGoal(files, g, update, update(goal))
        else forall now :: !UpdatedGoal(files, g, update, now)
      case None => forall now :: !UpdatedGoal(files, g, update, now)
  {
    forall goal ensures FormerGoal(files, g, goal) <==> GoalToUpdate(files, g) == Some(goal) {
      GoalLoads(files, g, goal);
    }
  }

  /** A request that is carried out stores what it should and nothing else; one that cannot be changes nothing. */
  lemma PerformStores(files: Files, g: GoalId, req: Request)
    ensures Stores(files, g, req, Perform(files, g, req))
  {
    var op := BuildOp(files, g, req);
    if op.Some? {
      PutAllUnfold(files, WritePuts(g, op.value));
    }
    match req
    case ReqAppendObservation(entry) => EntryAdded(files, g, entry);
    case ReqObservationAndGoal(entry, update) =>
      EntryAdded(files, g, entry);
      GoalUpdated(files, g, update);
    case ReqAppendGapEntry(gap) => GapAdded(files, g, gap);
    case _ =>
  }

  lemma WithEntryOne(files: Files, g: GoalId, entry: Observation, a: ObservationLog, b: ObservationLog)
    requires WithEntry(files, g, entry, a) && WithEntry(files, g, entry, b)
    ensures a == b
  {
    var log :| FormerObservations(files, g, log) && a.goalId == log.goalId &&
      Appended(log.entries, entry, a.entries);
    AppendedOne(log.entries, entry, a.entries, b.entries);
  }

  lemma WithGapOne(files: Files, g: GoalId, gap: int, a: seq<int>, b: seq<int>)
    requires WithGap(files, g, gap, a) && WithGap(files, g, gap, b)
    ensures a == b
  {
    var entries :| FormerGaps(files, g, entries) && Appended(entries, gap, a);
    AppendedOne(entries, gap, a, b);
  }

  lemma UpdatedGoalOne(files: Files, g: GoalId, update: Goal -> Goal, a: Goal, b: Goal)
    requires UpdatedGoal(files, g, update, a) && UpdatedGoal(files, g, update, b)
    ensures a == b
  {
  }

  lemma BothStoredOnce(files: Files, g: GoalId, entry: Observation, update: Goal -> Goal, a: Files, b: Files)
    requires Stores(files, g, ReqObservationAndGoal(entry, update), a)
    requires Stores(files, g, ReqObservationAndGoal(entry, update), b)
    ensures a == b
  {
    if entry.goalId == g && (exists now :: WithEntry(files, g, entry, now)) &&
      exists goal :: UpdatedGoal(files, g, update, goal)
    {
      var x, p :| WithEntry(files, g, entry, x) && UpdatedGoal(files, g, update, p) &&
        a == files[Path(g, ObservationsJson) := ObservationDoc(x)][Path(g, GoalJson) := GoalDoc(p)];
      var y, q :| WithEntry(files, g, entry, y) && UpdatedGoal(files, g, update, q) &&
        b == files[Path(g, ObservationsJson) := ObservationDoc(y)][Path(g, GoalJson) := GoalDoc(q)];
      WithEntryOne(files, g, entry, x, y);
      UpdatedGoalOne(files, g, update, p, q);
    }
  }

  /** And that determines the files afterwards. */
  lemma StoresOne(files: Files, g: GoalId, req: Request, a: Files, b: Files)
    requires Stores(files, g, req, a) && Stores(files, g, req, b)
    ensures a == b
  {
    match req
    case ReqAppendObservation(entry) =>
      forall x, y | WithEntry(files, g, entry, x) && WithEntry(files, g, entry, y) ensures x == y {
        WithEntryOne(files, g, entry, x, y);
      }
    case ReqObservationAndGoal(entry, update) => BothStoredOnce(files, g, entry, update, a, b);
    case ReqAppendGapEntry(gap) =>
      forall x, y | WithGap(files, g, gap, x) && WithGap(files, g, gap, y) ensures x == y {
        WithGapOne(files, g, gap, x, y);
      }
    case _ =>
  }

  ghost predicate ReadNames(g: GoalId, req: Request) {
    req.ReqSavePaceSnapshot? ==> req.read.id == g
  }

  lemma LoadedGoalNamed(files: Files, g: GoalId)
    requires WellNamed(files) && GoalToUpdate(files, g).Some?
    ensures GoalToUpdate(files, g).value.id == g
  {
  }

  lemma AcceptableIffSomeFiles(g: GoalId, req: Request)
    ensures Acceptable(g, req) <==> exists files :: WellNamed(files) && BuildOp(files, g, req).Some?
  {
    if Acceptable(g, req) {
      var files := AcceptingFiles(g, req);
    }
    forall files | WellNamed(files) && BuildOp(files, g, req).Some? ensures Acceptable(g, req) {
      if req.ReqObservationAndGoal? {
        LoadedGoalNamed(files, g);
        assert req.update(GoalToUpdate(files, g).value).id == g;
      }
    }
  }

  /** Files on which an acceptable request is logged, and on which it changes something. */
  lemma AcceptingFiles(g: GoalId, req: Request) returns (files: Files)
    requires Acceptable(g, req)
    ensures WellNamed(files) && BuildOp(files, g, req).Some?
    ensures req.ReqSavePaceSnapshot? && req.read.id == g && req.read.pace != req.snapshot ==>
      GoalToUpdate(files, g) == Some(req.read)
    ensures (req.ReqSavePaceSnapshot? ==> req.read.id == g && req.read.pace != req.snapshot) ==>
      Perform(files, g, req) != files
  {
    files := map[];
    if req.ReqObservationAndGoal? {
      var goal: Goal :| goal.id == g && req.update(goal).id == g;
      files := map[Path(g, GoalJson) := GoalDoc(goal)];
    } else if req.ReqSavePaceSnapshot? && req.read.id == g {
      files := map[Path(g, GoalJson) := GoalDoc(req.read)];
    }
    var puts := WritePuts(g, BuildOp(files, g, req).value);
    PutAllUnfold(files, puts);
    assert puts[0].path in Perform(files, g, req);
    if req.ReqSavePaceSnapshot? && req.read.id == g && req.read.pace != req.snapshot {
      assert Perform(files, g, req)[puts[0].path] != files[puts[0].path];
    }
  }

  lemma BuiltOpNamesGoal(files: Files, g: GoalId, req: Request)
    requires WellNamed(files) && Admissible(g, req) && ReadNames(g, req)
    requires BuildOp(files, g, req).Some?
    ensures var op := BuildOp(files, g, req).value;
      NamesGoal(g, op) && forall put :: put in WritePuts(g, op) ==> put.path.goal == g && Kept(put.path, put.content)
  {
  }

  lemma PerformKeepsWellNamed(files: Files, g: GoalId, req: Request)
    requires WellNamed(files) && Admissible(g, req) && ReadNames(g, req)
    ensures WellNamed(Perform(files, g, req))
  {
    var op := BuildOp(files, g, req);
    if op.Some? {
      BuiltOpNamesGoal(files, g, req);
      var puts := WritePuts(g, op.value);
      assert puts[0] in puts && (|puts| == 2 ==> puts[1] in puts);
      PutAllUnfold(files, puts);
    }
  }

  lemma PutAllUnfold(files: Files, puts: seq<Put>)
    requires 1 <= |puts| <= 2
    ensures |puts| == 1 ==> PutAll(files, puts) == files[puts[0].path := puts[0].content]
    ensures |puts| == 2 ==>
      PutAll(files, puts) == files[puts[0].path := puts[0].content][puts[1].path := puts[1].content]
  {
    var first := files[puts[0].path := puts[0].content];
    if |puts| == 2 {
      assert PutAll(files, puts) == PutAll(first, puts[1..]);
      assert puts[1..][1..] == [];
      assert PutAll(first, puts[1..]) == first[puts[1].path := puts[1].content];
    }
  }

  // ----- Redoing puts -----

  ghost predicate AgreeExcept(a: Files, b: Files, d: set<Path>) {
    forall p :: p !in d ==> (p in a <==> p in b) && (p in a ==> a[p] == b[p])
  }

  lemma PathsOfCons(puts: seq<Put>)
    requires puts != []
    ensures PathsOf(puts) == {puts[0].path} + PathsOf(puts[1..])
  {
    forall p | p in PathsOf(puts) ensures p in {puts[0].path} + PathsOf(puts[1..]) {
      var i :| 0 <= i < |puts| && puts[i].path == p;
      assert i > 0 ==> puts[1..][i - 1].path == p;
    }
    forall p | p in PathsOf(puts[1..]) ensures p in PathsOf(puts) {
      var i :| 0 <= i < |puts[1..]| && puts[1..][i].path == p;
      assert puts[i + 1].path == p;
    }
  }

  /** Two file sets that differ only where the puts write are equal once the puts are done. */
  lemma {:induction false} PutAllOverwrites(a: Files, b: Files, d: set<Path>, puts: seq<Put>)
    requires AgreeExcept(a, b, d)
    ensures AgreeExcept(PutAll(a, puts), PutAll(b, puts), d - PathsOf(puts))
    decreases |puts|
  {
    if puts == [] {
      assert PathsOf(puts) == {};
    } else {
      var q := puts[0];
      PutAllOverwrites(a[q.path := q.content], b[q.path := q.content], d - {q.path}, puts[1..]);
      PathsOfCons(puts);
      assert d - {q.path} - PathsOf(puts[1..]) == d - PathsOf(puts);
    }
  }

  lemma PutAllChangesOnly(files: Files, puts: seq<Put>)
    ensures AgreeExcept(files, PutAll(files, puts), PathsOf(puts))
    decreases |puts|
  {
    if puts != [] {
      var q := puts[0];
      PutAllChangesOnly(files[q.path := q.content], puts[1..]);
      PathsOfCons(puts);
    }
  }

  /** Redo: whatever part of the puts is already on disk, doing all of them gives the same files. */
  lemma RedoPuts(files: Files, puts: seq<Put>, done: seq<Put>)
    requires PathsOf(done) <= PathsOf(puts)
    ensures PutAll(PutAll(files, done), puts) == PutAll(files, puts)
  {
    PutAllChangesOnly(files, done);
    PutAllOverwrites(files, PutAll(files, done), PathsOf(done), puts);
    assert PathsOf(done) - PathsOf(puts) == {};
    assert PutAll(PutAll(files, done), puts).Keys == PutAll(files, puts).Keys;
  }
}

/** The staged archive of one goal, as disk steps that a crash may cut. */
module GoalArchive {
  import opened Prelude
  import opened StateFiles

  /** A JSON document in a goal's directories; CorruptDoc does not parse at all. */
  datatype Doc = GoalObject(goal: Goal) | TaskObject(task: int) | OtherObject(n: int) | CorruptDoc

  type Dir = map<string, Doc>

  /** goals/<id>, tasks/<id>, strategies/<id>, stalls/<id>.json and reports/<id>, or their copies in an archive. */
  datatype Parts = Parts(
    goal: Option<Dir>, tasks: Option<Dir>, strategies: Option<Dir>, stalls: Option<Doc>, reports: Option<Dir>)

  const NO_PARTS := Parts(None, None, None, None, None)

  datatype Bundle = Bundle(parts: Parts, complete: bool)

  /** Everything on disk that belongs to one goal id. */
  datatype Slot = Slot(live: Parts, staging: Option<Bundle>, archive: Option<Bundle>)

  type Slots = map<GoalId, Slot>

  datatype Part = GoalPart | TasksPart | StrategiesPart | StallsPart | ReportsPart

  datatype Step =
    | RemoveStaging
    | RemoveArchive
    | CopyGoalDir
    | MarkArchived
    | CopyPart(part: Part, toStaging: bool)
    | WriteMarker(toStaging: bool)
    | CommitStaging
    | RemoveLive(part: Part)

  function Merged<T>(into: Option<map<string, T>>, from: Option<map<string, T>>): Option<map<string, T>> {
    if from.None? then into else if into.None? then from else Some(into.value + from.value)
  }

  /** A recursive copy merges into what is there; a missing source copies nothing. */
  function CopyInto(target: Parts, live: Parts, part: Part): Parts {
    match part
    case GoalPart => target.(goal := Merged(target.goal, live.goal))
    case TasksPart => target.(tasks := Merged(target.tasks, live.tasks))
    case StrategiesPart => target.(strategies := Merged(target.strategies, live.strategies))
    case StallsPart => target.(stalls := if live.stalls.Some? then live.stalls else target.stalls)
    case ReportsPart => target.(reports := Merged(target.reports, live.reports))
  }

  function Without(parts: Parts, part: Part): Parts {
    match part
    case GoalPart => parts.(goal := None)
    case TasksPart => parts.(tasks := None)
    case StrategiesPart => parts.(strategies := None)
    case StallsPart => parts.(stalls := None)
    case ReportsPart => parts.(reports := None)
  }

  function ArchivedDoc(doc: Doc): Doc {
    if doc.GoalObject? then GoalObject(doc.goal.(archived := true)) else doc
  }

  function ArchivedDir(dir: Dir): Dir {
    if "goal.json" in dir then dir["goal.json" := ArchivedDoc(dir["goal.json"])] else dir
  }

  function WithoutLock(dir: Dir): Dir {
    dir - {".lock"}
  }

  function OrEmpty(b: Option<Bundle>): Bundle {
    if b.Some? then b.value else Bundle(NO_PARTS, false)
  }

  function Apply(s: Slot, step: Step): Slot {
    match step
    case RemoveStaging => s.(staging := None)
    case RemoveArchive => s.(archive := None)
    case CopyGoalDir =>
      var b := OrEmpty(s.staging);
      var copy := if s.live.goal.Some? then Some(WithoutLock(s.live.goal.value)) else None;
      s.(staging := Some(b.(parts := b.parts.(goal := Merged(b.parts.goal, copy)))))
    case MarkArchived =>
      var b := OrEmpty(s.staging);
      var marked := if b.parts.goal.Some? then Some(ArchivedDir(b.parts.goal.value)) else None;
      s.(staging := Some(b.(parts := b.parts.(goal := marked))))
    case CopyPart(part, toStaging) =>
      var b := OrEmpty(if toStaging then s.staging else s.archive);
      var b' := Some(b.(parts := CopyInto(b.parts, s.live, part)));
      if toStaging then s.(staging := b') else s.(archive := b')
    case WriteMarker(toStaging) =>
      var b' := Some(OrEmpty(if toStaging then s.staging else s.archive).(complete := true));
      if toStaging then s.(staging := b') else s.(archive := b')
    case CommitStaging => if s.staging.Some? then s.(staging := None, archive := s.staging) else s
    case RemoveLive(part) => s.(live := Without(s.live, part))
  }

  function Exec(s: Slot, steps: seq<Step>): Slot
    decreases |steps|
  {
    if steps == [] then s else Exec(Apply(s, steps[0]), steps[1..])
  }

  predicate Complete(s: Slot) {
    s.archive.Some? && s.archive.value.complete
  }

  function JsonOf(dir: Option<Dir>): Option<Doc> {
    if dir.Some? && "goal.json" in dir.value then Some(dir.value["goal.json"]) else None
  }

  function ArchiveJson(s: Slot): Option<Doc> {
    if s.archive.Some? then JsonOf(s.archive.value.parts.goal) else None
  }

  const CLEANUP: seq<Step> :=
    [RemoveLive(GoalPart), RemoveLive(TasksPart), RemoveLive(StrategiesPart), RemoveLive(StallsPart),
      RemoveLive(ReportsPart)]

  function Remnants(toStaging: bool): seq<Step> {
    [CopyPart(TasksPart, toStaging), CopyPart(StrategiesPart, toStaging),
     CopyPart(StallsPart, toStaging), CopyPart(ReportsPart, toStaging)]
  }

  predicate Located(s: Slot) {
    Complete(s) || s.live.goal.Some? || ArchiveJson(s).Some?
  }

  /** The disk steps of archiving the goal from the state it is found in, once its children have been visited. */
  function Plan(s: Slot): seq<Step> {
    if Complete(s) then [RemoveStaging] + CLEANUP
    else if s.live.goal.None? then
      if ArchiveJson(s).Some? then [RemoveStaging] + Remnants(false) + [WriteMarker(false)] + CLEANUP
      else [RemoveStaging]
    else
      [RemoveStaging] + (if s.archive.Some? then [RemoveArchive] else []) +
      [CopyGoalDir, MarkArchived] + Remnants(true) + [WriteMarker(true), CommitStaging] + CLEANUP
  }

  function Archived(s: Slot): Slot {
    Exec(s, Plan(s))
  }

  /** Archiving cut after k steps. */
  function Cut(s: Slot, k: nat): Slot {
    Exec(s, if k < |Plan(s)| then Plan(s)[..k] else Plan(s))
  }

  // ----- Reading a goal and its tasks -----

  datatype Loaded = Found(goal: Goal) | Missing | Unparsable

  function Parse(doc: Doc): Loaded {
    if doc.GoalObject? then Found(doc.goal) else Unparsable
  }

  predicate Readable(doc: Option<Doc>) {
    doc.Some? && !doc.value.CorruptDoc?
  }

  /** A complete archive wins, then the live goal, then any archived copy; a corrupt document counts as missing. */
  function LoadGoal(s: Slot): Loaded {
    if Complete(s) && Readable(ArchiveJson(s)) then Parse(ArchiveJson(s).value)
    else if Readable(JsonOf(s.live.goal)) then Parse(JsonOf(s.live.goal).value)
    else if Readable(ArchiveJson(s)) then Parse(ArchiveJson(s).value)
    else Missing
  }

  /**
   * The children visited before the goal itself is archived: read from the archive or through loadGoal, by location.
   */
  function ChildrenOf(s: Slot): seq<GoalId> {
    var loaded :=
      if !Complete(s) && s.live.goal.Some? then LoadGoal(s)
      else if Readable(ArchiveJson(s)) then Parse(ArchiveJson(s).value)
      else Missing;
    if loaded.Found? then loaded.goal.children else []
  }

  /**
   * Reading the children throws: loadGoal finds a document that is not a goal. Its promise is returned, not awaited, so
   * the surrounding handler never sees the failure; the archived copy is read inside the handler, and such a copy has
   * no children.
   */
  predicate ChildrenUnreadable(s: Slot) {
    !Complete(s) && s.live.goal.Some? && LoadGoal(s) == Unparsable
  }

  predicate IsTaskFile(name: string) {
    && |name| >= 5 && name[|name| - 5..] == ".json"
    && name != "task-history.json" && name != "last-failure-context.json"
  }

  function TasksIn(dir: Option<Dir>): set<int> {
    if dir.None? then {} else set n | n in dir.value && IsTaskFile(n) && dir.value[n].TaskObject? :: dir.value[n].task
  }

  /** Live tasks if there are any, else the archived ones. */
  function ListTasks(s: Slot): set<int> {
    if TasksIn(s.live.tasks) != {} || s.archive.None? then TasksIn(s.live.tasks)
    else TasksIn(s.archive.value.parts.tasks)
  }

  // ----- The same, said of the documents on disk -----

  ghost predicate LiveHolds(s: Slot, doc: Doc) {
    s.live.goal.Some? && "goal.json" in s.live.goal.value && s.live.goal.value["goal.json"] == doc
  }

  ghost predicate ArchiveHolds(s: Slot, doc: Doc) {
    && s.archive.Some? && s.archive.value.parts.goal.Some? && "goal.json" in s.archive.value.parts.goal.value
    && s.archive.value.parts.goal.value["goal.json"] == doc
  }

  ghost predicate Marked(s: Slot) {
    s.archive.Some? && s.archive.value.complete
  }

  /** The document that loading the goal goes by: the first that parses, of a complete archive, live, of any archive. */
  ghost predicate LoadsBy(s: Slot, doc: Doc) {
    && doc != CorruptDoc
    && (|| (Marked(s) && ArchiveHolds(s, doc))
        || (LiveHolds(s, doc) && !(Marked(s) && exists other :: ArchiveHolds(s, other) && other != CorruptDoc))
        || (ArchiveHolds(s, doc) && !exists other :: LiveHolds(s, other) && other != CorruptDoc))
  }

  lemma LoadedIffDocument(s: Slot, goal: Goal)
    ensures LoadGoal(s) == Found(goal) <==> LoadsBy(s, GoalObject(goal))
    ensures LoadGoal(s) == Unparsable <==> exists doc :: LoadsBy(s, doc) && !doc.GoalObject?
    ensures LoadGoal(s) == Missing <==> forall doc :: !LoadsBy(s, doc)
  {
    var archived, live := ArchiveJson(s), JsonOf(s.live.goal);
    assert archived.Some? ==> ArchiveHolds(s, archived.value);
    assert live.Some? ==> LiveHolds(s, live.value);
    if Marked(s) && Readable(archived) {
      assert LoadsBy(s, archived.value);
    } else if Readable(live) {
      assert LoadsBy(s, live.value);
    } else if Readable(archived) {
      assert LoadsBy(s, archived.value);
    }
  }

  /** The directory has a task under a name that ends in .json and is not one of the two others kept there. */
  ghost predicate HasTask(dir: Option<Dir>, task: int) {
    dir.Some? && exists stem: string :: var name := stem + ".json";
      && name in dir.value && dir.value[name] == TaskObject(task)
      && stem != "task-history" && stem != "last-failure-context"
  }

  ghost predicate HasArchivedTask(s: Slot, task: int) {
    s.archive.Some? && HasTask(s.archive.value.parts.tasks, task)
  }

  lemma TaskFileNames(name: string)
    ensures IsTaskFile(name) <==>
      exists stem: string :: name == stem + ".json" && stem != "task-history" && stem != "last-failure-context"
  {
    if |name| >= 5 && name[|name| - 5..] == ".json" {
      var stem := name[..|name| - 5];
      assert name == stem + ".json";
    }
    forall stem: string | name == stem + ".json" ensures name[|name| - 5..] == ".json" && stem == name[..|name| - 5] {
    }
    assert "task-history.json" == "task-history" + ".json";
    assert "last-failure-context.json" == "last-failure-context" + ".json";
  }

  lemma TasksInDirectory(dir: Option<Dir>, task: int)
    ensures task in TasksIn(dir) <==> HasTask(dir, task)
  {
    if dir.Some? {
      forall name: string | name in dir.value
        ensures IsTaskFile(name) <==>
          exists stem: string :: name == stem + ".json" && stem != "task-history" && stem != "last-failure-context"
      {
        TaskFileNames(name);
      }
    }
  }

  /** Listed are the live tasks or, when there are none, the archived ones. */
  lemma TasksListed(s: Slot, task: int)
    ensures task in ListTasks(s) <==>
      HasTask(s.live.tasks, task) || (HasArchivedTask(s, task) && forall other :: !HasTask(s.live.tasks, other))
    ensures TasksNotHidden(s) <==>
      (exists other :: HasTask(s.live.tasks, other)) || forall other :: !HasArchivedTask(s, other)
  {
    forall other ensures other in TasksIn(s.live.tasks) <==> HasTask(s.live.tasks, other) {
      TasksInDirectory(s.live.tasks, other);
    }
    if s.archive.Some? {
      forall other ensures other in TasksIn(s.archive.value.parts.tasks) <==> HasArchivedTask(s, other) {
        TasksInDirectory(s.archive.value.parts.tasks, other);
      }
    }
    assert TasksIn(s.live.tasks) == {} <==> forall other :: other !in TasksIn(s.live.tasks);
  }

  /** The document that gives the children when the goal is archived. */
  ghost predicate VisitsBy(s: Slot, doc: Doc) {
    if s.live.goal.Some? && !Marked(s) then LoadsBy(s, doc) else ArchiveHolds(s, doc)
  }

  /** Archiving visits the children that this document lists, in its order. */
  lemma ChildrenAsDocumented(s: Slot, goal: Goal)
    ensures VisitsBy(s, GoalObject(goal)) ==> ChildrenOf(s) == goal.children
    ensures (forall other :: !VisitsBy(s, GoalObject(other))) ==> ChildrenOf(s) == []
    ensures ChildrenUnreadable(s) <==>
      s.live.goal.Some? && !Marked(s) && exists doc :: LoadsBy(s, doc) && !doc.GoalObject?
    ensures Located(s) <==> Marked(s) || s.live.goal.Some? || exists doc :: ArchiveHolds(s, doc)
  {
    LoadedIffDocument(s, goal);
    assert ArchiveJson(s).Some? ==> ArchiveHolds(s, ArchiveJson(s).value);
    if s.live.goal.Some? && !Marked(s) && LoadGoal(s).Found? {
      LoadedIffDocument(s, LoadGoal(s).goal);
      assert VisitsBy(s, GoalObject(LoadGoal(s).goal));
    }
  }

  /** The documents of a part: those of the live one, and under other names those that were in the target before. */
  ghost predicate Overlaid(into: Option<Dir>, live: Option<Dir>, r: Option<Dir>) {
    && (r.Some? <==> into.Some? || live.Some?)
    && (r.Some? ==> forall name ::
          name in r.value <==> (live.Some? && name in live.value) || (into.Some? && name in into.value))
    && (r.Some? ==> forall name :: name in r.value ==>
          if live.Some? && name in live.value then r.value[name] == live.value[name]
          else into.Some? && name in into.value && r.value[name] == into.value[name])
  }

  /** Tasks, strategies, stalls and reports have been copied over what was in the archive. */
  ghost predicate RemnantsOverlaid(into: Parts, live: Parts, r: Parts) {
    && Overlaid(into.tasks, live.tasks, r.tasks)
    && Overlaid(into.strategies, live.strategies, r.strategies)
    && Overlaid(into.reports, live.reports, r.reports)
    && r.stalls == if live.stalls.Some? then live.stalls else into.stalls
  }

  /** Every live file but the lock is there as it was, but that goal.json is marked as archived if it is a goal. */
  ghost predicate GoalDirArchived(live: Dir, r: Dir) {
    && (forall name :: name in r <==> name in live && name != ".lock")
    && (forall name :: name in r ==>
          if name == "goal.json" && live[name].GoalObject? then
            r[name].GoalObject? && r[name].goal == live[name].goal.(archived := true)
          else r[name] == live[name])
  }

  /** What archiving the goal to the end makes of its files. */
  ghost predicate ArchivedFrom(s: Slot, t: Slot) {
    if !Marked(s) && s.live.goal.None? && (forall doc :: !ArchiveHolds(s, doc)) then t == Slot(s.live, None, s.archive)
    else
      && t.live == Parts(None, None, None, None, None) && t.staging.None? && Marked(t)
      && if Marked(s) then t.archive == s.archive
         else if s.live.goal.None? then
           && t.archive.value.parts.goal == s.archive.value.parts.goal
           && RemnantsOverlaid(s.archive.value.parts, s.live, t.archive.value.parts)
         else
           && t.archive.value.parts.goal.Some?
           && GoalDirArchived(s.live.goal.value, t.archive.value.parts.goal.value)
           && RemnantsOverlaid(Parts(None, None, None, None, None), s.live, t.archive.value.parts)
  }

  // ----- Executing prefixes -----

  lemma ExecStep(s: Slot, steps: seq<Step>, k: nat)
    requires k < |steps|
    ensures Exec(s, steps[..k + 1]) == Apply(Exec(s, steps[..k]), steps[k])
    decreases k
  {
    if k == 0 {
      assert steps[..1][1..] == [];
    } else {
      ExecStep(Apply(s, steps[0]), steps[1..], k - 1);
      assert steps[..k + 1][1..] == steps[1..][..k];
      assert steps[..k][1..] == steps[1..][..k - 1];
    }
  }

  /** How far an archive has come: the live parts removed so far, from the first of the cleanup order. */
  function Removed(live: Parts, n: nat): Parts {
    Parts(if n > 0 then None else live.goal,
          if n > 1 then None else live.tasks,
          if n > 2 then None else live.strategies,
          if n > 3 then None else live.stalls,
          if n > 4 then None else live.reports)
  }

  lemma {:induction false} CleanupSteps(s: Slot, n: nat)
    requires n <= 5
    ensures Exec(s, CLEANUP[..n]) == s.(live := Removed(s.live, n))
  {
    if n > 0 {
      CleanupSteps(s, n - 1);
      ExecStep(s, CLEANUP, n - 1);
    }
  }

  lemma {:induction false} ExecConcat(s: Slot, xs: seq<Step>, ys: seq<Step>)
    ensures Exec(s, xs + ys) == Exec(Exec(s, xs), ys)
    decreases |xs|
  {
    if xs == [] {
      assert xs + ys == ys;
    } else {
      ExecConcat(Apply(s, xs[0]), xs[1..], ys);
      assert (xs + ys)[1..] == xs[1..] + ys;
    }
  }

  /** The remnants copied so far, in the order tasks, strategies, stalls, reports. */
  function Gathered(target: Parts, live: Parts, n: nat): Parts {
    Parts(target.goal,
          if n > 0 then Merged(target.tasks, live.tasks) else target.tasks,
          if n > 1 then Merged(target.strategies, live.strategies) else target.strategies,
          if n > 2 && live.stalls.Some? then live.stalls else target.stalls,
          if n > 3 then Merged(target.reports, live.reports) else target.reports)
  }

  lemma {:induction false} RemnantSteps(s: Slot, toStaging: bool, n: nat)
    requires n <= 4
    requires (if toStaging then s.staging else s.archive).Some?
    ensures Exec(s, Remnants(toStaging)[..n]) ==
      if toStaging then s.(staging := Some(s.staging.value.(parts := Gathered(s.staging.value.parts, s.live, n))))
      else s.(archive := Some(s.archive.value.(parts := Gathered(s.archive.value.parts, s.live, n))))
  {
    if n > 0 {
      RemnantSteps(s, toStaging, n - 1);
      ExecStep(s, Remnants(toStaging), n - 1);
    }
  }

  // ----- The states a cut archive can leave -----

  /** What a live goal's parts become in its archive. */
  function Moved(live: Parts): Parts
    requires live.goal.Some?
  {
    Gathered(NO_PARTS.(goal := Some(ArchivedDir(WithoutLock(live.goal.value)))), live, 4)
  }

  /** The state that archiving to the end is to reach. */
  function Target(s: Slot): Slot {
    if !Located(s) then s.(staging := None)
    else if Complete(s) then Slot(NO_PARTS, None, s.archive)
    else if s.live.goal.None? then
      Slot(NO_PARTS, None, Some(Bundle(Gathered(s.archive.value.parts, s.live, 4), true)))
    else Slot(NO_PARTS, None, Some(Bundle(Moved(s.live), true)))
  }

  /**
   * Not yet committed: the live parts are untouched, and any visible archive can still be finished or rebuilt from
   * them.
   */
  ghost predicate Early(s: Slot, t: Slot) {
    && !Complete(s) && !Complete(t) && t.live == s.live
    && if s.live.goal.Some? then t.archive == s.archive || t.archive.None?
       else if ArchiveJson(s).Some? then
         exists n: nat | n <= 4 :: t.archive == Some(Bundle(Gathered(s.archive.value.parts, s.live, n), false))
       else t.archive == s.archive
  }

  /** Committed: the archive is final and only cleanup is left. */
  ghost predicate Late(s: Slot, t: Slot) {
    && Located(s) && Complete(t) && t.archive == Target(s).archive
    && exists n: nat | n <= 5 :: t.live == Removed(s.live, n)
  }

  lemma ExecPrefixConcat(s: Slot, xs: seq<Step>, ys: seq<Step>, k: nat)
    requires k <= |xs| + |ys|
    ensures Exec(s, (xs + ys)[..k]) ==
      if k <= |xs| then Exec(s, xs[..k]) else Exec(Exec(s, xs), ys[..k - |xs|])
  {
    if k <= |xs| {
      assert (xs + ys)[..k] == xs[..k];
    } else {
      assert (xs + ys)[..k] == xs + ys[..k - |xs|];
      ExecConcat(s, xs, ys[..k - |xs|]);
    }
  }

  lemma CleanupIsLate(s: Slot, t: Slot, n: nat)
    requires Located(s) && Complete(t) && t.archive == Target(s).archive && t.live == s.live && n <= 5
    ensures Late(s, Exec(t, CLEANUP[..n]))
    ensures t.staging.None? && n == 5 ==> Exec(t, CLEANUP[..n]) == Target(s)
  {
    CleanupSteps(t, n);
    assert Exec(t, CLEANUP[..n]).live == Removed(s.live, n);
  }

  lemma OneStep(s: Slot, step: Step)
    ensures Exec(s, [step]) == Apply(s, step)
    ensures [step][..0] == [] && [step][..1] == [step]
  {
    assert [step][1..] == [];
  }

  /** A goal whose archive is complete: staging goes, then the live parts. */
  lemma CutComplete(s: Slot, k: nat)
    requires Complete(s) && k <= |Plan(s)|
    ensures Late(s, Exec(s, Plan(s)[..k]))
    ensures k == |Plan(s)| ==> Exec(s, Plan(s)[..k]) == Target(s)
  {
    OneStep(s, RemoveStaging);
    ExecPrefixConcat(s, [RemoveStaging], CLEANUP, k);
    assert CLEANUP[..0] == [];
    if k == 0 {
      CleanupIsLate(s, s, 0);
    } else {
      CleanupIsLate(s, Apply(s, RemoveStaging), k - 1);
    }
  }

  /** Only a visible archive without a marker: remnants are merged into it before the marker is set. */
  lemma CutArchiveOnly(s: Slot, k: nat)
    requires !Complete(s) && s.live.goal.None? && ArchiveJson(s).Some? && k <= |Plan(s)|
    ensures Early(s, Exec(s, Plan(s)[..k])) || Late(s, Exec(s, Plan(s)[..k]))
    ensures k == |Plan(s)| ==> Exec(s, Plan(s)[..k]) == Target(s)
  {
    var a, b, c := [RemoveStaging], Remnants(false), [WriteMarker(false)];
    var s1 := Apply(s, RemoveStaging);
    OneStep(s, RemoveStaging);
    assert Remnants(false)[..4] == Remnants(false);
    RemnantSteps(s1, false, 4);
    var s2 := Exec(s1, b);
    OneStep(s2, WriteMarker(false));
    var s3 := Apply(s2, WriteMarker(false));
    ExecConcat(s, a, b);
    ExecConcat(s, a + b, c);
    ExecPrefixConcat(s, a + b + c, CLEANUP, k);
    assert Gathered(s.archive.value.parts, s.live, 0) == s.archive.value.parts;
    if k <= 6 {
      ExecPrefixConcat(s, a + b, c, k);
      if k <= 5 {
        ExecPrefixConcat(s, a, b, k);
        if k >= 1 {
          RemnantSteps(s1, false, k - 1);
          assert b[..0] == [];
        }
      } else {
        assert CLEANUP[..0] == [];
        CleanupIsLate(s, s3, 0);
      }
    } else {
      CleanupIsLate(s, s3, k - 6);
    }
  }

  predicate StagingStep(step: Step) {
    match step
    case CopyPart(_, toStaging) => toStaging
    case WriteMarker(toStaging) => toStaging
    case RemoveStaging | RemoveArchive | CopyGoalDir | MarkArchived => true
    case _ => false
  }

  lemma {:induction false} StagingStepsAreEarly(s: Slot, steps: seq<Step>)
    requires forall i :: 0 <= i < |steps| ==> StagingStep(steps[i])
    ensures Exec(s, steps).live == s.live
    ensures Exec(s, steps).archive == s.archive || Exec(s, steps).archive.None?
    decreases |steps|
  {
    if steps != [] {
      StagingStepsAreEarly(Apply(s, steps[0]), steps[1..]);
    }
  }

  function StagePlan(s: Slot): seq<Step> {
    [RemoveStaging] + (if s.archive.Some? then [RemoveArchive] else []) +
    [CopyGoalDir, MarkArchived] + Remnants(true) + [WriteMarker(true)]
  }

  /** Staging leaves the whole archive, marker included, beside the untouched live parts. */
  lemma StagePlanBuilds(s: Slot)
    requires s.live.goal.Some?
    ensures Exec(s, StagePlan(s)) == Slot(s.live, Some(Bundle(Moved(s.live), true)), None)
  {
    var a := [RemoveStaging] + (if s.archive.Some? then [RemoveArchive] else []);
    var b, c, d := [CopyGoalDir, MarkArchived], Remnants(true), [WriteMarker(true)];
    var s1 := Slot(s.live, None, None);
    assert Exec(s, a) == s1 by {
      OneStep(s, RemoveStaging);
      OneStep(Apply(s, RemoveStaging), RemoveArchive);
      ExecConcat(s, [RemoveStaging], if s.archive.Some? then [RemoveArchive] else []);
    }
    var goal := Some(ArchivedDir(WithoutLock(s.live.goal.value)));
    var s2 := Slot(s.live, Some(Bundle(NO_PARTS.(goal := goal), false)), None);
    assert Exec(s1, b) == s2 by {
      assert b[1..] == [MarkArchived];
      OneStep(Apply(s1, CopyGoalDir), MarkArchived);
    }
    assert c[..4] == c;
    RemnantSteps(s2, true, 4);
    OneStep(Exec(s2, c), WriteMarker(true));
    ExecConcat(s, a, b);
    ExecConcat(s, a + b, c);
    ExecConcat(s, a + b + c, d);
  }

  lemma CutStaging(s: Slot, k: nat)
    requires !Complete(s) && s.live.goal.Some? && k <= |StagePlan(s)|
    ensures Early(s, Exec(s, StagePlan(s)[..k]))
  {
    StagingStepsAreEarly(s, StagePlan(s)[..k]);
  }

  lemma Committed(s: Slot)
    requires s.live.goal.Some?
    ensures Exec(s, StagePlan(s) + [CommitStaging]) == Apply(Exec(s, StagePlan(s)), CommitStaging)
  {
    OneStep(Exec(s, StagePlan(s)), CommitStaging);
    ExecConcat(s, StagePlan(s), [CommitStaging]);
  }

  /** A live goal: everything happens in staging until the rename commits it. */
  lemma CutLive(s: Slot, k: nat)
    requires !Complete(s) && s.live.goal.Some? && k <= |Plan(s)|
    ensures Early(s, Exec(s, Plan(s)[..k])) || Late(s, Exec(s, Plan(s)[..k]))
    ensures k == |Plan(s)| ==> Exec(s, Plan(s)[..k]) == Target(s)
  {
    var stage, first := StagePlan(s), StagePlan(s) + [CommitStaging];
    assert Plan(s) == first + CLEANUP;
    ExecPrefixConcat(s, first, CLEANUP, k);
    if k <= |stage| {
      assert first[..k] == stage[..k];
      CutStaging(s, k);
    } else {
      assert first[..|stage| + 1] == first && CLEANUP[..0] == [];
      StagePlanBuilds(s);
      Committed(s);
      CleanupIsLate(s, Exec(s, first), k - |stage| - 1);
    }
  }

  lemma CutAbsent(s: Slot, k: nat)
    requires !Located(s) && k <= |Plan(s)|
    ensures Early(s, Exec(s, Plan(s)[..k]))
    ensures k == |Plan(s)| ==> Exec(s, Plan(s)[..k]) == Target(s)
  {
    OneStep(s, RemoveStaging);
  }

  /** Every cut leaves an early or a late state, and the uncut run reaches the target. */
  lemma CutStates(s: Slot, k: nat)
    ensures Early(s, Cut(s, k)) || Late(s, Cut(s, k))
    ensures k >= |Plan(s)| ==> Cut(s, k) == Target(s)
    ensures Archived(s) == Target(s)
  {
    var n := |Plan(s)|;
    var c := if k < n then k else n;
    assert Plan(s)[..n] == Plan(s);
    if Complete(s) {
      CutComplete(s, c);
      CutComplete(s, n);
    } else if s.live.goal.Some? {
      CutLive(s, c);
      CutLive(s, n);
    } else if ArchiveJson(s).Some? {
      CutArchiveOnly(s, c);
      CutArchiveOnly(s, n);
    } else {
      CutAbsent(s, c);
      CutAbsent(s, n);
    }
  }

  // ----- Main results for one goal -----

  /** From an early or late state, archiving still reaches the same target, and the goal's children are unchanged. */
  lemma SameTarget(s: Slot, t: Slot)
    requires Early(s, t) || Late(s, t)
    ensures Target(t) == Target(s)
    ensures Located(t) == Located(s)
  {
    if Early(s, t) && s.live.goal.None? && ArchiveJson(s).Some? {
      var n: nat :| n <= 4 && t.archive == Some(Bundle(Gathered(s.archive.value.parts, s.live, n), false));
      GatherAgain(s.archive.value.parts, s.live, n);
    }
  }

  lemma GatherAgain(target: Parts, live: Parts, n: nat)
    requires n <= 4
    ensures Gathered(Gathered(target, live, n), live, 4) == Gathered(target, live, 4)
  {
    MergedAgain(target.tasks, live.tasks);
    MergedAgain(target.strategies, live.strategies);
    MergedAgain(target.reports, live.reports);
  }

  lemma MergedAgain(into: Option<Dir>, from: Option<Dir>)
    ensures Merged(Merged(into, from), from) == Merged(into, from)
  {
    if from.Some? {
      assert from.value + from.value == from.value;
      if into.Some? {
        assert into.value + from.value + from.value == into.value + from.value;
      }
    }
  }

  function Cuts(s: Slot, cuts: seq<nat>): Slot
    decreases |cuts|
  {
    if cuts == [] then s else Cuts(Cut(s, cuts[0]), cuts[1..])
  }

  /** However often archiving is cut, the run that completes ends where an uninterrupted one does. */
  lemma {:induction false} ArchiveConverges(s: Slot, cuts: seq<nat>)
    ensures Archived(Cuts(s, cuts)) == Archived(s)
    decreases |cuts|
  {
    CutStates(s, 0);
    if cuts != [] {
      CutStates(s, cuts[0]);
      SameTarget(s, Cut(s, cuts[0]));
      CutStates(Cut(s, cuts[0]), 0);
      ArchiveConverges(Cut(s, cuts[0]), cuts[1..]);
    }
  }

  lemma MergedIsOverlaid(into: Option<Dir>, live: Option<Dir>)
    ensures Overlaid(into, live, Merged(into, live))
  {
  }

  lemma GatheredIsOverlaid(into: Parts, live: Parts)
    ensures RemnantsOverlaid(into, live, Gathered(into, live, 4)) && Gathered(into, live, 4).goal == into.goal
  {
    MergedIsOverlaid(into.tasks, live.tasks);
    MergedIsOverlaid(into.strategies, live.strategies);
    MergedIsOverlaid(into.reports, live.reports);
  }

  lemma MovedGoalDir(live: Dir)
    ensures GoalDirArchived(live, ArchivedDir(WithoutLock(live)))
  {
  }

  /** File by file, an archive run to its end leaves what it should, from whatever state it finds the goal in. */
  lemma ArchivedFileByFile(s: Slot)
    ensures ArchivedFrom(s, Archived(s))
  {
    CutStates(s, 0);
    assert ArchiveJson(s).Some? ==> ArchiveHolds(s, ArchiveJson(s).value);
    assert Complete(s) <==> Marked(s);
    if Located(s) && !Complete(s) {
      if s.live.goal.None? {
        GatheredIsOverlaid(s.archive.value.parts, s.live);
      } else {
        var dir := ArchivedDir(WithoutLock(s.live.goal.value));
        MovedGoalDir(s.live.goal.value);
        GatheredIsOverlaid(NO_PARTS.(goal := Some(dir)), s.live);
      }
    }
  }

  /** A completed archive of a live goal: no staging, nothing live, and all five parts, file by file, under a marker. */
  lemma ArchiveIsWhole(s: Slot)
    requires s.live.goal.Some? && !Complete(s)
    ensures var t := Archived(s);
      && t.staging.None? && t.live == NO_PARTS && Complete(t)
      && t.archive.value.parts.goal.Some?
      && GoalDirArchived(s.live.goal.value, t.archive.value.parts.goal.value)
      && t.archive.value.parts.tasks == s.live.tasks
      && t.archive.value.parts.strategies == s.live.strategies
      && t.archive.value.parts.stalls == s.live.stalls
      && t.archive.value.parts.reports == s.live.reports
  {
    CutStates(s, 0);
    MovedGoalDir(s.live.goal.value);
  }

  /** Archiving again changes nothing, wherever it is cut. */
  lemma ArchivedStays(s: Slot, k: nat)
    ensures Cut(Archived(s), k) == Archived(s)
  {
    var t := Archived(s);
    CutStates(s, 0);
    CutStates(t, k);
    if Complete(t) {
      var c := if k < |Plan(t)| then k else |Plan(t)|;
      OneStep(t, RemoveStaging);
      ExecPrefixConcat(t, [RemoveStaging], CLEANUP, c);
      assert Plan(t)[..|Plan(t)|] == Plan(t);
      if c > 0 {
        CleanupSteps(t, c - 1);
      }
    } else {
      OneStep(t, RemoveStaging);
    }
  }

  // ----- Safety while archiving is under way -----

  /** A live goal that no complete archive shadows. */
  ghost predicate ActiveGoal(s: Slot, goal: Goal) {
    JsonOf(s.live.goal) == Some(GoalObject(goal)) && !Complete(s)
  }

  /** Not committed: live parts untouched. Committed: the archive is final and live parts are only missing. */
  ghost predicate Under(s0: Slot, s: Slot) {
    || (s.live == s0.live && (s.archive == s0.archive || s.archive.None?))
    || (s.archive == Target(s0).archive && exists n: nat | n <= 5 :: s.live == Removed(s0.live, n))
  }

  lemma {:induction false} CutsStayUnder(s0: Slot, s: Slot, goal: Goal, cuts: seq<nat>)
    requires ActiveGoal(s0, goal) && Under(s0, s)
    ensures Under(s0, Cuts(s, cuts))
    ensures Complete(s) ==> Complete(Cuts(s, cuts))
    decreases |cuts|
  {
    if cuts != [] {
      var t := Cut(s, cuts[0]);
      CutStates(s, cuts[0]);
      if Late(s, t) && Complete(s) {
        var n: nat :| n <= 5 && s.live == Removed(s0.live, n);
        var m: nat :| m <= 5 && t.live == Removed(s.live, m);
        assert t.live == Removed(s0.live, if n > m then n else m);
      }
      CutsStayUnder(s0, t, goal, cuts[1..]);
    }
  }

  /** The tasks listed do not come from a half-made archive. */
  predicate TasksNotHidden(s: Slot) {
    TasksIn(s.live.tasks) != {} || s.archive.None? || TasksIn(s.archive.value.parts.tasks) == {}
  }

  lemma UnderLoads(s0: Slot, s: Slot, goal: Goal)
    requires ActiveGoal(s0, goal) && Under(s0, s)
    ensures LoadGoal(s) == Found(if Complete(s) then goal.(archived := true) else goal)
    ensures TasksNotHidden(s0) ==> ListTasks(s) == ListTasks(s0)
  {
    if Complete(s) {
      CutStates(s0, 0);
      var n: nat :| n <= 5 && s.live == Removed(s0.live, n);
      assert s.archive.value.parts.goal.value["goal.json"] == GoalObject(goal.(archived := true));
      assert TasksIn(Merged(None, s0.live.tasks)) == TasksIn(s0.live.tasks);
    }
  }

  /**
   * Archive safety. From a live goal without a complete archive, after any cut runs of archiving, loading gives the
   * original or the archived goal, and once it gives the archived goal it never gives the live one again. The listed
   * tasks are those of before, unless they came from a half-made archive.
   */
  lemma ArchiveSafety(s: Slot, goal: Goal, cuts: seq<nat>, more: seq<nat>)
    requires ActiveGoal(s, goal)
    ensures var t := Cuts(s, cuts); var u := Cuts(t, more);
      && (LoadGoal(t) == Found(goal) || LoadGoal(t) == Found(goal.(archived := true)))
      && (LoadGoal(t) != Found(goal) ==> LoadGoal(u) == Found(goal.(archived := true)))
      && (TasksNotHidden(s) ==> ListTasks(t) == ListTasks(s))
  {
    CutsStayUnder(s, s, goal, cuts);
    UnderLoads(s, Cuts(s, cuts), goal);
    CutsStayUnder(s, Cuts(s, cuts), goal, more);
    UnderLoads(s, Cuts(Cuts(s, cuts), more), goal);
  }

  /** Through all cut runs the listed tasks stay the same exactly when they do not come from a half-made archive. */
  lemma TasksStayIffNotHidden(s: Slot, goal: Goal)
    requires ActiveGoal(s, goal)
    ensures (forall cuts :: ListTasks(Cuts(s, cuts)) == ListTasks(s)) <==> TasksNotHidden(s)
  {
    forall cuts | TasksNotHidden(s) ensures ListTasks(Cuts(s, cuts)) == ListTasks(s) {
      ArchiveSafety(s, goal, cuts, []);
    }
    if !TasksNotHidden(s) {
      ArchiveIsWhole(s);
      var whole := [|Plan(s)|];
      assert whole[1..] == [] && Cuts(s, whole) == Cuts(Archived(s), []) == Archived(s);
    }
  }

  /**
   * Archiving a goal that loads leaves one that loads exactly when the copy that it keeps is readable: the archived one
   * if there is no live directory or the archive is complete, else the live one. Any other readable copy is removed.
   */
  lemma StillLoadsIffKeptCopyReadable(s: Slot)
    requires LoadGoal(s).Found?
    ensures LoadGoal(Archived(s)).Found? <==>
      if Complete(s) || s.live.goal.None? then Readable(ArchiveJson(s)) else Readable(JsonOf(s.live.goal))
  {
    CutStates(s, 0);
  }

  // ----- What the visit of children relies on -----

  /**
   * A cut run leaves the children that the next run will visit as they were, or takes them all away: it does so when
   * they came from a half-made archive that it has removed. It never makes them unreadable.
   */
  lemma CutKeepsChildren(s: Slot, k: nat)
    requires !ChildrenUnreadable(s)
    ensures ChildrenOf(Cut(s, k)) == ChildrenOf(s) || ChildrenOf(Cut(s, k)) == []
    ensures !ChildrenUnreadable(Cut(s, k)) && Located(Cut(s, k)) == Located(s)
  {
    CutStates(s, k);
    CutStates(s, 0);
  }

  /**
   * A live directory without a goal.json beside a half-made archive: two steps in, the children are no longer to be
   * seen.
   */
  lemma CutCanHideChildren(goal: Goal)
    ensures var s := Slot(NO_PARTS.(goal := Some(map[])), None,
                          Some(Bundle(NO_PARTS.(goal := Some(map["goal.json" := GoalObject(goal)])), false)));
      ChildrenOf(s) == goal.children && ChildrenOf(Cut(s, 2)) == []
  {
    var s := Slot(NO_PARTS.(goal := Some(map[])), None,
                  Some(Bundle(NO_PARTS.(goal := Some(map["goal.json" := GoalObject(goal)])), false)));
    assert Plan(s)[..2] == [RemoveStaging, RemoveArchive];
    OneStep(Apply(s, RemoveStaging), RemoveArchive);
    assert [RemoveStaging, RemoveArchive][1..] == [RemoveArchive];
  }
}

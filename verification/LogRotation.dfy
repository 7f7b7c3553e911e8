/** Size-based log rotation: lines queued while files are shifted, and what is kept of them. */
module LogRotation {
  import opened Prelude

  datatype Line = Line(text: string, bytes: nat)

  /** File 0 is pulseed.log, file i is pulseed.<i>.log. */
  type LogFiles = map<nat, seq<Line>>

  function Get(files: LogFiles, i: nat): seq<Line> {
    if i in files then files[i] else []
  }

  function Bytes(lines: seq<Line>): nat {
    if lines == [] then 0 else Bytes(lines[..|lines| - 1]) + lines[|lines| - 1].bytes
  }

  /** The lines of the rotated files from file n down to file 1, oldest first. */
  function Rotated(files: LogFiles, n: nat): seq<Line> {
    if n == 0 then [] else Get(files, n) + Rotated(files, n - 1)
  }

  /** A rename whose source is missing fails and is ignored. */
  function Rename(files: LogFiles, from: nat, to: nat): LogFiles {
    if from in files then (files - {from})[to := files[from]] else files
  }

  /** With maxFiles of 0 there is still pulseed.1.log. */
  function Kept(maxFiles: int): nat {
    if maxFiles >= 1 then maxFiles else 1
  }

  datatype State = State(files: LogFiles, streamSize: nat, queue: seq<Line>, rotating: bool)

  // ----- What the methods do to the state -----

  function WriteLine(s: State, line: Line, maxSize: nat): State {
    if s.rotating then s.(queue := s.queue + [line])
    else if s.streamSize >= maxSize then s.(queue := s.queue + [line], rotating := true)
    else s.(files := s.files[0 := Get(s.files, 0) + [line]], streamSize := s.streamSize + line.bytes)
  }

  function WriteAll(s: State, lines: seq<Line>, maxSize: nat): State {
    if lines == [] then s else WriteLine(WriteAll(s, lines[..|lines| - 1], maxSize), lines[|lines| - 1], maxSize)
  }

  /**
   * Files beyond the last one are not touched; with a single rotated file, nothing takes its place when there is no
   * current one.
   */
  predicate Untouched(files: LogFiles, maxFiles: int, i: nat) {
    i > Kept(maxFiles) || (maxFiles <= 1 && i == 1 && 0 !in files)
  }

  /** Every other file moves up one, so the one at the end goes and the current file becomes file 1. */
  function Shifted(files: LogFiles, maxFiles: int): LogFiles {
    map i | i in files.Keys + Successors(files.Keys) &&
            (if Untouched(files, maxFiles, i) then i in files else i > 0 && i - 1 in files) ::
      if Untouched(files, maxFiles, i) then files[i] else files[i - 1]
  }

  function Successors(keys: set<nat>): (r: set<nat>)
    ensures forall j: nat :: j in r <==> j > 0 && j - 1 in keys
  {
    var r := set i | i in keys :: i + 1;
    forall j: nat | j > 0 && j - 1 in keys ensures j in r {
      assert j == (j - 1) + 1;
    }
    r
  }

  /** The state when the files are shifted and the queue is still to be drained. */
  function JustShifted(s: State, maxFiles: int): State {
    State(Shifted(s.files, maxFiles)[0 := []], 0, [], false)
  }

  function FinishRotation(s: State, maxSize: nat, maxFiles: int): State {
    WriteAll(JustShifted(s, maxFiles), s.queue, maxSize)
  }

  // ----- The loop that moves the files -----

  /** The files when those above i have been moved up and i + 1 is free. */
  function PartlyShifted(files: LogFiles, i: nat, maxFiles: nat): LogFiles {
    map k | k in files.Keys + Successors(files.Keys) &&
            (if k <= i || k > maxFiles then k in files else k != i + 1 && k - 1 in files) ::
      if k <= i || k > maxFiles then files[k] else files[k - 1]
  }

  /** The state of the loop, with file i the next to go. */
  ghost predicate Shifting(before: LogFiles, now: LogFiles, i: int, maxFiles: int) {
    && (i == maxFiles - 1 || 0 <= i < maxFiles - 1)
    && now == if i == maxFiles - 1 then before else PartlyShifted(before, i, maxFiles)
  }

  lemma ShiftBegins(files: LogFiles, maxFiles: nat)
    requires maxFiles > 1
    ensures files - {maxFiles} == PartlyShifted(files, maxFiles - 1, maxFiles)
  {
  }

  lemma ShiftOne(files: LogFiles, i: nat, maxFiles: nat)
    requires 1 <= i < maxFiles
    ensures Rename(PartlyShifted(files, i, maxFiles), i, i + 1) == PartlyShifted(files, i - 1, maxFiles)
  {
    var a, b := Rename(PartlyShifted(files, i, maxFiles), i, i + 1), PartlyShifted(files, i - 1, maxFiles);
    forall k: nat ensures (k in a <==> k in b) && (k in a ==> a[k] == b[k]) {
    }
  }

  lemma ShiftIteration(before: LogFiles, now: LogFiles, i: nat, maxFiles: int)
    requires Shifting(before, now, i, maxFiles) && i >= 1
    ensures Shifting(before, Rename(if i == maxFiles - 1 then now - {i + 1} else now, i, i + 1), i - 1, maxFiles)
  {
    if i == maxFiles - 1 {
      ShiftBegins(before, maxFiles);
    }
    ShiftOne(before, i, maxFiles);
  }

  lemma ShiftLastOfMany(files: LogFiles, maxFiles: nat, k: nat)
    requires maxFiles > 1
    ensures var a, b := Rename(PartlyShifted(files, 0, maxFiles), 0, 1), Shifted(files, maxFiles);
      (k in a <==> k in b) && (k in a ==> a[k] == b[k])
  {
  }

  lemma ShiftLastOfOne(files: LogFiles, maxFiles: int, k: nat)
    requires maxFiles <= 1
    ensures var a, b := Rename(files, 0, 1), Shifted(files, maxFiles);
      (k in a <==> k in b) && (k in a ==> a[k] == b[k])
  {
  }

  lemma ShiftLast(before: LogFiles, now: LogFiles, i: int, maxFiles: int)
    requires Shifting(before, now, i, maxFiles) && i < 1
    ensures Rename(now, 0, 1) == Shifted(before, maxFiles)
  {
    forall k: nat
      ensures k in Rename(now, 0, 1) <==> k in Shifted(before, maxFiles)
      ensures k in Rename(now, 0, 1) ==> Rename(now, 0, 1)[k] == Shifted(before, maxFiles)[k]
    {
      if maxFiles > 1 {
        ShiftLastOfMany(before, maxFiles, k);
      } else {
        ShiftLastOfOne(before, maxFiles, k);
      }
    }
  }

  // ----- The code -----

  function Empty(): State {
    State(map[], 0, [], false)
  }

  class Logger {
    const maxSizeBytes: nat
    const maxFiles: int
    var files: LogFiles
    var streamSize: nat
    var rotationQueue: seq<Line>
    var rotating: bool

    constructor (maxSizeBytes: nat, maxFiles: int)
      ensures this.maxSizeBytes == maxSizeBytes && this.maxFiles == maxFiles && S() == Empty()
    {
      this.maxSizeBytes, this.maxFiles := maxSizeBytes, maxFiles;
      files, streamSize, rotationQueue, rotating := map[], 0, [], false;
    }

    ghost function S(): State
      reads this
    {
      State(files, streamSize, rotationQueue, rotating)
    }

    method WriteToFile(line: Line)
      modifies this
      ensures S() == WriteLine(old(S()), line, maxSizeBytes)
      ensures S() == Next(old(S()), Log(line), maxSizeBytes, maxFiles)
    {
      if rotating {
        rotationQueue := rotationQueue + [line];
        return;
      }
      if streamSize >= maxSizeBytes {
        rotationQueue := rotationQueue + [line];
        rotating := true;
        return;
      }
      files := files[0 := (if 0 in files then files[0] else []) + [line]];
      streamSize := streamSize + line.bytes;
    }

    method ShiftFiles()
      modifies this`files
      ensures files == Shifted(old(files), maxFiles)
    {
      ghost var before := files;
      var i := maxFiles - 1;
      while i >= 1
        invariant Shifting(before, files, i, maxFiles)
      {
        ghost var now := files;
        if i == maxFiles - 1 {
          files := files - {i + 1};
        }
        files := Rename(files, i, i + 1);
        ShiftIteration(before, now, i, maxFiles);
        i := i - 1;
      }
      ShiftLast(before, files, i, maxFiles);
      files := Rename(files, 0, 1);
    }

    method CompleteRotation()
      requires rotating
      modifies this
      ensures S() == FinishRotation(old(S()), maxSizeBytes, maxFiles)
      ensures S() == Next(old(S()), RotationDone, maxSizeBytes, maxFiles)
    {
      ShiftFiles();
      files, streamSize, rotating := files[0 := []], 0, false;
      var queued := rotationQueue;
      rotationQueue := [];
      assert S() == JustShifted(old(S()), maxFiles);
      DrainQueue(queued);
    }

    method DrainQueue(queued: seq<Line>)
      modifies this
      ensures S() == WriteAll(old(S()), queued, maxSizeBytes)
    {
      for i := 0 to |queued|
        invariant S() == WriteAll(old(S()), queued[..i], maxSizeBytes)
      {
        assert queued[..i + 1][..i] == queued[..i];
        WriteToFile(queued[i]);
      }
      assert queued[..|queued|] == queued;
    }
  }

  // ----- Runs of log calls and rotation completions, in any order -----

  datatype Event = Log(line: Line) | RotationDone

  function Next(s: State, e: Event, maxSize: nat, maxFiles: int): State {
    match e
    case Log(line) => WriteLine(s, line, maxSize)
    case RotationDone => if s.rotating then FinishRotation(s, maxSize, maxFiles) else s
  }

  /** The lines that the step removes from disk: the oldest file of a rotation. */
  function Lost(s: State, e: Event, maxFiles: int): seq<Line> {
    if e.RotationDone? && s.rotating then Get(s.files, Kept(maxFiles)) else []
  }

  function Run(s: State, events: seq<Event>, maxSize: nat, maxFiles: int): State {
    if events == [] then s
    else Next(Run(s, events[..|events| - 1], maxSize, maxFiles), events[|events| - 1], maxSize, maxFiles)
  }

  function Accepted(events: seq<Event>): seq<Line> {
    if events == [] then []
    else
      var e := events[|events| - 1];
      Accepted(events[..|events| - 1]) + if e.Log? then [e.line] else []
  }

  function Dropped(s: State, events: seq<Event>, maxSize: nat, maxFiles: int): seq<Line> {
    if events == [] then []
    else
      var before := events[..|events| - 1];
      Dropped(s, before, maxSize, maxFiles) + Lost(Run(s, before, maxSize, maxFiles), events[|events| - 1], maxFiles)
  }

  // ----- The invariant -----

  /** The rotated files are numbered without gaps, and there are none before there is a current file. */
  ghost predicate Contiguous(files: LogFiles, maxFiles: int) {
    forall i: nat :: i in files ==> i <= Kept(maxFiles) && forall j: nat :: j <= i ==> j in files
  }

  /** Only the last line of a file may carry it over the limit. */
  ghost predicate BelowLimit(lines: seq<Line>, maxSize: nat) {
    lines != [] ==> Bytes(lines[..|lines| - 1]) < maxSize
  }

  ghost predicate AllBelowLimit(files: LogFiles, maxSize: nat) {
    forall i: nat :: BelowLimit(Get(files, i), maxSize)
  }

  ghost predicate Inv(s: State, maxSize: nat, maxFiles: int) {
    && Contiguous(s.files, maxFiles)
    && s.streamSize == Bytes(Get(s.files, 0))
    && (s.queue != [] ==> s.rotating)
    && AllBelowLimit(s.files, maxSize)
  }

  ghost predicate SameRotated(a: LogFiles, b: LogFiles) {
    forall i: nat :: i > 0 ==> (i in a <==> i in b) && Get(a, i) == Get(b, i)
  }

  lemma BelowLimitSnoc(lines: seq<Line>, line: Line, maxSize: nat)
    requires Bytes(lines) < maxSize
    ensures BelowLimit(lines + [line], maxSize) && Bytes(lines + [line]) == Bytes(lines) + line.bytes
  {
    assert (lines + [line])[..|lines|] == lines;
  }

  lemma WrittenBelowLimit(files: LogFiles, written: LogFiles, lines: seq<Line>, maxSize: nat)
    requires AllBelowLimit(files, maxSize) && BelowLimit(lines, maxSize) && written == files[0 := lines]
    ensures AllBelowLimit(written, maxSize)
  {
    forall i: nat ensures BelowLimit(Get(written, i), maxSize) {
      assert i > 0 ==> Get(written, i) == Get(files, i);
    }
  }

  lemma WrittenContiguous(files: LogFiles, written: LogFiles, lines: seq<Line>, maxFiles: int)
    requires Contiguous(files, maxFiles) && written == files[0 := lines]
    ensures Contiguous(written, maxFiles)
  {
  }

  lemma WriteLineKeepsInv(s: State, line: Line, maxSize: nat, maxFiles: int)
    requires Inv(s, maxSize, maxFiles)
    ensures Inv(WriteLine(s, line, maxSize), maxSize, maxFiles)
  {
    var t, lines := WriteLine(s, line, maxSize), Get(s.files, 0) + [line];
    if s.rotating || s.streamSize >= maxSize {
      assert t.files == s.files;
    } else {
      assert t.files == s.files[0 := lines] && Get(t.files, 0) == lines;
      BelowLimitSnoc(Get(s.files, 0), line, maxSize);
      WrittenBelowLimit(s.files, t.files, lines, maxSize);
      WrittenContiguous(s.files, t.files, lines, maxFiles);
    }
  }

  lemma {:induction false} WriteAllKeepsInv(s: State, lines: seq<Line>, maxSize: nat, maxFiles: int)
    requires Inv(s, maxSize, maxFiles)
    ensures Inv(WriteAll(s, lines, maxSize), maxSize, maxFiles)
  {
    if lines != [] {
      var init, last := lines[..|lines| - 1], lines[|lines| - 1];
      WriteAllKeepsInv(s, init, maxSize, maxFiles);
      WriteLineKeepsInv(WriteAll(s, init, maxSize), last, maxSize, maxFiles);
    }
  }

  /** A logged line goes behind the current file and the queue, and touches no rotated file. */
  lemma WriteLineAppends(s: State, line: Line, maxSize: nat)
    requires s.queue != [] ==> s.rotating
    ensures var t := WriteLine(s, line, maxSize);
      && SameRotated(s.files, t.files)
      && Get(t.files, 0) + t.queue == Get(s.files, 0) + s.queue + [line]
      && (t.queue != [] ==> t.rotating)
  {
  }

  lemma {:induction false} WriteAllAppends(s: State, lines: seq<Line>, maxSize: nat)
    requires s.queue != [] ==> s.rotating
    ensures var t := WriteAll(s, lines, maxSize);
      && SameRotated(s.files, t.files)
      && Get(t.files, 0) + t.queue == Get(s.files, 0) + s.queue + lines
      && (t.queue != [] ==> t.rotating)
  {
    if lines != [] {
      var init, last := lines[..|lines| - 1], lines[|lines| - 1];
      WriteAllAppends(s, init, maxSize);
      WriteLineAppends(WriteAll(s, init, maxSize), last, maxSize);
      Associative(Get(s.files, 0) + s.queue, init, [last]);
      assert lines == init + [last];
    }
  }

  lemma {:induction false} RotatedSame(a: LogFiles, b: LogFiles, n: nat)
    requires SameRotated(a, b)
    ensures Rotated(a, n) == Rotated(b, n)
  {
    if n > 0 {
      RotatedSame(a, b, n - 1);
    }
  }

  lemma ShiftedAt(files: LogFiles, maxFiles: int, i: nat)
    requires Contiguous(files, maxFiles)
    ensures Get(Shifted(files, maxFiles)[0 := []], i) ==
      if 1 <= i <= Kept(maxFiles) then Get(files, i - 1) else []
  {
  }

  ghost predicate MovedUp(files: LogFiles, moved: LogFiles, n: nat) {
    forall i: nat :: 1 <= i <= n ==> Get(moved, i) == Get(files, i - 1)
  }

  /** A shift keeps every line in order but those of the file at the end. */
  lemma {:induction false} RotatedMoved(files: LogFiles, moved: LogFiles, n: nat)
    requires n >= 1 && MovedUp(files, moved, n)
    ensures Rotated(moved, n) == Rotated(files, n - 1) + Get(files, 0)
  {
    if n == 1 {
      assert Rotated(moved, 1) == Get(moved, 1) + Rotated(moved, 0);
    } else {
      RotatedMoved(files, moved, n - 1);
      Associative(Get(files, n - 1), Rotated(files, n - 2), Get(files, 0));
    }
  }

  lemma ShiftKeepsLimit(files: LogFiles, shifted: LogFiles, maxSize: nat, maxFiles: int)
    requires Contiguous(files, maxFiles) && AllBelowLimit(files, maxSize) &&
      shifted == Shifted(files, maxFiles)[0 := []]
    ensures AllBelowLimit(shifted, maxSize)
  {
    forall i: nat ensures BelowLimit(Get(shifted, i), maxSize) {
      ShiftedAt(files, maxFiles, i);
      if i > 0 {
        assert BelowLimit(Get(files, i - 1), maxSize);
      }
    }
  }

  lemma ShiftedHolds(files: LogFiles, maxFiles: int, i: nat)
    requires Contiguous(files, maxFiles)
    ensures i in Shifted(files, maxFiles)[0 := []] <==> i == 0 || (i <= Kept(maxFiles) && i - 1 in files)
  {
  }

  lemma ShiftKeepsContiguous(files: LogFiles, shifted: LogFiles, maxFiles: int)
    requires Contiguous(files, maxFiles) && shifted == Shifted(files, maxFiles)[0 := []]
    ensures Contiguous(shifted, maxFiles)
  {
    forall i: nat | i in shifted ensures i <= Kept(maxFiles) && forall j: nat :: j <= i ==> j in shifted {
      ShiftedHolds(files, maxFiles, i);
      forall j: nat | j <= i ensures j in shifted {
        ShiftedHolds(files, maxFiles, j);
      }
    }
  }

  lemma ShiftKeepsInv(s: State, maxSize: nat, maxFiles: int)
    requires Inv(s, maxSize, maxFiles)
    ensures Inv(JustShifted(s, maxFiles), maxSize, maxFiles)
  {
    ShiftKeepsLimit(s.files, JustShifted(s, maxFiles).files, maxSize, maxFiles);
    ShiftKeepsContiguous(s.files, JustShifted(s, maxFiles).files, maxFiles);
  }

  /** The lines on disk and in the queue, oldest first. */
  function Held(s: State, maxFiles: int): seq<Line> {
    Rotated(s.files, Kept(maxFiles)) + (Get(s.files, 0) + s.queue)
  }

  lemma DrainKeepsLines(s1: State, t: State, queue: seq<Line>, maxFiles: int)
    requires Get(s1.files, 0) == [] && s1.queue == []
    requires SameRotated(s1.files, t.files)
    requires Get(t.files, 0) + t.queue == Get(s1.files, 0) + s1.queue + queue
    ensures Held(t, maxFiles) == Rotated(s1.files, Kept(maxFiles)) + queue
  {
    RotatedSame(s1.files, t.files, Kept(maxFiles));
    assert [] + [] + queue == queue;
  }

  lemma RotationKeepsInv(s: State, maxSize: nat, maxFiles: int)
    requires Inv(s, maxSize, maxFiles)
    ensures Inv(FinishRotation(s, maxSize, maxFiles), maxSize, maxFiles)
  {
    ShiftKeepsInv(s, maxSize, maxFiles);
    WriteAllKeepsInv(JustShifted(s, maxFiles), s.queue, maxSize, maxFiles);
  }

  lemma ShiftMovesFiles(files: LogFiles, shifted: LogFiles, maxFiles: int)
    requires Contiguous(files, maxFiles) && shifted == Shifted(files, maxFiles)[0 := []]
    ensures MovedUp(files, shifted, Kept(maxFiles)) && Get(shifted, 0) == []
  {
    forall i: nat | 1 <= i <= Kept(maxFiles) ensures Get(shifted, i) == Get(files, i - 1) {
      ShiftedAt(files, maxFiles, i);
    }
  }

  lemma MovedStays(files: LogFiles, a: LogFiles, b: LogFiles, n: nat)
    requires MovedUp(files, a, n) && SameRotated(a, b)
    ensures MovedUp(files, b, n)
  {
  }

  /** A completed rotation keeps every line in order but those of the file at the end, and every file moves up one. */
  lemma RotationKeepsLines(s: State, maxSize: nat, maxFiles: int)
    requires Inv(s, maxSize, maxFiles)
    ensures var t := FinishRotation(s, maxSize, maxFiles);
      && Held(s, maxFiles) == Get(s.files, Kept(maxFiles)) + Held(t, maxFiles)
      && MovedUp(s.files, t.files, Kept(maxFiles))
  {
    var k, s1, t := Kept(maxFiles), JustShifted(s, maxFiles), FinishRotation(s, maxSize, maxFiles);
    ShiftMovesFiles(s.files, s1.files, maxFiles);
    WriteAllAppends(s1, s.queue, maxSize);
    MovedStays(s.files, s1.files, t.files, k);
    DrainKeepsLines(s1, t, s.queue, maxFiles);
    RotatedMoved(s.files, s1.files, k);
    LinesRegrouped(Get(s.files, k), Rotated(s.files, k - 1), Get(s.files, 0), s.queue);
  }

  lemma LinesRegrouped(a: seq<Line>, b: seq<Line>, c: seq<Line>, d: seq<Line>)
    ensures (a + b) + (c + d) == a + ((b + c) + d)
  {
  }

  lemma LogKeepsLines(s: State, line: Line, maxSize: nat, maxFiles: int)
    requires Inv(s, maxSize, maxFiles)
    ensures var t := WriteLine(s, line, maxSize);
      Inv(t, maxSize, maxFiles) && Held(t, maxFiles) == Held(s, maxFiles) + [line]
  {
    var t := WriteLine(s, line, maxSize);
    WriteLineKeepsInv(s, line, maxSize, maxFiles);
    WriteLineAppends(s, line, maxSize);
    RotatedSame(s.files, t.files, Kept(maxFiles));
  }

  /**
   * From any directory that a logger may have left, after any interleaving of log calls and rotation completions: what
   * was dropped, the rotated files oldest first, the current file and the queue make up what was there and all accepted
   * lines, in order; at most maxFiles rotated files exist; and every file is below the limit but for its last line.
   */
  lemma {:induction false} NothingLostOutOfOrder(s0: State, events: seq<Event>, maxSize: nat, maxFiles: int)
    requires Inv(s0, maxSize, maxFiles)
    ensures var s := Run(s0, events, maxSize, maxFiles);
      && Held(s0, maxFiles) + Accepted(events) == Dropped(s0, events, maxSize, maxFiles) + Held(s, maxFiles)
      && Inv(s, maxSize, maxFiles)
  {
    if events != [] {
      var init, e := events[..|events| - 1], events[|events| - 1];
      NothingLostOutOfOrder(s0, init, maxSize, maxFiles);
      var s, d := Run(s0, init, maxSize, maxFiles), Dropped(s0, init, maxSize, maxFiles);
      StepKeepsLines(s, e, maxSize, maxFiles);
      Regrouped(Held(s0, maxFiles), Accepted(init), if e.Log? then [e.line] else [], d, Held(s, maxFiles),
        Lost(s, e, maxFiles),
                Held(Next(s, e, maxSize, maxFiles), maxFiles));
    }
  }

  lemma StepKeepsLines(s: State, e: Event, maxSize: nat, maxFiles: int)
    requires Inv(s, maxSize, maxFiles)
    ensures var t := Next(s, e, maxSize, maxFiles);
      && Inv(t, maxSize, maxFiles)
      && Held(s, maxFiles) + (if e.Log? then [e.line] else []) == Lost(s, e, maxFiles) + Held(t, maxFiles)
  {
    match e
    case Log(line) => LogKeepsLines(s, line, maxSize, maxFiles);
    case RotationDone =>
      if s.rotating {
        RotationKeepsInv(s, maxSize, maxFiles);
        RotationKeepsLines(s, maxSize, maxFiles);
      }
  }

  lemma Regrouped<T>(h0: seq<T>, a: seq<T>, x: seq<T>, d: seq<T>, h: seq<T>, l: seq<T>, t: seq<T>)
    requires h0 + a == d + h && h + x == l + t
    ensures h0 + (a + x) == (d + l) + t
  {
    assert h0 + (a + x) == (h0 + a) + x == d + (h + x) == (d + l) + t;
  }

  /** A fresh logger holds nothing but what it accepts. */
  lemma FreshLoggerIsEmpty(maxSize: nat, maxFiles: int)
    ensures Inv(Empty(), maxSize, maxFiles) && Held(Empty(), maxFiles) == []
  {
    RotatedEmpty(Kept(maxFiles));
  }

  lemma {:induction false} RotatedEmpty(n: nat)
    ensures Rotated(map[], n) == []
  {
    if n > 0 {
      RotatedEmpty(n - 1);
    }
  }

  /** Lines are dropped only by a rotation that finds maxFiles rotated files, and then they are the oldest of them. */
  lemma OnlyTheOldestIsDropped(s0: State, events: seq<Event>, e: Event, maxSize: nat, maxFiles: int)
    requires Inv(s0, maxSize, maxFiles)
    ensures var s := Run(s0, events, maxSize, maxFiles);
      var lost := Lost(s, e, maxFiles);
      && Dropped(s0, events + [e], maxSize, maxFiles) == Dropped(s0, events, maxSize, maxFiles) + lost
      && lost <= Rotated(s.files, Kept(maxFiles))
      && (lost != [] ==> forall i: nat :: i <= Kept(maxFiles) ==> i in s.files)
  {
    assert (events + [e])[..|events|] == events;
    NothingLostOutOfOrder(s0, events, maxSize, maxFiles);
  }

  // ----- A file is rotated when it is full, and not before -----

  ghost predicate Full(s: State, maxSize: nat) {
    && (s.rotating ==> Bytes(Get(s.files, 0)) >= maxSize)
    && forall i: nat :: i > 0 && i in s.files ==> Bytes(s.files[i]) >= maxSize
  }

  lemma WriteLineKeepsFull(s: State, line: Line, maxSize: nat)
    requires Full(s, maxSize) && s.streamSize == Bytes(Get(s.files, 0))
    ensures Full(WriteLine(s, line, maxSize), maxSize)
    ensures WriteLine(s, line, maxSize).streamSize == Bytes(Get(WriteLine(s, line, maxSize).files, 0))
  {
    var lines := Get(s.files, 0);
    assert (lines + [line])[..|lines|] == lines;
  }

  lemma {:induction false} WriteAllKeepsFull(s: State, lines: seq<Line>, maxSize: nat)
    requires Full(s, maxSize) && s.streamSize == Bytes(Get(s.files, 0))
    ensures Full(WriteAll(s, lines, maxSize), maxSize)
    ensures WriteAll(s, lines, maxSize).streamSize == Bytes(Get(WriteAll(s, lines, maxSize).files, 0))
  {
    if lines != [] {
      WriteAllKeepsFull(s, lines[..|lines| - 1], maxSize);
      WriteLineKeepsFull(WriteAll(s, lines[..|lines| - 1], maxSize), lines[|lines| - 1], maxSize);
    }
  }

  lemma RotationKeepsFull(s: State, maxSize: nat, maxFiles: int)
    requires Full(s, maxSize) && s.rotating
    ensures Full(FinishRotation(s, maxSize, maxFiles), maxSize)
  {
    var shifted := JustShifted(s, maxFiles);
    forall i: nat | i > 0 && i in shifted.files ensures Bytes(shifted.files[i]) >= maxSize {
      assert i in Shifted(s.files, maxFiles);
      if !Untouched(s.files, maxFiles, i) {
        assert shifted.files[i] == s.files[i - 1];
      }
    }
    WriteAllKeepsFull(shifted, s.queue, maxSize);
  }

  /** In every run of a fresh logger each rotated file has reached the limit, with its last line and not before. */
  lemma {:induction false} RotatedFilesAreFull(events: seq<Event>, maxSize: nat, maxFiles: int)
    ensures var s := Run(Empty(), events, maxSize, maxFiles);
      && Full(s, maxSize)
      && forall i: nat :: i > 0 && i in s.files ==> BelowLimit(s.files[i], maxSize) && Bytes(s.files[i]) >= maxSize
  {
    FreshLoggerIsEmpty(maxSize, maxFiles);
    NothingLostOutOfOrder(Empty(), events, maxSize, maxFiles);
    if events != [] {
      var init, e := events[..|events| - 1], events[|events| - 1];
      var s := Run(Empty(), init, maxSize, maxFiles);
      RotatedFilesAreFull(init, maxSize, maxFiles);
      NothingLostOutOfOrder(Empty(), init, maxSize, maxFiles);
      match e
      case Log(line) => WriteLineKeepsFull(s, line, maxSize);
      case RotationDone => if s.rotating { RotationKeepsFull(s, maxSize, maxFiles); }
    }
    var s := Run(Empty(), events, maxSize, maxFiles);
    forall i: nat | i > 0 && i in s.files ensures BelowLimit(s.files[i], maxSize) {
      assert BelowLimit(Get(s.files, i), maxSize);
    }
  }

  // ----- Progress -----

  lemma {:induction false} ZeroLimitQueues(s: State, lines: seq<Line>)
    ensures WriteAll(s, lines, 0).files == s.files
    ensures WriteAll(s, lines, 0).queue == s.queue + lines
  {
    if lines != [] {
      ZeroLimitQueues(s, lines[..|lines| - 1]);
      assert lines == lines[..|lines| - 1] + [lines[|lines| - 1]];
    }
  }

  /** Into an empty file at least the first line is written. */
  lemma {:induction false} FirstLineWritten(s: State, lines: seq<Line>, maxSize: nat)
    requires !s.rotating && s.queue == [] && s.streamSize < maxSize && lines != []
    ensures |WriteAll(s, lines, maxSize).queue| < |lines|
  {
    var init, last := lines[..|lines| - 1], lines[|lines| - 1];
    assert WriteAll(s, lines, maxSize) == WriteLine(WriteAll(s, init, maxSize), last, maxSize);
    if init == [] {
      assert WriteAll(s, init, maxSize) == s;
    } else {
      FirstLineWritten(s, init, maxSize);
    }
  }

  /** A rotation with queued lines leaves fewer of them exactly when the limit is not 0. */
  lemma RotationShortensQueueIff(s: State, maxSize: nat, maxFiles: int)
    requires s.queue != []
    ensures |FinishRotation(s, maxSize, maxFiles).queue| < |s.queue| <==> maxSize > 0
    ensures maxSize == 0 ==> FinishRotation(s, maxSize, maxFiles).queue == s.queue
  {
    if maxSize > 0 {
      FirstLineWritten(JustShifted(s, maxFiles), s.queue, maxSize);
    } else {
      ZeroLimitQueues(JustShifted(s, maxFiles), s.queue);
      assert [] + s.queue == s.queue;
    }
  }

  /** n rotations complete and no line is logged. */
  function Drained(s: State, n: nat, maxSize: nat, maxFiles: int): State
    decreases n
  {
    if n == 0 then s else Drained(Next(s, RotationDone, maxSize, maxFiles), n - 1, maxSize, maxFiles)
  }

  lemma {:induction false} DrainedInTime(s: State, n: nat, maxSize: nat, maxFiles: int)
    requires maxSize > 0 && (s.queue != [] ==> s.rotating) && n >= |s.queue|
    ensures Drained(s, n, maxSize, maxFiles).queue == []
    decreases n
  {
    if n > 0 {
      if s.queue != [] {
        RotationShortensQueueIff(s, maxSize, maxFiles);
      }
      if s.rotating {
        WriteAllAppends(JustShifted(s, maxFiles), s.queue, maxSize);
        if s.queue == [] {
          assert FinishRotation(s, maxSize, maxFiles) == JustShifted(s, maxFiles);
        }
      }
      DrainedInTime(Next(s, RotationDone, maxSize, maxFiles), n - 1, maxSize, maxFiles);
    }
  }

  lemma {:induction false} NeverDrained(s: State, n: nat, maxFiles: int)
    requires s.queue != []
    ensures Drained(s, n, 0, maxFiles).queue == s.queue
    decreases n
  {
    if n > 0 {
      RotationShortensQueueIff(s, 0, maxFiles);
      NeverDrained(Next(s, RotationDone, 0, maxFiles), n - 1, maxFiles);
    }
  }

  /** Queued lines all get written, when rotations complete often enough, exactly when the limit is not 0. */
  lemma QueueIsWrittenIff(s: State, maxSize: nat, maxFiles: int)
    requires s.queue != [] && s.rotating
    ensures (exists n: nat :: Drained(s, n, maxSize, maxFiles).queue == []) <==> maxSize > 0
  {
    if maxSize > 0 {
      DrainedInTime(s, |s.queue|, maxSize, maxFiles);
    } else {
      forall n: nat ensures Drained(s, n, 0, maxFiles).queue != [] {
        NeverDrained(s, n, maxFiles);
      }
    }
  }

  /** With a limit of 0 every line starts or joins a rotation, and a fresh logger never writes any. */
  lemma {:induction false} ZeroLimitWritesNothing(events: seq<Event>, maxFiles: int)
    ensures var s := Run(Empty(), events, 0, maxFiles);
      Inv(s, 0, maxFiles) && (forall i: nat :: Get(s.files, i) == []) && Accepted(events) == s.queue
  {
    FreshLoggerIsEmpty(0, maxFiles);
    NothingLostOutOfOrder(Empty(), events, 0, maxFiles);
    if events != [] {
      var init, e := events[..|events| - 1], events[|events| - 1];
      ZeroLimitWritesNothing(init, maxFiles);
      var s := Run(Empty(), init, 0, maxFiles);
      if e.RotationDone? && s.rotating {
        ZeroLimitRotation(s, maxFiles);
      }
    }
  }

  lemma ZeroLimitRotation(s: State, maxFiles: int)
    requires Inv(s, 0, maxFiles) && forall i: nat :: Get(s.files, i) == []
    ensures var t := FinishRotation(s, 0, maxFiles);
      t.queue == s.queue && forall i: nat :: Get(t.files, i) == []
  {
    var s1 := JustShifted(s, maxFiles);
    forall i: nat ensures Get(s1.files, i) == [] {
      ShiftedAt(s.files, maxFiles, i);
    }
    ZeroLimitQueues(s1, s.queue);
    assert [] + s.queue == s.queue;
  }
}

/** Fitting prompt blocks into category limits and a total budget, where a cut block may overshoot. */
module PromptBudget {
  import opened Prelude
  import opened StableSort

  const MARKER: string := "\n... (truncated)"

  /** One token for every four characters begun. */
  function EstimateTokens(text: string): (r: nat)
    ensures 4 * r - 4 < |text| <= 4 * r
  {
    (|text| + 3) / 4
  }

  /** text.slice(0, end): a negative end counts from the back. */
  function SliceTo(text: string, end: int): (r: string)
    ensures r <= text
    ensures end >= |text| ==> r == text
    ensures 0 <= end < |text| ==> |r| == end
    ensures end < 0 ==> |r| == if end + |text| > 0 then end + |text| else 0
  {
    if end < 0 then (if |text| + end <= 0 then "" else text[..|text| + end])
    else if end >= |text| then text else text[..end]
  }

  /** The last line end in the first n characters. */
  function LastNewlineBefore(text: string, n: nat): (r: int)
    requires n <= |text|
    ensures -1 <= r < n
  {
    if n == 0 then -1 else if text[n - 1] == '\n' then n - 1 else LastNewlineBefore(text, n - 1)
  }

  /** text.lastIndexOf("\n"). */
  function LastNewline(text: string): (r: int)
    ensures -1 <= r < |text|
  {
    LastNewlineBefore(text, |text|)
  }

  lemma {:induction false} NewlineBefore(text: string, n: nat)
    requires n <= |text|
    ensures var r := LastNewlineBefore(text, n);
      (r >= 0 ==> text[r] == '\n') && forall i :: r < i < n ==> text[i] != '\n'
  {
    if n > 0 && text[n - 1] != '\n' {
      NewlineBefore(text, n - 1);
    }
  }

  lemma LastNewlineAt(text: string)
    ensures var r := LastNewline(text);
      (r >= 0 ==> text[r] == '\n') && forall i :: r < i < |text| ==> text[i] != '\n'
  {
    NewlineBefore(text, |text|);
  }

  function TrimToTokenBudget(text: string, maxTokens: int): string {
    if EstimateTokens(text) <= maxTokens then text
    else
      var trimmed := SliceTo(text, maxTokens * 4);
      var lastNewline := LastNewline(trimmed);
      (if lastNewline > 0 then trimmed[..lastNewline] else trimmed) + MARKER
  }

  /** No line ends in text[from..to]. */
  ghost predicate OneLine(text: string, from: int, to: int) {
    forall i :: from <= i < to && 0 <= i < |text| ==> text[i] != '\n'
  }

  /** The cut is at the last line end after the first character within the budget, or where the budget ends. */
  ghost predicate CutOf(r: string, text: string, maxTokens: int) {
    exists n :: 0 <= n <= 4 * maxTokens && n < |text| && r == text[..n] + MARKER &&
      (if n < 4 * maxTokens then n > 0 && text[n] == '\n' && OneLine(text, n + 1, 4 * maxTokens)
       else OneLine(text, 1, n))
  }

  /**
   * Trimming keeps a text that fits; else it keeps a beginning, cut at the last line end if there is one, under the
   * marker.
   */
  lemma TrimKeepsBeginning(text: string, maxTokens: int)
    requires maxTokens >= 0
    ensures var r := TrimToTokenBudget(text, maxTokens);
      && (if EstimateTokens(text) <= maxTokens then r == text else CutOf(r, text, maxTokens))
      && EstimateTokens(r) <= maxTokens + 4
  {
    if EstimateTokens(text) > maxTokens {
      var trimmed := SliceTo(text, maxTokens * 4);
      assert trimmed == text[..4 * maxTokens];
      var m := LastNewline(trimmed);
      LastNewlineAt(trimmed);
      var n := if m > 0 then m else |trimmed|;
      assert TrimToTokenBudget(text, maxTokens) == text[..n] + MARKER;
      assert forall i :: 0 <= i < |trimmed| ==> trimmed[i] == text[i];
    }
  }

  /** The four tokens of the marker can be overshot in full: a text without line ends, one character too long. */
  lemma TrimOvershootsByFour(text: string, maxTokens: nat)
    requires |text| == 4 * maxTokens + 1 && forall i :: 0 <= i < |text| ==> text[i] != '\n'
    ensures EstimateTokens(TrimToTokenBudget(text, maxTokens)) == maxTokens + 4
  {
    LastNewlineAt(SliceTo(text, maxTokens * 4));
  }

  // ----- Blocks -----

  datatype Category = GoalDefinition | Observations | Knowledge | TransferKnowledge | Meta

  datatype Entry = Entry(priority: int, block: string, tokens: nat, category: Category)

  type Limits = map<Category, int>

  ghost predicate AllLimits(limits: Limits) {
    forall c: Category :: c in limits
  }

  ghost predicate Measured(entries: seq<Entry>) {
    forall i :: 0 <= i < |entries| ==> entries[i].tokens == EstimateTokens(entries[i].block)
  }

  function Trimmed(e: Entry, maxTokens: int): Entry {
    var block := TrimToTokenBudget(e.block, maxTokens);
    e.(block := block, tokens := EstimateTokens(block))
  }

  /** The tokens of the first n entries. */
  function TotalOfAny(entries: seq<Entry>, n: nat): nat
    requires n <= |entries|
  {
    if n == 0 then 0 else TotalOfAny(entries, n - 1) + entries[n - 1].tokens
  }

  function Total(entries: seq<Entry>): nat {
    TotalOfAny(entries, |entries|)
  }

  /** The tokens of category c in the first n entries. */
  function TotalOfFirst(entries: seq<Entry>, n: nat, c: Category): nat
    requires n <= |entries|
  {
    if n == 0 then 0
    else TotalOfFirst(entries, n - 1, c) + if entries[n - 1].category == c then entries[n - 1].tokens else 0
  }

  function TotalOf(entries: seq<Entry>, c: Category): nat {
    TotalOfFirst(entries, |entries|, c)
  }

  /** What the first pass keeps of an entry when its category has something left. */
  function CapEntry(e: Entry, remaining: int): Entry {
    if e.tokens <= remaining then e else Trimmed(e, remaining)
  }

  /** The entry itself if it fits what is left, else the entry with its block cut to that. */
  ghost predicate WholeOrCut(kept: Entry, e: Entry, left: int) {
    if e.tokens <= left then kept == e
    else
      && kept.priority == e.priority && kept.category == e.category
      && kept.tokens == EstimateTokens(kept.block)
      && if EstimateTokens(e.block) <= left then kept.block == e.block else CutOf(kept.block, e.block, left)
  }

  lemma CapEntryCuts(e: Entry, left: int)
    requires left > 0
    ensures WholeOrCut(CapEntry(e, left), e, left)
  {
    TrimKeepsBeginning(e.block, left);
  }

  function UsedBy(categoryUsed: map<Category, nat>, c: Category): nat {
    if c in categoryUsed then categoryUsed[c] else 0
  }

  /**
   * The first pass over n entries, with what each category has used: an entry is kept, cut to what its category has
   * left, or dropped.
   */
  function CappedFirst(entries: seq<Entry>, n: nat, limits: Limits): (seq<Entry>, map<Category, nat>)
    requires AllLimits(limits) && n <= |entries|
  {
    if n == 0 then ([], map[])
    else
      var (kept, categoryUsed) := CappedFirst(entries, n - 1, limits);
      CapOne(kept, categoryUsed, entries[n - 1], limits)
  }

  function CapOne(kept: seq<Entry>, categoryUsed: map<Category, nat>, e: Entry, limits: Limits)
    : (seq<Entry>, map<Category, nat>)
    requires AllLimits(limits)
  {
    var used := UsedBy(categoryUsed, e.category);
    if limits[e.category] - used <= 0 then (kept, categoryUsed)
    else
      var more := CapEntry(e, limits[e.category] - used);
      (kept + [more], categoryUsed[e.category := used + more.tokens])
  }

  function Capped(entries: seq<Entry>, limits: Limits): seq<Entry>
    requires AllLimits(limits)
  {
    CappedFirst(entries, |entries|, limits).0
  }

  lemma {:induction false} TotalPrefix(entries: seq<Entry>, e: Entry, n: nat)
    requires n <= |entries|
    ensures TotalOfAny(entries + [e], n) == TotalOfAny(entries, n)
  {
    if n > 0 {
      TotalPrefix(entries, e, n - 1);
    }
  }

  lemma TotalSnoc(entries: seq<Entry>, e: Entry)
    ensures Total(entries + [e]) == Total(entries) + e.tokens
    ensures TotalOfAny(entries + [e], |entries|) == Total(entries)
  {
    TotalPrefix(entries, e, |entries|);
  }

  lemma {:induction false} TotalOfPrefix(entries: seq<Entry>, e: Entry, n: nat, c: Category)
    requires n <= |entries|
    ensures TotalOfFirst(entries + [e], n, c) == TotalOfFirst(entries, n, c)
  {
    if n > 0 {
      TotalOfPrefix(entries, e, n - 1, c);
    }
  }

  lemma TotalOfSnoc(entries: seq<Entry>, e: Entry, c: Category)
    ensures TotalOf(entries + [e], c) == TotalOf(entries, c) + if e.category == c then e.tokens else 0
  {
    TotalOfPrefix(entries, e, |entries|, c);
  }

  lemma KeptFits(kept: Entry, e: Entry, left: int)
    requires WholeOrCut(kept, e, left) && left > 0
    ensures kept.tokens <= left + 4 && kept.category == e.category
    ensures e.tokens == EstimateTokens(e.block) ==> kept.tokens == EstimateTokens(kept.block)
  {
  }

  // ----- What the first pass keeps -----

  /** What the first k kept entries leave of the limit of a category. */
  function LeftOver(limits: Limits, kept: seq<Entry>, k: nat, c: Category): int
    requires AllLimits(limits) && k <= |kept|
  {
    limits[c] - TotalOfFirst(kept, k, c)
  }

  ghost predicate Ascending(places: seq<nat>, n: nat) {
    forall k :: 0 <= k < |places| ==> places[k] < n && (k > 0 ==> places[k - 1] < places[k])
  }

  /** i lies after the first k places and before the others. */
  ghost predicate Between(places: seq<nat>, k: int, i: int) {
    0 <= k <= |places| && (k > 0 ==> places[k - 1] < i) && (k < |places| ==> i < places[k])
  }

  ghost predicate KeptAt(kept: seq<Entry>, k: nat, e: Entry, limits: Limits)
    requires AllLimits(limits) && k < |kept|
  {
    var left := LeftOver(limits, kept, k, e.category);
    left > 0 && WholeOrCut(kept[k], e, left)
  }

  /**
   * The kept entries stem, in order, from the entries at the given places, whole or cut to what the earlier kept ones
   * leave of their category; and at all other places nothing is left of it.
   */
  ghost predicate KeptFrom(kept: seq<Entry>, entries: seq<Entry>, n: nat, limits: Limits, places: seq<nat>)
    requires AllLimits(limits) && n <= |entries|
  {
    && |places| == |kept| && Ascending(places, n)
    && (forall k :: 0 <= k < |places| ==> KeptAt(kept, k, entries[places[k]], limits))
    && (forall i, k :: 0 <= i < n && Between(places, k, i) ==> LeftOver(limits, kept, k, entries[i].category) <= 0)
  }

  lemma LeftOverStays(limits: Limits, kept: seq<Entry>, more: Entry, k: nat, c: Category)
    requires AllLimits(limits) && k <= |kept|
    ensures LeftOver(limits, kept + [more], k, c) == LeftOver(limits, kept, k, c)
  {
    TotalOfPrefix(kept, more, k, c);
  }

  lemma BetweenAscending(places: seq<nat>, n: nat, k: int, i: int)
    requires Ascending(places, n) && Between(places + [n], k, i) && i <= n
    ensures k <= |places| && i < n && Between(places, k, i)
  {
    if k == |places| {
      assert (places + [n])[k] == n;
    }
  }

  lemma StaysKept(kept: seq<Entry>, more: Entry, k: nat, e: Entry, limits: Limits)
    requires AllLimits(limits) && k < |kept| && KeptAt(kept, k, e, limits)
    ensures KeptAt(kept + [more], k, e, limits)
  {
    LeftOverStays(limits, kept, more, k, e.category);
  }

  lemma KeepOneMore(kept: seq<Entry>, entries: seq<Entry>, n: nat, limits: Limits, places: seq<nat>, more: Entry)
    requires AllLimits(limits) && n < |entries| && KeptFrom(kept, entries, n, limits, places)
    requires KeptAt(kept + [more], |kept|, entries[n], limits)
    ensures KeptFrom(kept + [more], entries, n + 1, limits, places + [n])
  {
    var kept', places' := kept + [more], places + [n];
    forall k | 0 <= k < |places| ensures KeptAt(kept', k, entries[places[k]], limits) {
      StaysKept(kept, more, k, entries[places[k]], limits);
    }
    forall i, k | 0 <= i < n + 1 && Between(places', k, i)
      ensures LeftOver(limits, kept', k, entries[i].category) <= 0
    {
      BetweenAscending(places, n, k, i);
      LeftOverStays(limits, kept, more, k, entries[i].category);
    }
  }

  lemma SkipOne(kept: seq<Entry>, entries: seq<Entry>, n: nat, limits: Limits, places: seq<nat>)
    requires AllLimits(limits) && n < |entries| && KeptFrom(kept, entries, n, limits, places)
    requires LeftOver(limits, kept, |kept|, entries[n].category) <= 0
    ensures KeptFrom(kept, entries, n + 1, limits, places)
  {
    forall i, k | 0 <= i < n + 1 && Between(places, k, i)
      ensures LeftOver(limits, kept, k, entries[i].category) <= 0
    {
      assert i == n ==> k == |places|;
    }
  }

  ghost predicate RightTotals(kept: seq<Entry>, categoryUsed: map<Category, nat>) {
    forall c: Category :: UsedBy(categoryUsed, c) == TotalOf(kept, c)
  }

  lemma TotalsStayRight(kept: seq<Entry>, categoryUsed: map<Category, nat>, more: Entry)
    requires RightTotals(kept, categoryUsed)
    ensures RightTotals(kept + [more], categoryUsed[more.category := UsedBy(categoryUsed, more.category) + more.tokens])
  {
    forall c: Category
      ensures TotalOf(kept + [more], c) == TotalOf(kept, c) + if more.category == c then more.tokens else 0
    {
      TotalOfSnoc(kept, more, c);
    }
  }

  lemma CapOneByTotals(kept: seq<Entry>, categoryUsed: map<Category, nat>, e: Entry, limits: Limits)
    requires AllLimits(limits) && UsedBy(categoryUsed, e.category) == TotalOf(kept, e.category)
    ensures var left := LeftOver(limits, kept, |kept|, e.category); var more := CapEntry(e, left);
      CapOne(kept, categoryUsed, e, limits) ==
        if left <= 0 then (kept, categoryUsed)
        else (kept + [more], categoryUsed[e.category := UsedBy(categoryUsed, e.category) + more.tokens])
  {
  }

  lemma MoreIsKept(kept: seq<Entry>, e: Entry, limits: Limits, left: int)
    requires AllLimits(limits) && left == LeftOver(limits, kept, |kept|, e.category) && left > 0
    ensures KeptAt(kept + [CapEntry(e, left)], |kept|, e, limits) && CapEntry(e, left).category == e.category
  {
    CapEntryCuts(e, left);
    LeftOverStays(limits, kept, CapEntry(e, left), |kept|, e.category);
  }

  lemma NextKept(kept: seq<Entry>, categoryUsed: map<Category, nat>, entries: seq<Entry>, n: nat, limits: Limits,
      places: seq<nat>) returns (places': seq<nat>)
    requires AllLimits(limits) && n < |entries|
    requires RightTotals(kept, categoryUsed) && KeptFrom(kept, entries, n, limits, places)
    ensures var (kept', categoryUsed') := CapOne(kept, categoryUsed, entries[n], limits);
      RightTotals(kept', categoryUsed') && KeptFrom(kept', entries, n + 1, limits, places')
  {
    var e := entries[n];
    var left := LeftOver(limits, kept, |kept|, e.category);
    assert UsedBy(categoryUsed, e.category) == TotalOf(kept, e.category);
    CapOneByTotals(kept, categoryUsed, e, limits);
    if left <= 0 {
      places' := places;
      SkipOne(kept, entries, n, limits, places);
    } else {
      places' := places + [n];
      MoreIsKept(kept, e, limits, left);
      KeepOneMore(kept, entries, n, limits, places, CapEntry(e, left));
      TotalsStayRight(kept, categoryUsed, CapEntry(e, left));
    }
  }

  lemma {:induction false} FirstKept(entries: seq<Entry>, n: nat, limits: Limits) returns (places: seq<nat>)
    requires AllLimits(limits) && n <= |entries|
    ensures var (kept, categoryUsed) := CappedFirst(entries, n, limits);
      RightTotals(kept, categoryUsed) && KeptFrom(kept, entries, n, limits, places)
  {
    if n == 0 {
      places := [];
    } else {
      var before := n - 1;
      var (kept, categoryUsed) := CappedFirst(entries, before, limits);
      places := FirstKept(entries, before, limits);
      places := NextKept(kept, categoryUsed, entries, before, limits, places);
      assert CappedFirst(entries, n, limits) == CapOne(kept, categoryUsed, entries[before], limits);
    }
  }

  /** The first pass keeps, whole or cut to what is left of the category, exactly the entries for which something is. */
  lemma FirstPassKeeps(entries: seq<Entry>, limits: Limits)
    requires AllLimits(limits)
    ensures exists places :: KeptFrom(Capped(entries, limits), entries, |entries|, limits, places)
  {
    var places := FirstKept(entries, |entries|, limits);
    assert KeptFrom(Capped(entries, limits), entries, |entries|, limits, places);
  }

  lemma {:induction false} FirstKeptWithin(kept: seq<Entry>, entries: seq<Entry>, limits: Limits, places: seq<nat>,
      k: nat, c: Category)
    requires AllLimits(limits) && KeptFrom(kept, entries, |entries|, limits, places) && k <= |kept|
    ensures TotalOfFirst(kept, k, c) <= if limits[c] > 0 then limits[c] + 4 else 0
  {
    if k > 0 {
      var e := entries[places[k - 1]];
      FirstKeptWithin(kept, entries, limits, places, k - 1, c);
      assert KeptAt(kept, k - 1, e, limits);
      KeptFits(kept[k - 1], e, LeftOver(limits, kept, k - 1, e.category));
    }
  }

  /** Each category exceeds its limit by at most four tokens, and one without any allowance keeps nothing. */
  lemma CategoryWithinLimit(entries: seq<Entry>, limits: Limits, c: Category)
    requires AllLimits(limits) && Measured(entries)
    ensures TotalOf(Capped(entries, limits), c) <= if limits[c] > 0 then limits[c] + 4 else 0
    ensures Measured(Capped(entries, limits))
  {
    var kept := Capped(entries, limits);
    var places := FirstKept(entries, |entries|, limits);
    FirstKeptWithin(kept, entries, limits, places, |kept|, c);
    forall k | 0 <= k < |kept| ensures kept[k].tokens == EstimateTokens(kept[k].block) {
      assert KeptAt(kept, k, entries[places[k]], limits);
      KeptFits(kept[k], entries[places[k]], LeftOver(limits, kept, k, entries[places[k]].category));
    }
  }

  /** The second pass over n blocks in priority order: what is kept, and what is left of the budget. */
  function FittedFirst(sorted: seq<Entry>, n: nat, budget: int): (seq<Entry>, int)
    requires n <= |sorted|
  {
    if n == 0 then ([], budget)
    else
      var (kept, remaining) := FittedFirst(sorted, n - 1, budget);
      var e := sorted[n - 1];
      if remaining <= 0 then (kept, remaining)
      else if e.tokens <= remaining then (kept + [e], remaining - e.tokens)
      else (kept + [Trimmed(e, remaining)], 0)
  }

  function Fitted(sorted: seq<Entry>, budget: int): seq<Entry> {
    FittedFirst(sorted, |sorted|, budget).0
  }

  function Priority(e: Entry): int {
    e.priority
  }

  function Enforced(assembled: seq<Entry>, budget: int, limits: Option<Limits>): seq<Entry>
    requires limits.Some? ==> AllLimits(limits.value)
  {
    var capped := CappedIf(assembled, limits);
    if Total(capped) <= budget then capped else Fitted(Sort(capped, Priority), budget)
  }

  /**
   * All but the last block of the result are the first blocks in priority order; the last is the next one, whole if
   * what is left of the budget holds it and otherwise cut to that; and more blocks are left out only when nothing is
   * left.
   */
  ghost predicate PrefixWithLastCut(r: seq<Entry>, sorted: seq<Entry>, budget: int) {
    && |r| <= |sorted|
    && (forall i :: 0 <= i < |r| - 1 ==> r[i] == sorted[i])
    && (r != [] ==> LastFits(r, sorted[|r| - 1], budget))
    && (|r| < |sorted| ==> UsedUp(r, sorted, budget))
  }

  ghost predicate LastFits(r: seq<Entry>, e: Entry, budget: int)
    requires r != []
  {
    var left := budget - TotalOfAny(r, |r| - 1);
    left > 0 && WholeOrCut(r[|r| - 1], e, left)
  }

  ghost predicate LastCut(r: seq<Entry>, e: Entry, budget: int)
    requires r != []
  {
    e.tokens > budget - TotalOfAny(r, |r| - 1)
  }

  ghost predicate UsedUp(r: seq<Entry>, sorted: seq<Entry>, budget: int)
    requires |r| <= |sorted|
  {
    budget <= Total(r) || (r != [] && LastCut(r, sorted[|r| - 1], budget))
  }

  /** The loop of the second pass: while something is left, the blocks so far are whole; then it goes no further. */
  ghost predicate Fitting(r: seq<Entry>, remaining: int, sorted: seq<Entry>, n: nat, budget: int)
    requires n <= |sorted|
  {
    && |r| <= n
    && (forall i :: 0 <= i < |r| - 1 ==> r[i] == sorted[i])
    && (r != [] ==> LastFits(r, sorted[|r| - 1], budget))
    && (if remaining <= 0 then UsedUp(r, sorted, budget)
        else |r| == n && r == sorted[..n] && remaining == budget - Total(r))
  }

  lemma FittingMore(r: seq<Entry>, sorted: seq<Entry>, n: nat, budget: int, remaining: int, kept: Entry)
    requires n < |sorted| && Fitting(r, remaining, sorted, n, budget) && remaining > 0 &&
      kept == CapEntry(sorted[n], remaining)
    ensures Fitting(r + [kept], if sorted[n].tokens <= remaining then remaining - sorted[n].tokens else 0,
                    sorted, n + 1, budget)
  {
    TotalSnoc(r, kept);
    CapEntryCuts(sorted[n], remaining);
    if sorted[n].tokens <= remaining {
      assert sorted[..n + 1] == sorted[..n] + [sorted[n]];
    }
  }

  lemma {:induction false} FittedFirstFits(sorted: seq<Entry>, n: nat, budget: int)
    requires n <= |sorted|
    ensures var (r, remaining) := FittedFirst(sorted, n, budget); Fitting(r, remaining, sorted, n, budget)
  {
    if n > 0 {
      FittedFirstFits(sorted, n - 1, budget);
      var (r, remaining) := FittedFirst(sorted, n - 1, budget);
      if remaining > 0 {
        FittingMore(r, sorted, n - 1, budget, remaining, CapEntry(sorted[n - 1], remaining));
      }
    }
  }

  lemma FittingDone(r: seq<Entry>, remaining: int, sorted: seq<Entry>, budget: int)
    requires Fitting(r, remaining, sorted, |sorted|, budget)
    ensures PrefixWithLastCut(r, sorted, budget)
  {
  }

  lemma FittedIsPrefix(sorted: seq<Entry>, budget: int)
    ensures PrefixWithLastCut(Fitted(sorted, budget), sorted, budget)
  {
    var (r, remaining) := FittedFirst(sorted, |sorted|, budget);
    FittedFirstFits(sorted, |sorted|, budget);
    FittingDone(r, remaining, sorted, budget);
  }

  lemma PrefixWithinBudget(r: seq<Entry>, sorted: seq<Entry>, budget: int)
    requires PrefixWithLastCut(r, sorted, budget)
    ensures Total(r) <= if budget > 0 then budget + 4 else 0
  {
    if r != [] {
      KeptFits(r[|r| - 1], sorted[|r| - 1], budget - TotalOfAny(r, |r| - 1));
    }
  }

  /** The second pass exceeds the budget by at most four tokens. */
  lemma FittedWithinBudget(sorted: seq<Entry>, budget: int)
    ensures Total(Fitted(sorted, budget)) <= if budget > 0 then budget + 4 else 0
  {
    FittedIsPrefix(sorted, budget);
    PrefixWithinBudget(Fitted(sorted, budget), sorted, budget);
  }

  lemma PrefixMeasured(r: seq<Entry>, sorted: seq<Entry>, budget: int)
    requires PrefixWithLastCut(r, sorted, budget) && Measured(sorted)
    ensures Measured(r)
  {
    if r != [] {
      KeptFits(r[|r| - 1], sorted[|r| - 1], budget - TotalOfAny(r, |r| - 1));
    }
  }

  lemma PrefixStaysSorted(r: seq<Entry>, sorted: seq<Entry>, budget: int)
    requires PrefixWithLastCut(r, sorted, budget) && SortedBy(sorted, Priority)
    ensures SortedBy(r, Priority)
  {
    forall i | 0 <= i < |r| ensures r[i].priority == sorted[i].priority {
    }
  }

  function CappedIf(assembled: seq<Entry>, limits: Option<Limits>): seq<Entry>
    requires limits.Some? ==> AllLimits(limits.value)
  {
    if limits.Some? then Capped(assembled, limits.value) else assembled
  }

  lemma SortMeasured(entries: seq<Entry>)
    requires Measured(entries)
    ensures Measured(Sort(entries, Priority)) && SortedBy(Sort(entries, Priority), Priority)
  {
    SortIsStable(entries, Priority, 0);
    forall i | 0 <= i < |Sort(entries, Priority)|
      ensures Sort(entries, Priority)[i].tokens == EstimateTokens(Sort(entries, Priority)[i].block)
    {
      assert Sort(entries, Priority)[i] in multiset(entries);
    }
  }

  /**
   * The kept blocks exceed the budget by at most four tokens; if anything was cut for it, they are a prefix in priority
   * order.
   */
  lemma KeptWithinBudget(assembled: seq<Entry>, budget: int, limits: Option<Limits>)
    requires limits.Some? ==> AllLimits(limits.value)
    requires Measured(assembled)
    ensures var capped := CappedIf(assembled, limits);
      var r := Enforced(assembled, budget, limits);
      && Total(r) <= (if budget > 0 then budget + 4 else 0)
      && Measured(r)
      && (if Total(capped) <= budget then r == capped
          else PrefixWithLastCut(r, Sort(capped, Priority), budget) && SortedBy(r, Priority))
  {
    if limits.Some? {
      CategoryWithinLimit(assembled, limits.value, Meta);
    }
    var capped := CappedIf(assembled, limits);
    if Total(capped) > budget {
      var sorted := Sort(capped, Priority);
      SortMeasured(capped);
      FittedWithinBudget(sorted, budget);
      FittedIsPrefix(sorted, budget);
      PrefixMeasured(Fitted(sorted, budget), sorted, budget);
      PrefixStaysSorted(Fitted(sorted, budget), sorted, budget);
    }
  }

  /** What is kept stems from the assembled entries by both passes: all that fits, or a prefix in priority order. */
  ghost predicate KeptByBoth(r: seq<Entry>, assembled: seq<Entry>, budget: int, limits: Option<Limits>)
    requires limits.Some? ==> AllLimits(limits.value)
  {
    exists capped ::
      && (if limits.None? then capped == assembled
          else exists places :: KeptFrom(capped, assembled, |assembled|, limits.value, places))
      && if Total(capped) <= budget then r == capped
         else PrefixWithLastCut(r, Sort(capped, Priority), budget) && SortedBy(r, Priority)
  }

  lemma BothPassesKeep(assembled: seq<Entry>, budget: int, limits: Option<Limits>)
    requires limits.Some? ==> AllLimits(limits.value)
    requires Measured(assembled)
    ensures KeptByBoth(Enforced(assembled, budget, limits), assembled, budget, limits)
  {
    KeptWithinBudget(assembled, budget, limits);
    if limits.Some? {
      FirstPassKeeps(assembled, limits.value);
    }
    assert Total(CappedIf(assembled, limits)) <= budget ==>
      Enforced(assembled, budget, limits) == CappedIf(assembled, limits);
  }

  // ----- The joined block -----

  function JoinFirst(entries: seq<Entry>, n: nat): string
    requires n <= |entries|
  {
    if n == 0 then ""
    else if n == 1 then entries[0].block
    else JoinFirst(entries, n - 1) + "\n\n" + entries[n - 1].block
  }

  function Join(entries: seq<Entry>): string {
    JoinFirst(entries, |entries|)
  }

  lemma {:induction false} JoinLength(entries: seq<Entry>, n: nat)
    requires Measured(entries) && n <= |entries|
    ensures |JoinFirst(entries, n)| <= 4 * TotalOfAny(entries, n) + (if n == 0 then 0 else 2 * (n - 1))
  {
    if n > 0 {
      JoinLength(entries, n - 1);
    }
  }

  /** Where block k begins in the joined text: after the blocks before it and their separators. */
  function StartOf(entries: seq<Entry>, k: nat): nat
    requires k <= |entries|
  {
    if k == 0 then 0 else StartOf(entries, k - 1) + |entries[k - 1].block| + 2
  }

  /** At that place the text has the block, after an empty line but for the first. */
  ghost predicate StandsAt(text: string, entries: seq<Entry>, k: nat)
    requires k < |entries|
  {
    var start, block := StartOf(entries, k), entries[k].block;
    && start + |block| <= |text| && text[start..start + |block|] == block
    && (k > 0 ==> text[start - 2..start] == "\n\n")
  }

  lemma {:induction false} JoinFirstLength(entries: seq<Entry>, n: nat)
    requires 0 < n <= |entries|
    ensures |JoinFirst(entries, n)| == StartOf(entries, n) - 2
  {
    if n > 1 {
      JoinFirstLength(entries, n - 1);
    } else {
      assert StartOf(entries, 0) == 0;
    }
  }

  lemma LastStands(first: string, text: string, block: string)
    requires text == first + "\n\n" + block
    ensures text[|first|..|first| + 2] == "\n\n" && text[|first| + 2..|first| + 2 + |block|] == block
  {
  }

  lemma {:induction false} JoinFirstHolds(entries: seq<Entry>, n: nat, k: nat)
    requires k < n <= |entries|
    ensures StandsAt(JoinFirst(entries, n), entries, k)
  {
    JoinFirstLength(entries, n);
    if n > 1 {
      var first := JoinFirst(entries, n - 1);
      JoinFirstLength(entries, n - 1);
      if k == n - 1 {
        LastStands(first, JoinFirst(entries, n), entries[k].block);
      } else {
        JoinFirstHolds(entries, n - 1, k);
        StandsLonger(first, JoinFirst(entries, n), entries, k);
      }
    }
  }

  lemma StandsLonger(text: string, longer: string, entries: seq<Entry>, k: nat)
    requires k < |entries| && StandsAt(text, entries, k) && text <= longer
    ensures StandsAt(longer, entries, k)
  {
    var start, block := StartOf(entries, k), entries[k].block;
    assert longer[start..start + |block|] == text[start..start + |block|];
    assert k > 0 ==> longer[start - 2..start] == text[start - 2..start];
  }

  /** The joined text consists of the blocks in order with an empty line between them, and nothing else. */
  lemma JoinHoldsBlocks(entries: seq<Entry>)
    ensures |Join(entries)| == if entries == [] then 0 else StartOf(entries, |entries|) - 2
    ensures forall k :: 0 <= k < |entries| ==> StandsAt(Join(entries), entries, k)
  {
    forall k | 0 <= k < |entries| ensures StandsAt(Join(entries), entries, k) {
      JoinFirstHolds(entries, |entries|, k);
    }
    if entries != [] {
      JoinFirstLength(entries, |entries|);
    }
  }

  /** The joined block of n slots exceeds a positive budget by at most 4 + ceil((n - 1) / 2) tokens. */
  lemma JoinedWithinBudget(assembled: seq<Entry>, budget: int, limits: Option<Limits>)
    requires limits.Some? ==> AllLimits(limits.value)
    requires Measured(assembled) && budget > 0
    ensures var r := Enforced(assembled, budget, limits);
      EstimateTokens(Join(r)) <= budget + 4 + |r| / 2
  {
    KeptWithinBudget(assembled, budget, limits);
    JoinLength(Enforced(assembled, budget, limits), |Enforced(assembled, budget, limits)|);
  }

  // ----- The loops -----

  method EnforceBudget(assembled: seq<Entry>, budget: int, limits: Option<Limits>) returns (r: seq<Entry>)
    requires limits.Some? ==> AllLimits(limits.value)
    requires Measured(assembled)
    ensures r == Enforced(assembled, budget, limits) && KeptByBoth(r, assembled, budget, limits)
  {
    BothPassesKeep(assembled, budget, limits);
    var capped := assembled;
    if limits.Some? {
      capped := CapCategories(assembled, limits.value);
    }
    var total := SumTokens(capped);
    if total <= budget {
      return capped;
    }
    r := FitSorted(Sort(capped, Priority), budget);
    KeptWithinBudget(assembled, budget, limits);
    SortOfSorted(r, Priority);
    r := Sort(r, Priority);
  }

  method SumTokens(entries: seq<Entry>) returns (total: nat)
    ensures total == Total(entries)
  {
    total := 0;
    for i := 0 to |entries|
      invariant total == TotalOfAny(entries, i)
    {
      total := total + entries[i].tokens;
    }
  }

  method FitSorted(sorted: seq<Entry>, budget: int) returns (r: seq<Entry>)
    ensures r == Fitted(sorted, budget) && PrefixWithLastCut(r, sorted, budget)
  {
    FittedIsPrefix(sorted, budget);
    var remaining := budget;
    r := [];
    var i := 0;
    while i < |sorted| && remaining > 0
      invariant 0 <= i <= |sorted|
      invariant (r, remaining) == FittedFirst(sorted, i, budget)
    {
      var entry := sorted[i];
      if entry.tokens <= remaining {
        r := r + [entry];
        remaining := remaining - entry.tokens;
      } else {
        r := r + [Trimmed(entry, remaining)];
        remaining := 0;
      }
      i := i + 1;
    }
    if remaining <= 0 {
      NothingMoreFits(sorted, i, |sorted|, budget);
    }
  }

  lemma {:induction false} NothingMoreFits(sorted: seq<Entry>, i: nat, n: nat, budget: int)
    requires i <= n <= |sorted| && FittedFirst(sorted, i, budget).1 <= 0
    ensures FittedFirst(sorted, n, budget) == FittedFirst(sorted, i, budget)
  {
    if i < n {
      NothingMoreFits(sorted, i, n - 1, budget);
    }
  }

  method CapCategories(assembled: seq<Entry>, limits: Limits) returns (capped: seq<Entry>)
    requires AllLimits(limits)
    ensures capped == Capped(assembled, limits)
    ensures exists places :: KeptFrom(capped, assembled, |assembled|, limits, places)
  {
    FirstPassKeeps(assembled, limits);
    var categoryUsed: map<Category, nat> := map[];
    capped := [];
    for i := 0 to |assembled|
      invariant (capped, categoryUsed) == CappedFirst(assembled, i, limits)
    {
      capped, categoryUsed := CapNext(capped, categoryUsed, assembled[i], limits);
    }
  }

  /** What is done to one entry. */
  method CapNext(capped: seq<Entry>, categoryUsed: map<Category, nat>, entry: Entry, limits: Limits)
    returns (capped': seq<Entry>, categoryUsed': map<Category, nat>)
    requires AllLimits(limits)
    ensures (capped', categoryUsed') == CapOne(capped, categoryUsed, entry, limits)
  {
    var used := if entry.category in categoryUsed then categoryUsed[entry.category] else 0;
    var remaining := limits[entry.category] - used;
    if remaining <= 0 {
      return capped, categoryUsed;
    }
    var kept := entry;
    if entry.tokens > remaining {
      kept := Trimmed(entry, remaining);
    }
    capped' := capped + [kept];
    categoryUsed' := categoryUsed[entry.category := used + kept.tokens];
  }

  // ----- Overrides -----

  /** Percentages of the budget, rounded down, in place of the base limits. */
  function Overridden(budget: int, base: Limits, overrides: map<Category, int>): Limits
    requires AllLimits(base)
  {
    map c | c in base :: if c in overrides then budget * overrides[c] / 100 else base[c]
  }

  method ApplyBudgetOverrides(budget: int, base: Limits, overrides: map<Category, int>) returns (limits: Limits)
    requires AllLimits(base)
    ensures AllLimits(limits) && limits == Overridden(budget, base, overrides)
    ensures forall c :: c in base && c !in overrides ==> limits[c] == base[c]
    ensures forall c :: c in overrides ==> 100 * limits[c] <= budget * overrides[c] < 100 * limits[c] + 100
  {
    limits := base;
    var todo := overrides.Keys;
    while todo != {}
      invariant todo <= overrides.Keys && AllLimits(limits) && limits.Keys == base.Keys
      invariant forall c :: c in base ==>
        limits[c] == if c in overrides && c !in todo then budget * overrides[c] / 100 else base[c]
      decreases |todo|
    {
      var cat :| cat in todo;
      limits := limits[cat := budget * overrides[cat] / 100];
      todo := todo - {cat};
    }
  }

  /** What a category is to get, in hundredths of a token. */
  function Share(budget: int, base: Limits, overrides: map<Category, int>, c: Category): int
    requires AllLimits(base)
  {
    if c in overrides then budget * overrides[c] else 100 * base[c]
  }

  lemma RoundedDown(budget: int, base: Limits, overrides: map<Category, int>, c: Category)
    requires AllLimits(base)
    ensures 100 * Overridden(budget, base, overrides)[c] <= Share(budget, base, overrides, c)
    ensures Share(budget, base, overrides, c) <= 100 * Overridden(budget, base, overrides)[c] + 99
  {
  }

  /** The limits together are the shares together, less than one token each short of them. */
  lemma LimitsAddUpToShares(budget: int, base: Limits, overrides: map<Category, int>)
    requires AllLimits(base)
    ensures var l := Overridden(budget, base, overrides);
      var limits := l[GoalDefinition] + l[Observations] + l[Knowledge] + l[TransferKnowledge] + l[Meta];
      var shares := Share(budget, base, overrides, GoalDefinition) + Share(budget, base, overrides, Observations) +
                    Share(budget, base, overrides, Knowledge) + Share(budget, base, overrides, TransferKnowledge) +
                    Share(budget, base, overrides, Meta);
      && 100 * limits <= shares < 100 * (limits + 5)
      && (shares <= 100 * budget ==> limits <= budget)
  {
    RoundedDown(budget, base, overrides, GoalDefinition);
    RoundedDown(budget, base, overrides, Observations);
    RoundedDown(budget, base, overrides, Knowledge);
    RoundedDown(budget, base, overrides, TransferKnowledge);
    RoundedDown(budget, base, overrides, Meta);
  }
}

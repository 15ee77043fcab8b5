/**
 The monthly partition planner, and its plan applied to a table of dated rows in RANGE partitions.
 Dropping a partition deletes its rows for good.
 */
module Partitions {
  import opened Wrappers
  import opened Text
  import opened Calendar

  datatype ExistingPartition = ExistingPartition(name: string, upperBound: Option<string>)

  datatype NewPartition = NewPartition(name: string, upperBound: string)

  datatype Plan = Plan(add: seq<NewPartition>, drop: seq<string>)

  datatype RangeError = RangeError

  /** `p_2026_09` for the month before `upper`. */
  function MonthName(upper: nat): string
    requires upper > 0
  {
    "p_" + Decimal((upper - 1) / 12) + "_" + Padded((upper - 1) % 12 + 1, 2)
  }

  // ---------- The plan ----------

  predicate IsPast(upperBound: Option<string>, cutoff: string) {
    upperBound.Some? && AtMost(upperBound.value, cutoff)
  }

  function Dropped(existing: seq<ExistingPartition>, cutoff: string): seq<string> {
    if |existing| == 0 then []
    else
      var last := existing[|existing| - 1];
      Dropped(existing[..|existing| - 1], cutoff) + if IsPast(last.upperBound, cutoff) then [last.name] else []
  }

  /** The largest bound as strings go. */
  function Highest(existing: seq<ExistingPartition>): Option<string> {
    if |existing| == 0 then None
    else
      var before, bound := Highest(existing[..|existing| - 1]), existing[|existing| - 1].upperBound;
      if bound.Some? && (before.None? || Less(before.value, bound.value)) then bound else before
  }

  /** The partition that ends at the first of a month. */
  function Ending(upper: nat): NewPartition
    requires 0 < upper <= LAST_MONTH
  {
    NewPartition(MonthName(upper), FirstText(upper))
  }

  predicate Covers(highest: Option<string>, upper: string) {
    highest.Some? && AtMost(upper, highest.value)
  }

  /** The months from the one after `now` on, each as the partition of the month before it. */
  function Candidates(now: nat, count: nat): (c: seq<NewPartition>)
    requires now + count <= LAST_MONTH
    ensures |c| == count
  {
    seq(count, k requires 0 <= k < count => Ending(now + 1 + k))
  }

  /** The candidates above the highest bound. */
  function Added(highest: Option<string>, candidates: seq<NewPartition>): seq<NewPartition> {
    if |candidates| == 0 then []
    else
      var p := candidates[|candidates| - 1];
      Added(highest, candidates[..|candidates| - 1]) + if Covers(highest, p.upperBound) then [] else [p]
  }

  /** The first month kept. */
  function Cutoff(now: nat, retentionMonths: int): int {
    now - retentionMonths
  }

  /** The months looked at: those ahead, and the end of the current one. */
  function MonthsChecked(aheadMonths: nat): nat {
    aheadMonths + 1
  }

  /** `now` and the plan's months count from January of the year 0. */
  function Planned(existing: seq<ExistingPartition>, now: nat, retentionMonths: int, aheadMonths: nat): Plan
    requires now + aheadMonths + 1 <= LAST_MONTH && retentionMonths >= 1
  {
    Plan(Added(Highest(existing), Candidates(now, MonthsChecked(aheadMonths))), Dropped(existing, FirstText(Cutoff(now, retentionMonths))))
  }

  method PastRetention(existing: seq<ExistingPartition>, cutoff: string) returns (drop: seq<string>)
    ensures drop == Dropped(existing, cutoff)
  {
    drop := [];
    var k := 0;
    while k < |existing|
      invariant 0 <= k <= |existing| && drop == Dropped(existing[..k], cutoff)
    {
      assert existing[..k + 1][..k] == existing[..k];
      if existing[k].upperBound.Some? && AtMost(existing[k].upperBound.value, cutoff) {
        drop := drop + [existing[k].name];
      }
      k := k + 1;
    }
    assert existing[..k] == existing;
  }

  method HighestBound(existing: seq<ExistingPartition>) returns (highest: Option<string>)
    ensures highest == Highest(existing)
  {
    highest := None;
    var k := 0;
    while k < |existing|
      invariant 0 <= k <= |existing| && highest == Highest(existing[..k])
    {
      assert existing[..k + 1][..k] == existing[..k];
      var bound := existing[k].upperBound;
      if bound.Some? && (highest.None? || Less(highest.value, bound.value)) {
        highest := bound;
      }
      k := k + 1;
    }
    assert existing[..k] == existing;
  }

  method NotCovered(highest: Option<string>, candidates: seq<NewPartition>) returns (add: seq<NewPartition>)
    ensures add == Added(highest, candidates)
  {
    add := [];
    var k := 0;
    while k < |candidates|
      invariant 0 <= k <= |candidates| && add == Added(highest, candidates[..k])
    {
      assert candidates[..k + 1][..k] == candidates[..k];
      if !Covers(highest, candidates[k].upperBound) {
        add := add + [candidates[k]];
      }
      k := k + 1;
    }
    assert candidates[..k] == candidates;
  }

  method PlanMonthlyPartitions(existing: seq<ExistingPartition>, now: nat, retentionMonths: int, aheadMonths: nat)
      returns (r: Result<Plan, RangeError>)
    requires now + aheadMonths + 1 <= LAST_MONTH
    ensures r.Err? <==> retentionMonths < 1
    ensures r.Ok? ==> r.value == Planned(existing, now, retentionMonths, aheadMonths)
  {
    if retentionMonths < 1 {
      return Err(RangeError);
    }
    var drop := PastRetention(existing, FirstText(Cutoff(now, retentionMonths)));
    var highest := HighestBound(existing);
    var add := NotCovered(highest, Candidates(now, MonthsChecked(aheadMonths)));
    r := Ok(Plan(add, drop));
  }

  // ---------- The table ----------

  datatype Row = Row(id: nat, date: Date)

  /** No bound is `MAXVALUE`. */
  datatype Partition = Partition(name: string, bound: Option<Date>, rows: set<Row>)

  predicate Bounded(t: seq<Partition>) {
    forall i :: 0 <= i < |t| ==> (if t[i].bound.Some? then IsDate(t[i].bound.value) else i == |t| - 1)
  }

  predicate Ascending(t: seq<Partition>)
    requires Bounded(t)
  {
    forall i, j :: 0 <= i < j < |t| && t[j].bound.Some? ==> Before(t[i].bound.value, t[j].bound.value)
  }

  /** A partition takes the dates below its own bound, from the bound before it on. */
  predicate Takes(t: seq<Partition>, i: nat, d: Date)
    requires Bounded(t) && i < |t|
  {
    && (t[i].bound.Some? ==> Before(d, t[i].bound.value))
    && (i > 0 ==> !Before(d, t[i - 1].bound.value))
  }

  /** Bounds ascend, `MAXVALUE` comes last if at all, and every row is where its date belongs. */
  ghost predicate Placed(t: seq<Partition>) {
    && Bounded(t)
    && Ascending(t)
    && forall i, r :: 0 <= i < |t| && r in t[i].rows ==> IsDate(r.date) && Takes(t, i, r.date)
  }

  /** The names these tables are created with. */
  predicate Conventional(t: seq<Partition>)
    requires Bounded(t)
  {
    forall i :: 0 <= i < |t| ==>
      match t[i].bound
      case None => t[i].name == "p_max"
      case Some(d) => (i == 0 && t[i].name == "p_before") || (d.day == 1 && d.month > 0 && t[i].name == MonthName(d.month))
  }

  predicate Stores(t: seq<Partition>, r: Row) {
    exists i :: 0 <= i < |t| && r in t[i].rows
  }

  /** The table as `information_schema` shows it. */
  function Existing(t: seq<Partition>): (e: seq<ExistingPartition>)
    ensures |e| == |t|
  {
    seq(|t|, i requires 0 <= i < |t| =>
      ExistingPartition(t[i].name, if t[i].bound.Some? then Some(DateText(t[i].bound.value)) else None))
  }

  // ---------- The two statements ----------

  /** A partition to add, as the database reads it. */
  datatype Slot = Slot(name: string, bound: Date)

  function SlotOf(p: NewPartition): Slot {
    Slot(p.name, if IsDateText(p.upperBound) then DateOf(p.upperBound) else Date(0, 0))
  }

  function SlotsOf(add: seq<NewPartition>): (slots: seq<Slot>)
    ensures |slots| == |add|
  {
    seq(|add|, k requires 0 <= k < |add| => SlotOf(add[k]))
  }

  /** The rows the `k`-th new partition takes from the catch-all. */
  function Carved(slots: seq<Slot>, k: nat, rows: set<Row>): set<Row>
    requires k <= |slots|
  {
    set r | r in rows && (k < |slots| ==> Before(r.date, slots[k].bound)) && (k > 0 ==> !Before(r.date, slots[k - 1].bound))
  }

  function NewOnes(slots: seq<Slot>, rows: set<Row>): seq<Partition> {
    seq(|slots|, k requires 0 <= k < |slots| => Partition(slots[k].name, Some(slots[k].bound), Carved(slots, k, rows)))
  }

  predicate HasCatchAll(t: seq<Partition>) {
    |t| > 0 && t[|t| - 1].bound.None?
  }

  /** ALTER TABLE … REORGANIZE PARTITION the catch-all INTO (…), or … ADD PARTITION when there is none. */
  function Reorganized(t: seq<Partition>, slots: seq<Slot>): seq<Partition> {
    if HasCatchAll(t) then
      var rows := t[|t| - 1].rows;
      t[..|t| - 1] + NewOnes(slots, rows) + [t[|t| - 1].(rows := Carved(slots, |slots|, rows))]
    else t + NewOnes(slots, {})
  }

  /** ALTER TABLE … DROP PARTITION. */
  function Without(t: seq<Partition>, names: seq<string>): seq<Partition> {
    if |t| == 0 then []
    else if t[0].name in names then Without(t[1..], names)
    else [t[0]] + Without(t[1..], names)
  }

  /** Months are added before old ones are dropped, so there is always a partition left. */
  function Maintained(t: seq<Partition>, plan: Plan): seq<Partition> {
    Without(if |plan.add| == 0 then t else Reorganized(t, SlotsOf(plan.add)), plan.drop)
  }

  // ---------- What the plan means for dates ----------

  function LastBound(t: seq<Partition>): Option<Date> {
    if |t| == 0 then None
    else if t[|t| - 1].bound.Some? then t[|t| - 1].bound
    else if |t| == 1 then None
    else t[|t| - 2].bound
  }

  function TextOf(bound: Option<Date>): Option<string> {
    if bound.Some? then Some(DateText(bound.value)) else None
  }

  lemma {:induction false} HighestIsTheLastBound(t: seq<Partition>)
    requires Bounded(t) && Ascending(t)
    ensures Highest(Existing(t)) == TextOf(LastBound(t))
  {
    if |t| > 0 {
      var n := |t| - 1;
      assert Existing(t)[..n] == Existing(t[..n]);
      HighestIsTheLastBound(t[..n]);
      if t[n].bound.Some? && n > 0 {
        TextOrder(t[n - 1].bound.value, t[n].bound.value);
      }
    }
  }

  /** A partition's rows are all past retention. */
  predicate Expired(bound: Option<Date>, cutoff: int)
    requires cutoff <= LAST_MONTH
  {
    bound.Some? && cutoff >= 0 && !Before(Date(cutoff, 1), bound.value)
  }

  lemma {:induction false} PastIsExpired(bound: Option<Date>, cutoff: int)
    requires cutoff <= LAST_MONTH && (bound.Some? ==> IsDate(bound.value))
    ensures IsPast(TextOf(bound), FirstText(cutoff)) <==> Expired(bound, cutoff)
  {
    if bound.Some? {
      if cutoff >= 0 {
        AtMostIsNotAfter(bound.value, Date(cutoff, 1));
      } else {
        NegativeYearsSortFirst(bound.value, cutoff);
      }
    }
  }

  predicate DropsAt(t: seq<Partition>, i: nat, cutoff: int, name: string)
    requires i < |t| && cutoff <= LAST_MONTH
  {
    t[i].name == name && Expired(t[i].bound, cutoff)
  }

  lemma {:induction false} ExpiredIsDropped(t: seq<Partition>, cutoff: int, i: nat)
    requires Bounded(t) && cutoff <= LAST_MONTH && i < |t| && Expired(t[i].bound, cutoff)
    ensures t[i].name in Dropped(Existing(t), FirstText(cutoff))
  {
    var n := |t| - 1;
    assert Existing(t)[..n] == Existing(t[..n]);
    if i == n {
      PastIsExpired(t[n].bound, cutoff);
    } else {
      ExpiredIsDropped(t[..n], cutoff, i);
    }
  }

  lemma {:induction false} DroppedIsExpired(t: seq<Partition>, cutoff: int, name: string) returns (i: nat)
    requires Bounded(t) && cutoff <= LAST_MONTH && name in Dropped(Existing(t), FirstText(cutoff))
    ensures i < |t| && DropsAt(t, i, cutoff, name)
  {
    var n := |t| - 1;
    assert Existing(t)[..n] == Existing(t[..n]);
    PastIsExpired(t[n].bound, cutoff);
    if name in Dropped(Existing(t[..n]), FirstText(cutoff)) {
      i := DroppedIsExpired(t[..n], cutoff, name);
    } else {
      i := n;
    }
  }

  function MonthAfter(now: nat, k: nat): nat {
    now + k
  }

  /** The first day beyond the months looked at. */
  function Horizon(now: nat, count: nat): Date {
    Date(MonthAfter(now, count), 1)
  }

  /** The months added, by number. */
  function Uppers(highest: Option<Date>, now: nat, count: nat): (u: seq<nat>)
    ensures forall k :: 0 <= k < |u| ==> now < u[k] <= now + count
  {
    if count == 0 then []
    else Uppers(highest, now, count - 1) + if Reached(highest, MonthAfter(now, count)) then [] else [MonthAfter(now, count)]
  }

  lemma {:induction false} EndingReadsBack(u: nat)
    requires 0 < u <= LAST_MONTH
    ensures SlotOf(Ending(u)) == Slot(MonthName(u), Date(u, 1))
  {
    DateReadsBack(Date(u, 1));
  }

  predicate Reached(highest: Option<Date>, u: nat) {
    highest.Some? && !Before(highest.value, Date(u, 1))
  }

  lemma {:induction false} CoversIsReached(highest: Option<Date>, u: nat)
    requires 0 < u <= LAST_MONTH && (highest.Some? ==> IsDate(highest.value))
    ensures Covers(TextOf(highest), Ending(u).upperBound) <==> Reached(highest, u)
  {
    if highest.Some? {
      AtMostIsNotAfter(Date(u, 1), highest.value);
    }
  }

  lemma {:induction false} AddedByMonth(text: Option<string>, highest: Option<Date>, now: nat, candidates: seq<NewPartition>)
    requires forall k :: 0 <= k < |candidates| ==> (Covers(text, candidates[k].upperBound) <==> Reached(highest, MonthAfter(now, k + 1)))
    ensures var add, u := Added(text, candidates), Uppers(highest, now, |candidates|);
            |add| == |u| && forall k :: 0 <= k < |u| ==> add[k] == candidates[u[k] - now - 1]
  {
    if |candidates| > 0 {
      var n := |candidates| - 1;
      AddedByMonth(text, highest, now, candidates[..n]);
    }
  }

  lemma {:induction false} CandidateIsEnding(now: nat, count: nat, u: nat)
    requires now < u <= now + count <= LAST_MONTH
    ensures Candidates(now, count)[u - now - 1] == Ending(u)
  {
  }

  lemma {:induction false} CandidateIsCovered(highest: Option<Date>, now: nat, count: nat, k: nat)
    requires now + count <= LAST_MONTH && k < count && (highest.Some? ==> IsDate(highest.value))
    ensures Covers(TextOf(highest), Candidates(now, count)[k].upperBound) <==> Reached(highest, MonthAfter(now, k + 1))
  {
    var u := MonthAfter(now, k + 1);
    CandidateIsEnding(now, count, u);
    CoversIsReached(highest, u);
  }

  /** The planner's text comparisons pick the months the dates call for. */
  lemma {:induction false} AddedAreUppers(highest: Option<Date>, now: nat, count: nat)
    requires now + count <= LAST_MONTH && (highest.Some? ==> IsDate(highest.value))
    ensures var add, u := Added(TextOf(highest), Candidates(now, count)), Uppers(highest, now, count);
            |add| == |u| && forall k :: 0 <= k < |u| ==> add[k] == Candidates(now, count)[u[k] - now - 1]
  {
    var candidates := Candidates(now, count);
    forall k | 0 <= k < count
      ensures Covers(TextOf(highest), candidates[k].upperBound) <==> Reached(highest, MonthAfter(now, k + 1))
    {
      CandidateIsCovered(highest, now, count, k);
    }
    AddedByMonth(TextOf(highest), highest, now, candidates);
  }

  /** The new bounds strictly increase above every existing one, and reach the end of the look-ahead unless it was reached already. */
  lemma {:induction false} UppersReachAhead(highest: Option<Date>, now: nat, count: nat)
    requires highest.Some? ==> IsDate(highest.value)
    ensures var u := Uppers(highest, now, count);
            && (forall i, j :: 0 <= i < j < |u| ==> u[i] < u[j])
            && (forall k :: 0 <= k < |u| ==> !Reached(highest, u[k]))
            && (count > 0 ==> if Reached(highest, MonthAfter(now, count)) then |u| == 0
                              else |u| > 0 && u[|u| - 1] == MonthAfter(now, count))
  {
    if count > 0 {
      UppersReachAhead(highest, now, count - 1);
    }
  }
}

/**
 What a maintenance pass does to a table's rows: nothing within retention is lost, what goes is known
 exactly, the months ahead never fall to the catch-all, and a second pass finds nothing to do.
 */
module PartitionTheorems {
  import opened Wrappers
  import opened Text
  import opened Calendar
  import opened Partitions

  // ---------- Names ----------

  lemma {:induction false} MonthNameIsOneToOne(a: nat, b: nat)
    requires a > 0 && b > 0 && MonthName(a) == MonthName(b)
    ensures a == b
  {
    var ya, yb, ma, mb := Decimal((a - 1) / 12), Decimal((b - 1) / 12), Padded((a - 1) % 12 + 1, 2), Padded((b - 1) % 12 + 1, 2);
    var n := |MonthName(a)|;
    assert MonthName(a)[n - 2..] == ma && MonthName(b)[n - 2..] == mb;
    assert MonthName(a)[2..n - 3] == ya && MonthName(b)[2..n - 3] == yb;
    PowersOfTen();
    PaddedOrder((a - 1) % 12 + 1, (b - 1) % 12 + 1, 2);
    DecimalIsOneToOne((a - 1) / 12, (b - 1) / 12);
  }

  lemma {:induction false} MonthNameIsNeither(a: nat)
    requires a > 0
    ensures MonthName(a) != "p_before" && MonthName(a) != "p_max"
  {
    DecimalStarts((a - 1) / 12);
    assert MonthName(a)[2] == Decimal((a - 1) / 12)[0];
    assert "p_before"[2] == 'b' && "p_max"[2] == 'm';
  }

  lemma {:induction false} DecimalStarts(n: nat)
    ensures '0' <= Decimal(n)[0] <= '9'
  {
    if n >= 10 {
      DecimalStarts(n / 10);
    }
  }

  /** Conventional names tell partitions apart. */
  lemma {:induction false} NamesDiffer(t: seq<Partition>, i: nat, j: nat)
    requires Bounded(t) && Ascending(t) && Conventional(t) && i < j < |t|
    ensures t[i].name != t[j].name
  {
    var a, b := t[i].bound, t[j].bound;
    if b.Some? {
      MonthNameIsNeither(b.value.month);
      if t[i].name == t[j].name {
        MonthNameIsOneToOne(a.value.month, b.value.month);
      }
    } else if t[i].name != "p_before" {
      MonthNameIsNeither(a.value.month);
    }
  }

  // ---------- Adding months ----------

  /** New partitions above every existing bound, in order, and conventionally named. */
  ghost predicate Fits(t: seq<Partition>, slots: seq<Slot>) {
    && (forall k :: 0 <= k < |slots| ==> IsNewMonth(slots[k]))
    && (forall k :: 0 <= k < |slots| ==> LastBound(t).None? || Before(LastBound(t).value, slots[k].bound))
    && (forall k, l :: 0 <= k < l < |slots| ==> Before(slots[k].bound, slots[l].bound))
  }

  predicate IsNewMonth(p: Slot) {
    IsDate(p.bound) && p.bound.day == 1 && p.bound.month > 0 && p.name == MonthName(p.bound.month)
  }

  lemma {:induction false} CandidateReadsBack(now: nat, count: nat, u: nat)
    requires now < u <= now + count <= LAST_MONTH
    ensures SlotOf(Candidates(now, count)[u - now - 1]) == Slot(MonthName(u), Date(u, 1))
  {
    CandidateIsEnding(now, count, u);
    EndingReadsBack(u);
  }

  /** The months the dates call for: those of the look-ahead above the last bound. */
  ghost predicate Calls(t: seq<Partition>, now: nat, count: nat, slots: seq<Slot>) {
    var u := Uppers(LastBound(t), now, count);
    |slots| == |u| && forall k :: 0 <= k < |u| ==> slots[k] == Slot(MonthName(u[k]), Date(u[k], 1))
  }

  /** The months added, as the database reads them, are the ones called for. */
  lemma {:induction false} SlotsAreUppers(t: seq<Partition>, now: nat, aheadMonths: nat)
    requires Bounded(t) && Ascending(t) && now + aheadMonths + 1 <= LAST_MONTH
    ensures Calls(t, now, MonthsChecked(aheadMonths), SlotsOf(Added(Highest(Existing(t)), Candidates(now, MonthsChecked(aheadMonths)))))
  {
    HighestIsTheLastBound(t);
    AddedAreUppers(LastBound(t), now, MonthsChecked(aheadMonths));
    var u := Uppers(LastBound(t), now, MonthsChecked(aheadMonths));
    var add := Added(Highest(Existing(t)), Candidates(now, MonthsChecked(aheadMonths)));
    forall k | 0 <= k < |u|
      ensures SlotOf(add[k]) == Slot(MonthName(u[k]), Date(u[k], 1))
    {
      CandidateReadsBack(now, MonthsChecked(aheadMonths), u[k]);
    }
  }

  lemma {:induction false} UppersFit(t: seq<Partition>, now: nat, count: nat, slots: seq<Slot>)
    requires Bounded(t) && now + count <= LAST_MONTH && Calls(t, now, count, slots)
    ensures Fits(t, slots)
  {
    UppersReachAhead(LastBound(t), now, count);
    var u := Uppers(LastBound(t), now, count);
    forall k | 0 <= k < |u|
      ensures LastBound(t).None? || Before(LastBound(t).value, slots[k].bound)
    {
      assert !Partitions.Reached(LastBound(t), u[k]);
    }
  }

  /** The partitions below the catch-all. */
  function Front(t: seq<Partition>): (f: seq<Partition>)
    ensures |f| <= |t| && f == t[..|f|]
  {
    if HasCatchAll(t) then t[..|t| - 1] else t
  }

  lemma {:induction false} FrontIsBelow(t: seq<Partition>, i: nat, d: Date)
    requires Bounded(t) && Ascending(t) && i < |Front(t)| && (LastBound(t).None? || Before(LastBound(t).value, d))
    ensures t[i].bound.Some? && Before(t[i].bound.value, d)
  {
    var last := |Front(t)| - 1;
    assert LastBound(t) == t[last].bound;
  }

  /** The bounds of `s`: those of `t` below the catch-all, then the new ones, then the catch-all. */
  ghost predicate Extends(s: seq<Partition>, t: seq<Partition>, slots: seq<Slot>) {
    var f := |Front(t)|;
    && |s| == |t| + |slots|
    && (forall i :: 0 <= i < f ==> s[i] == t[i])
    && (forall i :: f <= i < f + |slots| ==> s[i].bound == Some(slots[i - f].bound) && s[i].name == slots[i - f].name)
    && (f < |t| ==> s[|s| - 1].bound.None? && s[|s| - 1].name == t[f].name)
  }

  lemma {:induction false} ReorganizedExtends(t: seq<Partition>, slots: seq<Slot>)
    ensures Extends(Reorganized(t, slots), t, slots)
  {
  }

  lemma {:induction false} ExtendedBounds(s: seq<Partition>, t: seq<Partition>, slots: seq<Slot>)
    requires Bounded(t) && Ascending(t) && Fits(t, slots) && Extends(s, t, slots)
    ensures Bounded(s) && Ascending(s)
  {
    var f := |Front(t)|;
    assert Bounded(s) by {
      forall i | 0 <= i < |s|
        ensures if s[i].bound.Some? then IsDate(s[i].bound.value) else i == |s| - 1
      {
        if f <= i < f + |slots| {
          assert IsNewMonth(slots[i - f]);
        }
      }
    }
    forall i, j | 0 <= i < j < |s| && s[j].bound.Some?
      ensures Before(s[i].bound.value, s[j].bound.value)
    {
      if j >= f && i < f {
        FrontIsBelow(t, i, slots[j - f].bound);
      }
    }
  }

  lemma {:induction false} ReorganizedBounds(t: seq<Partition>, slots: seq<Slot>)
    requires Bounded(t) && Ascending(t) && Fits(t, slots)
    ensures Bounded(Reorganized(t, slots)) && Ascending(Reorganized(t, slots))
    ensures Extends(Reorganized(t, slots), t, slots)
  {
    ReorganizedExtends(t, slots);
    ExtendedBounds(Reorganized(t, slots), t, slots);
  }

  lemma {:induction false} ExtendedNames(s: seq<Partition>, t: seq<Partition>, slots: seq<Slot>)
    requires Bounded(t) && Fits(t, slots) && Extends(s, t, slots) && Bounded(s) && Conventional(t)
    ensures Conventional(s)
  {
    var f := |Front(t)|;
    forall i | 0 <= i < |s|
      ensures match s[i].bound
              case None => s[i].name == "p_max"
              case Some(d) => (i == 0 && s[i].name == "p_before") || (d.day == 1 && d.month > 0 && s[i].name == MonthName(d.month))
    {
      if f <= i < f + |slots| {
        assert IsNewMonth(slots[i - f]);
      }
    }
  }

  lemma {:induction false} ReorganizedNames(t: seq<Partition>, slots: seq<Slot>)
    requires Bounded(t) && Ascending(t) && Fits(t, slots) && Conventional(t)
    ensures Bounded(Reorganized(t, slots)) && Conventional(Reorganized(t, slots))
  {
    ReorganizedBounds(t, slots);
    ExtendedNames(Reorganized(t, slots), t, slots);
  }

  lemma {:induction false} ReorganizedRow(t: seq<Partition>, slots: seq<Slot>, i: nat, r: Row)
    requires Placed(t) && Fits(t, slots) && i < |t| + |slots|
    requires Bounded(Reorganized(t, slots)) && |Reorganized(t, slots)| == |t| + |slots| && r in Reorganized(t, slots)[i].rows
    ensures IsDate(r.date) && Takes(Reorganized(t, slots), i, r.date) && Stores(t, r)
  {
    var s, f := Reorganized(t, slots), |Front(t)|;
    if i < f {
      assert r in t[i].rows;
    } else if HasCatchAll(t) {
      var k := i - f;
      assert r in Carved(slots, k, t[f].rows) && r in t[f].rows;
      if k > 0 {
        assert s[i - 1].bound == Some(slots[k - 1].bound);
      }
    }
  }

  /** The first new partition that takes the row's date, or the catch-all after them. */
  function SlotFor(slots: seq<Slot>, d: Date): (k: nat)
    ensures k <= |slots|
    ensures k < |slots| ==> Before(d, slots[k].bound)
    ensures k > 0 ==> !Before(d, slots[k - 1].bound)
  {
    if |slots| == 0 then 0
    else
      var n := |slots| - 1;
      var k := SlotFor(slots[..n], d);
      if k < n then k else if Before(d, slots[n].bound) then n else n + 1
  }

  /** Reorganizing loses no row. */
  lemma {:induction false} ReorganizedStores(t: seq<Partition>, slots: seq<Slot>, r: Row)
    requires Placed(t) && Stores(t, r)
    ensures Stores(Reorganized(t, slots), r)
  {
    var s, f := Reorganized(t, slots), |Front(t)|;
    var i :| 0 <= i < |t| && r in t[i].rows;
    if i < f {
      assert s[i] == t[i];
    } else {
      var k := SlotFor(slots, r.date);
      assert r in Carved(slots, k, t[f].rows);
      assert r in s[f + k].rows;
    }
  }

  lemma {:induction false} ReorganizedIsPlaced(t: seq<Partition>, slots: seq<Slot>)
    requires Placed(t) && Fits(t, slots)
    ensures Placed(Reorganized(t, slots))
  {
    ReorganizedBounds(t, slots);
    forall i, r | 0 <= i < |t| + |slots| && r in Reorganized(t, slots)[i].rows
      ensures IsDate(r.date) && Takes(Reorganized(t, slots), i, r.date)
    {
      ReorganizedRow(t, slots, i, r);
    }
  }

  lemma {:induction false} NothingToAdd(t: seq<Partition>)
    ensures Reorganized(t, []) == t
  {
    if HasCatchAll(t) {
      var n := |t| - 1;
      assert Carved([], 0, t[n].rows) == t[n].rows;
      assert NewOnes([], t[n].rows) == [];
    }
  }

  // ---------- Dropping the old ----------

  /** The expired partitions come first; this is how many there are. */
  function ExpiredCount(t: seq<Partition>, cutoff: int): (k: nat)
    requires cutoff <= LAST_MONTH
    ensures k <= |t| && (k < |t| ==> !Expired(t[k].bound, cutoff))
    ensures forall i :: 0 <= i < k ==> Expired(t[i].bound, cutoff)
  {
    if |t| == 0 || !Expired(t[0].bound, cutoff) then 0 else 1 + ExpiredCount(t[1..], cutoff)
  }

  lemma {:induction false} OnlyTheFirstExpire(t: seq<Partition>, cutoff: int, i: nat)
    requires Bounded(t) && Ascending(t) && cutoff <= LAST_MONTH && ExpiredCount(t, cutoff) <= i < |t|
    ensures !Expired(t[i].bound, cutoff)
  {
    var k := ExpiredCount(t, cutoff);
    if i > k && t[i].bound.Some? {
      assert Before(t[k].bound.value, t[i].bound.value);
    }
  }

  lemma {:induction false} WithoutIsSuffix(t: seq<Partition>, names: seq<string>, k: nat)
    requires k <= |t| && (forall i :: 0 <= i < k ==> t[i].name in names)
    requires forall i :: k <= i < |t| ==> t[i].name !in names
    ensures Without(t, names) == t[k..]
  {
    if |t| > 0 {
      WithoutIsSuffix(t[1..], names, if k > 0 then k - 1 else 0);
    }
  }

  /** The plan of a pass, and the table with its months added. */
  function PlanFor(t: seq<Partition>, now: nat, retentionMonths: int, aheadMonths: nat): Plan
    requires now + aheadMonths + 1 <= LAST_MONTH && retentionMonths >= 1
  {
    Planned(Existing(t), now, retentionMonths, aheadMonths)
  }

  ghost predicate Ready(t: seq<Partition>, now: nat, retentionMonths: int, aheadMonths: nat) {
    && Placed(t) && Conventional(t)
    && now + aheadMonths + 1 <= LAST_MONTH && retentionMonths >= 1
  }

  function Kept(t: seq<Partition>, now: nat, retentionMonths: int, aheadMonths: nat): seq<Partition>
    requires now + aheadMonths + 1 <= LAST_MONTH && retentionMonths >= 1
  {
    Maintained(t, PlanFor(t, now, retentionMonths, aheadMonths))
  }

  lemma {:induction false} SurvivorsAreNotDropped(t: seq<Partition>, s: seq<Partition>, cutoff: int, i: nat)
    requires Bounded(t) && Ascending(t) && Bounded(s) && Ascending(s) && Conventional(s) && cutoff <= LAST_MONTH
    requires |Front(t)| <= |s| && (forall j :: 0 <= j < |Front(t)| ==> s[j] == t[j])
    requires ExpiredCount(t, cutoff) <= i < |s|
    ensures s[i].name !in Dropped(Existing(t), FirstText(cutoff))
  {
    if s[i].name in Dropped(Existing(t), FirstText(cutoff)) {
      var j := DroppedIsExpired(t, cutoff, s[i].name);
      if j >= ExpiredCount(t, cutoff) {
        OnlyTheFirstExpire(t, cutoff, j);
      }
      NamesDiffer(s, j, i);
    }
  }

  /** What a pass does, its new partitions given. */
  ghost predicate IsPlanned(t: seq<Partition>, slots: seq<Slot>, cutoff: int, kept: seq<Partition>) {
    cutoff <= LAST_MONTH && kept == Without(Reorganized(t, slots), Dropped(Existing(t), FirstText(cutoff)))
  }

  lemma {:induction false} DropIsSuffix(t: seq<Partition>, slots: seq<Slot>, cutoff: int, kept: seq<Partition>)
    requires Placed(t) && Conventional(t) && Fits(t, slots) && cutoff <= LAST_MONTH
    requires IsPlanned(t, slots, cutoff, kept)
    ensures var k := ExpiredCount(t, cutoff);
            && k <= |Front(t)| <= |Reorganized(t, slots)|
            && kept == Reorganized(t, slots)[k..]
  {
    var s, k, names := Reorganized(t, slots), ExpiredCount(t, cutoff), Dropped(Existing(t), FirstText(cutoff));
    ReorganizedBounds(t, slots);
    ReorganizedNames(t, slots);
    forall i | 0 <= i < k
      ensures s[i].name in names
    {
      ExpiredIsDropped(t, cutoff, i);
    }
    forall i | k <= i < |s|
      ensures s[i].name !in names
    {
      SurvivorsAreNotDropped(t, s, cutoff, i);
    }
    WithoutIsSuffix(s, names, k);
  }

  /** The slots a pass adds, and the table it leaves in terms of them. */
  lemma {:induction false} PlanSlots(t: seq<Partition>, now: nat, retentionMonths: int, aheadMonths: nat) returns (slots: seq<Slot>)
    requires Bounded(t) && Ascending(t) && now + aheadMonths + 1 <= LAST_MONTH && retentionMonths >= 1
    ensures Calls(t, now, MonthsChecked(aheadMonths), slots)
    ensures IsPlanned(t, slots, Cutoff(now, retentionMonths), Kept(t, now, retentionMonths, aheadMonths))
  {
    slots := SlotsOf(PlanFor(t, now, retentionMonths, aheadMonths).add);
    SlotsAreUppers(t, now, aheadMonths);
    if |slots| == 0 {
      NothingToAdd(t);
    }
  }

  /** A pass leaves the extended table without its expired front. */
  ghost predicate IsPass(t: seq<Partition>, slots: seq<Slot>, kept: seq<Partition>, now: nat, cutoff: int, count: nat) {
    && Placed(t) && Conventional(t) && cutoff < now && 0 < count && now + count <= LAST_MONTH
    && Fits(t, slots) && Calls(t, now, count, slots)
    && ExpiredCount(t, cutoff) <= |Front(t)|
    && kept == Reorganized(t, slots)[ExpiredCount(t, cutoff)..]
  }

  lemma {:induction false} KeptIsPass(t: seq<Partition>, now: nat, retentionMonths: int, aheadMonths: nat) returns (slots: seq<Slot>)
    requires Ready(t, now, retentionMonths, aheadMonths)
    ensures IsPass(t, slots, Kept(t, now, retentionMonths, aheadMonths), now, Cutoff(now, retentionMonths), MonthsChecked(aheadMonths))
  {
    slots := PlanSlots(t, now, retentionMonths, aheadMonths);
    UppersFit(t, now, MonthsChecked(aheadMonths), slots);
    DropIsSuffix(t, slots, Cutoff(now, retentionMonths), Kept(t, now, retentionMonths, aheadMonths));
  }

  lemma {:induction false} SuffixIsPlaced(s: seq<Partition>, k: nat)
    requires Placed(s) && k <= |s|
    ensures Placed(s[k..])
    ensures Conventional(s) ==> Conventional(s[k..])
  {
  }

  lemma {:induction false} PassIsPlaced(t: seq<Partition>, slots: seq<Slot>, kept: seq<Partition>, now: nat, cutoff: int, count: nat)
    requires IsPass(t, slots, kept, now, cutoff, count)
    ensures Placed(kept) && Conventional(kept) && (HasCatchAll(t) ==> HasCatchAll(kept))
  {
    ReorganizedIsPlaced(t, slots);
    ReorganizedNames(t, slots);
    SuffixIsPlaced(Reorganized(t, slots), ExpiredCount(t, cutoff));
  }

  // ---------- Main results ----------

  /** The table is as well formed after a pass as before it. */
  lemma {:induction false} PassKeepsShape(t: seq<Partition>, now: nat, retentionMonths: int, aheadMonths: nat)
    requires Ready(t, now, retentionMonths, aheadMonths)
    ensures Ready(Kept(t, now, retentionMonths, aheadMonths), now, retentionMonths, aheadMonths)
    ensures HasCatchAll(t) ==> HasCatchAll(Kept(t, now, retentionMonths, aheadMonths))
  {
    var slots := KeptIsPass(t, now, retentionMonths, aheadMonths);
    PassIsPlaced(t, slots, Kept(t, now, retentionMonths, aheadMonths), now, Cutoff(now, retentionMonths), MonthsChecked(aheadMonths));
  }

  predicate ExpiredBoundAbove(t: seq<Partition>, d: Date, cutoff: int)
    requires cutoff <= LAST_MONTH
  {
    exists i :: 0 <= i < |t| && Expired(t[i].bound, cutoff) && Before(d, t[i].bound.value)
  }

  /** The first bound still there once the first `k` partitions are gone. */
  lemma {:induction false} StoredInSuffix(s: seq<Partition>, k: nat, r: Row)
    requires Placed(s) && 0 < k <= |s| && s[k - 1].bound.Some? && Stores(s, r)
    ensures Stores(s[k..], r) <==> !Before(r.date, s[k - 1].bound.value)
  {
    var i :| 0 <= i < |s| && r in s[i].rows;
    assert Takes(s, i, r.date);
    if i >= k {
      assert s[k..][i - k] == s[i];
      assert k - 1 == i - 1 || Before(s[k - 1].bound.value, s[i - 1].bound.value);
    } else {
      assert i == k - 1 || Before(s[i].bound.value, s[k - 1].bound.value);
    }
    if Stores(s[k..], r) {
      StoredFrom(s, k, r);
    }
  }

  lemma {:induction false} StoredFrom(s: seq<Partition>, k: nat, r: Row)
    requires Placed(s) && 0 < k <= |s| && s[k - 1].bound.Some? && Stores(s[k..], r)
    ensures !Before(r.date, s[k - 1].bound.value)
  {
    var j :| 0 <= j < |s[k..]| && r in s[k..][j].rows;
    assert Takes(s, k + j, r.date);
    assert j == 0 || Before(s[k - 1].bound.value, s[k + j - 1].bound.value);
  }

  /** The bounds a pass adds strictly increase, above every bound the table has. */
  lemma {:induction false} AddsAscendAboveAll(t: seq<Partition>, now: nat, retentionMonths: int, aheadMonths: nat)
    requires Ready(t, now, retentionMonths, aheadMonths)
    ensures Fits(t, SlotsOf(PlanFor(t, now, retentionMonths, aheadMonths).add))
  {
    SlotsAreUppers(t, now, aheadMonths);
    UppersFit(t, now, MonthsChecked(aheadMonths), SlotsOf(PlanFor(t, now, retentionMonths, aheadMonths).add));
  }

  lemma {:induction false} LastExpiredIsHighest(t: seq<Partition>, cutoff: int, d: Date)
    requires Bounded(t) && Ascending(t) && cutoff <= LAST_MONTH
    ensures var k := ExpiredCount(t, cutoff);
            ExpiredBoundAbove(t, d, cutoff) <==> k > 0 && Before(d, t[k - 1].bound.value)
  {
    var k := ExpiredCount(t, cutoff);
    if i :| 0 <= i < |t| && Expired(t[i].bound, cutoff) && Before(d, t[i].bound.value) {
      if i >= k {
        OnlyTheFirstExpire(t, cutoff, i);
      }
      assert i == k - 1 || Before(t[i].bound.value, t[k - 1].bound.value);
    }
  }

  lemma {:induction false} SuffixKeepsUnexpired(s: seq<Partition>, t: seq<Partition>, slots: seq<Slot>, k: nat, cutoff: int, r: Row)
    requires Placed(s) && Extends(s, t, slots) && Stores(s, r) && Bounded(t) && Ascending(t)
    requires cutoff <= LAST_MONTH && k == ExpiredCount(t, cutoff) <= |Front(t)| <= |s|
    ensures Stores(s[k..], r) <==> !ExpiredBoundAbove(t, r.date, cutoff)
  {
    LastExpiredIsHighest(t, cutoff, r.date);
    if k > 0 {
      assert s[k - 1] == t[k - 1];
      StoredInSuffix(s, k, r);
    } else {
      assert s[k..] == s;
    }
  }

  lemma {:induction false} PassKeepsUnexpired(t: seq<Partition>, slots: seq<Slot>, kept: seq<Partition>, now: nat, cutoff: int, count: nat, r: Row)
    requires IsPass(t, slots, kept, now, cutoff, count) && Stores(t, r)
    ensures Stores(kept, r) <==> !ExpiredBoundAbove(t, r.date, cutoff)
  {
    ReorganizedIsPlaced(t, slots);
    ReorganizedExtends(t, slots);
    ReorganizedStores(t, slots, r);
    SuffixKeepsUnexpired(Reorganized(t, slots), t, slots, ExpiredCount(t, cutoff), cutoff, r);
  }

  lemma {:induction false} PassAddsNoRow(t: seq<Partition>, slots: seq<Slot>, kept: seq<Partition>, now: nat, cutoff: int, count: nat, r: Row)
    requires IsPass(t, slots, kept, now, cutoff, count) && Stores(kept, r)
    ensures Stores(t, r)
  {
    var i :| 0 <= i < |kept| && r in kept[i].rows;
    ReorganizedBounds(t, slots);
    ReorganizedRow(t, slots, ExpiredCount(t, cutoff) + i, r);
  }

  /** Exactly which rows a pass deletes: those below a bound that is itself past the cutoff. Nothing else goes, and nothing new comes. */
  lemma {:induction false} ExactlyTheExpiredGo(t: seq<Partition>, now: nat, retentionMonths: int, aheadMonths: nat, r: Row)
    requires Ready(t, now, retentionMonths, aheadMonths)
    ensures Stores(Kept(t, now, retentionMonths, aheadMonths), r)
       <==> Stores(t, r) && !ExpiredBoundAbove(t, r.date, Cutoff(now, retentionMonths))
  {
    var slots := KeptIsPass(t, now, retentionMonths, aheadMonths);
    if Stores(t, r) {
      PassKeepsUnexpired(t, slots, Kept(t, now, retentionMonths, aheadMonths), now, Cutoff(now, retentionMonths), MonthsChecked(aheadMonths), r);
    } else if Stores(Kept(t, now, retentionMonths, aheadMonths), r) {
      PassAddsNoRow(t, slots, Kept(t, now, retentionMonths, aheadMonths), now, Cutoff(now, retentionMonths), MonthsChecked(aheadMonths), r);
    }
  }

  /** No row dated within the retention, counted in whole months, is ever deleted. */
  lemma {:induction false} RetentionIsKept(t: seq<Partition>, now: nat, retentionMonths: int, aheadMonths: nat, r: Row)
    requires Ready(t, now, retentionMonths, aheadMonths) && Stores(t, r) && r.date.month >= Cutoff(now, retentionMonths)
    ensures Stores(Kept(t, now, retentionMonths, aheadMonths), r)
  {
    ExactlyTheExpiredGo(t, now, retentionMonths, aheadMonths, r);
    assert IsDate(r.date);
  }

  /** Bounds are the firsts of months that follow one another. */
  predicate Monthly(t: seq<Partition>)
    requires Bounded(t)
  {
    && (forall i :: 0 <= i < |t| && t[i].bound.Some? ==> t[i].bound.value.day == 1)
    && (forall i :: 0 < i < |t| && t[i].bound.Some? ==> t[i].bound.value.month == t[i - 1].bound.value.month + 1)
  }

  lemma {:induction false} MonthlyAt(t: seq<Partition>, i: nat)
    requires Bounded(t) && Monthly(t) && i < |t| && t[i].bound.Some?
    ensures t[i].bound.value.month == t[0].bound.value.month + i
  {
    if i > 0 {
      MonthlyAt(t, i - 1);
    }
  }

  lemma {:induction false} MonthlyBoundAbove(t: seq<Partition>, cutoff: int, d: Date)
    requires Bounded(t) && Ascending(t) && Monthly(t) && LastBound(t).Some? && cutoff <= LAST_MONTH && IsDate(d)
    requires t[0].bound.value.month <= cutoff <= LastBound(t).value.month
    ensures ExpiredBoundAbove(t, d, cutoff) <==> d.month < cutoff
  {
    var last := |Front(t)| - 1;
    assert LastBound(t) == t[last].bound;
    MonthlyAt(t, last);
    var i := cutoff - t[0].bound.value.month;
    MonthlyAt(t, i);
    assert t[i].bound == Some(Date(cutoff, 1)) && Expired(t[i].bound, cutoff);
  }

  /** With one partition a month around the cutoff, no row older than the retention stays. */
  lemma {:induction false} MonthlyTablesKeepNothingOlder(t: seq<Partition>, now: nat, retentionMonths: int, aheadMonths: nat, r: Row)
    requires Ready(t, now, retentionMonths, aheadMonths) && Monthly(t) && LastBound(t).Some?
    requires t[0].bound.value.month <= Cutoff(now, retentionMonths) <= LastBound(t).value.month
    ensures Stores(Kept(t, now, retentionMonths, aheadMonths), r) <==> Stores(t, r) && r.date.month >= Cutoff(now, retentionMonths)
  {
    ExactlyTheExpiredGo(t, now, retentionMonths, aheadMonths, r);
    if Stores(t, r) {
      MonthlyBoundAbove(t, Cutoff(now, retentionMonths), r.date);
    }
  }

  lemma {:induction false} LastBoundOfFront(t: seq<Partition>)
    requires Bounded(t)
    ensures LastBound(t) == if |Front(t)| == 0 then None else t[|Front(t)| - 1].bound
    ensures LastBound(t).Some? <==> |Front(t)| > 0
  {
  }

  /** The last bound once months are added. */
  lemma {:induction false} LastBoundExtended(s: seq<Partition>, t: seq<Partition>, slots: seq<Slot>)
    requires Bounded(t) && Bounded(s) && Extends(s, t, slots)
    ensures |Front(s)| == |Front(t)| + |slots|
    ensures LastBound(s) == if |slots| == 0 then LastBound(t) else Some(slots[|slots| - 1].bound)
  {
    LastBoundOfFront(t);
    LastBoundOfFront(s);
  }

  lemma {:induction false} ReachesAhead(s: seq<Partition>, t: seq<Partition>, slots: seq<Slot>, now: nat, count: nat)
    requires Bounded(t) && Bounded(s) && Extends(s, t, slots) && count > 0 && Calls(t, now, count, slots)
    ensures LastBound(s).Some? && !Before(LastBound(s).value, Horizon(now, count))
  {
    LastBoundOfFront(t);
    UppersReachAhead(LastBound(t), now, count);
    LastBoundExtended(s, t, slots);
  }

  lemma {:induction false} LastBoundOfSuffix(s: seq<Partition>, k: nat)
    requires Bounded(s) && k < |Front(s)|
    ensures LastBound(s[k..]) == LastBound(s)
  {
    LastBoundOfFront(s);
    var t := s[k..];
    assert |t| == |s| - k && t[|t| - 1] == s[|s| - 1];
    assert |t| > 1 ==> t[|t| - 2] == s[|s| - 2];
  }

  /** A last bound beyond the cutoff is not among the expired. */
  lemma {:induction false} LastBoundStays(s: seq<Partition>, k: nat, cutoff: int, horizon: Date)
    requires Bounded(s) && cutoff <= LAST_MONTH && k <= |s| && forall i :: 0 <= i < k ==> Expired(s[i].bound, cutoff)
    requires LastBound(s).Some? && !Before(LastBound(s).value, horizon) && horizon.month > cutoff
    ensures k < |Front(s)|
  {
    LastBoundOfFront(s);
    assert !Expired(s[|Front(s)| - 1].bound, cutoff);
  }

  lemma {:induction false} SuffixReachesAhead(s: seq<Partition>, t: seq<Partition>, slots: seq<Slot>, k: nat, cutoff: int, horizon: Date)
    requires Bounded(t) && Bounded(s) && Extends(s, t, slots) && cutoff <= LAST_MONTH && k == ExpiredCount(t, cutoff) <= |Front(t)|
    requires LastBound(s).Some? && !Before(LastBound(s).value, horizon) && horizon.month > cutoff
    ensures k < |s| && LastBound(s[k..]) == LastBound(s)
  {
    LastBoundStays(s, k, cutoff, horizon);
    LastBoundOfSuffix(s, k);
  }

  lemma {:induction false} LastBoundSurvives(t: seq<Partition>, slots: seq<Slot>, kept: seq<Partition>, now: nat, cutoff: int, count: nat)
    requires IsPass(t, slots, kept, now, cutoff, count)
    ensures |kept| > 0 && LastBound(kept).Some? && !Before(LastBound(kept).value, Horizon(now, count))
  {
    ReorganizedBounds(t, slots);
    ReachesAhead(Reorganized(t, slots), t, slots, now, count);
    SuffixReachesAhead(Reorganized(t, slots), t, slots, ExpiredCount(t, cutoff), cutoff, Horizon(now, count));
  }

  /** A pass always leaves a partition, and its last bound is at or beyond the end of the look-ahead. */
  lemma {:induction false} PassReachesAhead(t: seq<Partition>, now: nat, retentionMonths: int, aheadMonths: nat)
    requires Ready(t, now, retentionMonths, aheadMonths)
    ensures var kept := Kept(t, now, retentionMonths, aheadMonths);
            |kept| > 0 && LastBound(kept).Some? && !Before(LastBound(kept).value, Horizon(now, MonthsChecked(aheadMonths)))
  {
    var slots := KeptIsPass(t, now, retentionMonths, aheadMonths);
    LastBoundSurvives(t, slots, Kept(t, now, retentionMonths, aheadMonths), now, Cutoff(now, retentionMonths), MonthsChecked(aheadMonths));
  }

  lemma {:induction false} BelowTheLastBound(s: seq<Partition>, i: nat, d: Date, horizon: Date)
    requires Bounded(s) && i < |s| && Takes(s, i, d) && d.month < horizon.month
    requires LastBound(s).Some? && !Before(LastBound(s).value, horizon)
    ensures s[i].bound.Some?
  {
    LastBoundOfFront(s);
  }

  /** No date up to the end of the look-ahead falls to the catch-all. */
  lemma {:induction false} LookAheadIsPartitioned(t: seq<Partition>, now: nat, retentionMonths: int, aheadMonths: nat, i: nat, d: Date)
    requires Ready(t, now, retentionMonths, aheadMonths) && d.month <= now + aheadMonths
    requires Bounded(Kept(t, now, retentionMonths, aheadMonths)) && i < |Kept(t, now, retentionMonths, aheadMonths)|
    requires Takes(Kept(t, now, retentionMonths, aheadMonths), i, d)
    ensures Kept(t, now, retentionMonths, aheadMonths)[i].bound.Some?
  {
    PassReachesAhead(t, now, retentionMonths, aheadMonths);
    BelowTheLastBound(Kept(t, now, retentionMonths, aheadMonths), i, d, Horizon(now, MonthsChecked(aheadMonths)));
  }

  lemma {:induction false} SuffixIsUnexpired(s: seq<Partition>, t: seq<Partition>, slots: seq<Slot>, cutoff: int, i: nat)
    requires Bounded(t) && Ascending(t) && Extends(s, t, slots) && cutoff <= LAST_MONTH && ExpiredCount(t, cutoff) <= i < |s|
    requires forall k :: 0 <= k < |slots| ==> slots[k].bound.month > cutoff
    ensures !Expired(s[i].bound, cutoff)
  {
    if i < |Front(t)| {
      OnlyTheFirstExpire(t, cutoff, i);
    }
  }

  lemma {:induction false} SlotsAreUnexpired(t: seq<Partition>, slots: seq<Slot>, now: nat, cutoff: int, count: nat)
    requires Calls(t, now, count, slots) && cutoff < now
    ensures forall k :: 0 <= k < |slots| ==> slots[k].bound.month > cutoff
  {
  }

  /** The extended table behind a pass, without what its partitions hold. */
  lemma {:induction false} PassExtends(t: seq<Partition>, slots: seq<Slot>, kept: seq<Partition>, now: nat, cutoff: int, count: nat)
      returns (s: seq<Partition>)
    requires IsPass(t, slots, kept, now, cutoff, count)
    ensures Bounded(t) && Ascending(t) && cutoff <= LAST_MONTH && Extends(s, t, slots)
    ensures ExpiredCount(t, cutoff) <= |s| && kept == s[ExpiredCount(t, cutoff)..]
    ensures forall k :: 0 <= k < |slots| ==> slots[k].bound.month > cutoff
  {
    s := Reorganized(t, slots);
    ReorganizedExtends(t, slots);
    SlotsAreUnexpired(t, slots, now, cutoff, count);
  }

  lemma {:induction false} NothingKeptIsDropped(t: seq<Partition>, slots: seq<Slot>, kept: seq<Partition>, now: nat, cutoff: int, count: nat)
    requires IsPass(t, slots, kept, now, cutoff, count)
    ensures Dropped(Existing(kept), FirstText(cutoff)) == []
  {
    PassIsPlaced(t, slots, kept, now, cutoff, count);
    var s := PassExtends(t, slots, kept, now, cutoff, count);
    UnexpiredAreNotDropped(s, t, slots, kept, cutoff);
  }

  lemma {:induction false} UnexpiredAreNotDropped(s: seq<Partition>, t: seq<Partition>, slots: seq<Slot>, kept: seq<Partition>, cutoff: int)
    requires Bounded(t) && Ascending(t) && cutoff <= LAST_MONTH && Extends(s, t, slots) && Placed(kept) && Conventional(kept)
    requires ExpiredCount(t, cutoff) <= |s| && kept == s[ExpiredCount(t, cutoff)..]
    requires forall k :: 0 <= k < |slots| ==> slots[k].bound.month > cutoff
    ensures Dropped(Existing(kept), FirstText(cutoff)) == []
  {
    var names := Dropped(Existing(kept), FirstText(cutoff));
    if |names| > 0 {
      var i := DroppedIsExpired(kept, cutoff, names[0]);
      SuffixIsUnexpired(s, t, slots, cutoff, ExpiredCount(t, cutoff) + i);
    }
  }

  /** Planning again on the result finds nothing to do. */
  lemma {:induction false} SecondPassIsEmpty(t: seq<Partition>, now: nat, retentionMonths: int, aheadMonths: nat)
    requires Ready(t, now, retentionMonths, aheadMonths)
    ensures PlanFor(Kept(t, now, retentionMonths, aheadMonths), now, retentionMonths, aheadMonths) == Plan([], [])
  {
    var kept := Kept(t, now, retentionMonths, aheadMonths);
    PassKeepsShape(t, now, retentionMonths, aheadMonths);
    PassReachesAhead(t, now, retentionMonths, aheadMonths);
    NoMonthsToAdd(kept, now, retentionMonths, aheadMonths);
    var slots := KeptIsPass(t, now, retentionMonths, aheadMonths);
    NothingKeptIsDropped(t, slots, kept, now, Cutoff(now, retentionMonths), MonthsChecked(aheadMonths));
  }

  lemma {:induction false} NoMonthsToAdd(t: seq<Partition>, now: nat, retentionMonths: int, aheadMonths: nat)
    requires Bounded(t) && Ascending(t) && now + aheadMonths + 1 <= LAST_MONTH && retentionMonths >= 1
    requires LastBound(t).Some? && !Before(LastBound(t).value, Horizon(now, MonthsChecked(aheadMonths)))
    ensures PlanFor(t, now, retentionMonths, aheadMonths).add == []
  {
    SlotsAreUppers(t, now, aheadMonths);
    UppersReachAhead(LastBound(t), now, MonthsChecked(aheadMonths));
  }

  // ---------- A pass that fails between its two statements ----------

  /** The months are added and nothing is dropped yet. */
  function Halfway(t: seq<Partition>, now: nat, retentionMonths: int, aheadMonths: nat): seq<Partition>
    requires now + aheadMonths + 1 <= LAST_MONTH && retentionMonths >= 1
  {
    Reorganized(t, SlotsOf(PlanFor(t, now, retentionMonths, aheadMonths).add))
  }

  lemma {:induction false} HalfwayIsReady(t: seq<Partition>, now: nat, retentionMonths: int, aheadMonths: nat)
    requires Ready(t, now, retentionMonths, aheadMonths)
    ensures Ready(Halfway(t, now, retentionMonths, aheadMonths), now, retentionMonths, aheadMonths)
  {
    var slots := SlotsOf(PlanFor(t, now, retentionMonths, aheadMonths).add);
    AddsAscendAboveAll(t, now, retentionMonths, aheadMonths);
    ReorganizedIsPlaced(t, slots);
    ReorganizedNames(t, slots);
  }

  /** The table halfway stores the same rows, and is as well formed. */
  lemma {:induction false} HalfwayLosesNothing(t: seq<Partition>, now: nat, retentionMonths: int, aheadMonths: nat, r: Row)
    requires Ready(t, now, retentionMonths, aheadMonths)
    ensures Ready(Halfway(t, now, retentionMonths, aheadMonths), now, retentionMonths, aheadMonths)
    ensures Stores(Halfway(t, now, retentionMonths, aheadMonths), r) <==> Stores(t, r)
  {
    var slots := SlotsOf(PlanFor(t, now, retentionMonths, aheadMonths).add);
    HalfwayIsReady(t, now, retentionMonths, aheadMonths);
    AddsAscendAboveAll(t, now, retentionMonths, aheadMonths);
    if Stores(t, r) {
      ReorganizedStores(t, slots, r);
    } else if Stores(Reorganized(t, slots), r) {
      var i :| 0 <= i < |Reorganized(t, slots)| && r in Reorganized(t, slots)[i].rows;
      ReorganizedBounds(t, slots);
      ReorganizedRow(t, slots, i, r);
    }
  }

  lemma {:induction false} ExpiredCountIs(t: seq<Partition>, cutoff: int, k: nat)
    requires cutoff <= LAST_MONTH && k <= |t| && (forall i :: 0 <= i < k ==> Expired(t[i].bound, cutoff))
    requires k < |t| ==> !Expired(t[k].bound, cutoff)
    ensures ExpiredCount(t, cutoff) == k
  {
  }

  lemma {:induction false} ExpireAlike(t: seq<Partition>, slots: seq<Slot>, kept: seq<Partition>, now: nat, cutoff: int, count: nat)
    requires IsPass(t, slots, kept, now, cutoff, count)
    ensures ExpiredCount(Reorganized(t, slots), cutoff) == ExpiredCount(t, cutoff)
  {
    var s, k := Reorganized(t, slots), ExpiredCount(t, cutoff);
    ReorganizedExtends(t, slots);
    if k < |s| {
      SuffixIsUnexpired(s, t, slots, cutoff, k);
    }
    ExpiredCountIs(s, cutoff, k);
  }

  lemma {:induction false} NothingMoreCalled(s: seq<Partition>, now: nat, count: nat, slots: seq<Slot>)
    requires Bounded(s) && count > 0 && LastBound(s).Some? && !Before(LastBound(s).value, Horizon(now, count))
    requires Calls(s, now, count, slots)
    ensures slots == []
  {
    UppersReachAhead(LastBound(s), now, count);
  }

  /** The next pass finishes what a failed one began: it leaves what one whole pass would have left. */
  lemma {:induction false} NextPassFinishes(t: seq<Partition>, now: nat, retentionMonths: int, aheadMonths: nat)
    requires Ready(t, now, retentionMonths, aheadMonths)
    ensures Kept(Halfway(t, now, retentionMonths, aheadMonths), now, retentionMonths, aheadMonths)
         == Kept(t, now, retentionMonths, aheadMonths)
  {
    var cutoff, count := Cutoff(now, retentionMonths), MonthsChecked(aheadMonths);
    var half := Halfway(t, now, retentionMonths, aheadMonths);
    var slots := SlotsOf(PlanFor(t, now, retentionMonths, aheadMonths).add);
    AddsAscendAboveAll(t, now, retentionMonths, aheadMonths);
    SlotsAreUppers(t, now, aheadMonths);
    var kept := Kept(t, now, retentionMonths, aheadMonths);
    PlannedPass(t, now, retentionMonths, aheadMonths);
    ReorganizedBounds(t, slots);
    ReachesAhead(half, t, slots, now, count);
    HalfwayIsReady(t, now, retentionMonths, aheadMonths);
    var more := KeptIsPass(half, now, retentionMonths, aheadMonths);
    NothingMoreCalled(half, now, count, more);
    NothingToAdd(half);
    ExpireAlike(t, slots, kept, now, cutoff, count);
  }

  lemma {:induction false} PlannedPass(t: seq<Partition>, now: nat, retentionMonths: int, aheadMonths: nat)
    requires Ready(t, now, retentionMonths, aheadMonths)
    ensures IsPass(t, SlotsOf(PlanFor(t, now, retentionMonths, aheadMonths).add), Kept(t, now, retentionMonths, aheadMonths),
                   now, Cutoff(now, retentionMonths), MonthsChecked(aheadMonths))
  {
    var slots := SlotsOf(PlanFor(t, now, retentionMonths, aheadMonths).add);
    SlotsAreUppers(t, now, aheadMonths);
    UppersFit(t, now, MonthsChecked(aheadMonths), slots);
    if |slots| == 0 {
      NothingToAdd(t);
    }
    DropIsSuffix(t, slots, Cutoff(now, retentionMonths), Kept(t, now, retentionMonths, aheadMonths));
  }

  // ---------- The job ----------

  /** A table; without partitions `parts` is empty. */
  class Table {
    var parts: seq<Partition>

    constructor (parts: seq<Partition>)
      ensures this.parts == parts
    {
      this.parts := parts;
    }
  }

  datatype PassResult = PassResult(added: seq<string>, dropped: seq<string>, skipped: bool)

  /** Where a pass fails, if it does: a statement is not run, or runs and its answer is lost. */
  datatype Fault = NoFault | AddNotRun | AddUnanswered | DropNotRun | DropUnanswered

  /** The pass makes the statement that fails. */
  predicate Fails(plan: Plan, fault: Fault) {
    match fault
    case NoFault => false
    case AddNotRun => |plan.add| > 0
    case AddUnanswered => |plan.add| > 0
    case DropNotRun => |plan.drop| > 0
    case DropUnanswered => |plan.drop| > 0
  }

  function NamesOf(add: seq<NewPartition>): seq<string> {
    seq(|add|, k requires 0 <= k < |add| => add[k].name)
  }

  class PartitionJob {
    const retentionMonths: int
    const aheadMonths: nat

    constructor (retentionMonths: int, aheadMonths: nat)
      requires retentionMonths >= 1
      ensures this.retentionMonths == retentionMonths && this.aheadMonths == aheadMonths
    {
      this.retentionMonths, this.aheadMonths := retentionMonths, aheadMonths;
    }

    /**
     `locked` says whether this copy got the table's named lock. A pass that fails leaves the table as
     it was, halfway, or done.
     */
    method Maintain(table: Table, now: nat, locked: bool, fault: Fault) returns (result: Result<PassResult, ()>)
      requires retentionMonths >= 1 && now + aheadMonths + 1 <= LAST_MONTH
      modifies table
      ensures !locked ==> table.parts == old(table.parts) && result == Ok(PassResult([], [], true))
      ensures locked && old(table.parts) == [] ==> table.parts == [] && result == Ok(PassResult([], [], false))
      ensures locked && old(table.parts) != [] ==>
        var was := old(table.parts);
        var plan := PlanFor(was, now, retentionMonths, aheadMonths);
        && (result.Err? <==> Fails(plan, fault))
        && (result.Ok? ==> result.value == PassResult(NamesOf(plan.add), plan.drop, false))
        && table.parts == (if Fails(plan, fault) && fault.AddNotRun? then was
                           else if Fails(plan, fault) && !fault.DropUnanswered? then Halfway(was, now, retentionMonths, aheadMonths)
                           else Kept(was, now, retentionMonths, aheadMonths))
    {
      if !locked {
        return Ok(PassResult([], [], true));
      }
      if table.parts == [] {
        return Ok(PassResult([], [], false));
      }
      var planned := PlanMonthlyPartitions(Existing(table.parts), now, retentionMonths, aheadMonths);
      var plan := planned.value;
      if |plan.add| > 0 {
        if fault.AddNotRun? {
          return Err(());
        }
        table.parts := Reorganized(table.parts, SlotsOf(plan.add));
        if fault.AddUnanswered? {
          return Err(());
        }
      } else {
        NothingToAdd(table.parts);
      }
      if |plan.drop| > 0 {
        if fault.DropNotRun? {
          return Err(());
        }
        table.parts := Without(table.parts, plan.drop);
        if fault.DropUnanswered? {
          return Err(());
        }
      } else {
        WithoutIsSuffix(table.parts, plan.drop, 0);
      }
      result := Ok(PassResult(NamesOf(plan.add), plan.drop, false));
    }
  }
}

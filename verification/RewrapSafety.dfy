/**
 What re-wrapping means for the stored values: a pass keeps what every value decrypts to, what it
 leaves behind is exactly known, and any interleaving of passes and application writes is safe.
 */
module RewrapSafety {
  import opened Wrappers
  import opened Kek
  import opened Envelope
  import opened Rewrap

  /** The random IV each row's new wrapping gets in this pass. */
  type Ivs = Id -> Bytes

  ghost predicate Usable(p: Primitives, kek: Kek, iv: Ivs) {
    Correct(p) && Valid(kek) && WellFormed(p, kek.current) && forall id :: |iv(id)| == IV_BYTES
  }

  /** `kekRewrapper`, as the job uses it. */
  function KekRewrapper(p: Primitives, kek: Kek, iv: Ivs): Rewrapper {
    Rewrapper(
      value => UnderOlderVersion(value, CurrentPrefix(p, kek)),
      (id: Id, value: string) => if Valid(kek) && Rotated(p, kek, iv(id), value).Ok? then Some(Rotated(p, kek, iv(id), value).value) else None)
  }

  // ---------- After an undisturbed pass ----------

  /** The pass leaves every value reading as it did, under every associated data, or refusing as it did. */
  lemma {:induction false} PassKeepsMeaning(p: Primitives, kek: Kek, iv: Ivs, rows: seq<Row>, i: nat, aad: Option<string>)
    requires Usable(p, kek, iv) && i < |rows| && rows[i].value.Some?
    ensures var row := Walked(KekRewrapper(p, kek, iv), rows).rows[i];
            row.value.Some? && Decrypted(p, kek, row.value.value, aad) == Decrypted(p, kek, rows[i].value.value, aad)
  {
    WalkTreatsEach(KekRewrapper(p, kek, iv), rows, i);
    if Rotated(p, kek, iv(rows[i].id), rows[i].value.value).Ok? {
      RotateKeepsMeaning(p, kek, kek, iv(rows[i].id), rows[i].value.value, aad);
    }
  }

  /** Eligible though under the current version, because the version is oddly spelled. */
  predicate Odd(p: Primitives, kek: Kek, row: Row) {
    && row.value.Some?
    && UnderOlderVersion(row.value.value, CurrentPrefix(p, kek))
    && NeedsRotation(p, kek, row.value.value) == Ok(false)
  }

  function OddRows(p: Primitives, kek: Kek, rows: seq<Row>): nat {
    if |rows| == 0 then 0
    else
      var n := |rows| - 1;
      OddRows(p, kek, rows[..n]) + if Odd(p, kek, rows[n]) then 1 else 0
  }

  predicate NoneOdd(p: Primitives, kek: Kek, rows: seq<Row>) {
    forall row <- rows :: !Odd(p, kek, row)
  }

  lemma {:induction false} RotationIsNotSelected(p: Primitives, kek: Kek, wrapIv: Bytes, value: string)
    requires Correct(p) && Valid(kek) && WellFormed(p, kek.current) && |wrapIv| == IV_BYTES
    requires Rotated(p, kek, wrapIv, value).Ok? && NeedsRotation(p, kek, value) == Ok(true)
    ensures !UnderOlderVersion(Rotated(p, kek, wrapIv, value).value, CurrentPrefix(p, kek))
  {
    var parsed := Parse(p, value).value;
    var dataKey := Unwrap(p, kek, parsed.key).value;
    UnwrappedIsNotEmpty(p, kek, parsed.key);
    UnwrapWrap(p, kek, kek, wrapIv, dataKey);
    PrefixTestIsNeedsRotation(p, kek, Wrap(p, kek, wrapIv, dataKey), parsed.body);
    ParsePrint(p, Wrap(p, kek, wrapIv, dataKey), parsed.body);
  }

  /** A row the pass treated is still eligible exactly when it failed or is odd. */
  lemma {:induction false} TreatedRow(p: Primitives, kek: Kek, iv: Ivs, row: Row)
    requires Usable(p, kek, iv)
    ensures var w := KekRewrapper(p, kek, iv);
            && (Eligible(w, Treated(w, row)) <==> Eligible(w, row) && (w.rewrap(row.id, row.value.value).None? || Odd(p, kek, row)))
            && (Odd(p, kek, row) ==> Eligible(w, row) && w.rewrap(row.id, row.value.value).Some?)
  {
    var w := KekRewrapper(p, kek, iv);
    if Eligible(w, row) && w.rewrap(row.id, row.value.value).Some? && !Odd(p, kek, row) {
      RotationIsNotSelected(p, kek, iv(row.id), row.value.value);
    }
  }

  /**
   What remains of one column is its failures and its odd rows, no others: it equals `failed` exactly
   when no row spells the current version oddly.
   */
  lemma {:induction false} RemainingAreFailedOrOdd(p: Primitives, kek: Kek, iv: Ivs, rows: seq<Row>)
    requires Usable(p, kek, iv)
    ensures var w := KekRewrapper(p, kek, iv);
            && Remaining(w, Walked(w, rows).rows) == Walked(w, rows).failed + OddRows(p, kek, rows)
            && (Remaining(w, Walked(w, rows).rows) == Walked(w, rows).failed <==> NoneOdd(p, kek, rows))
  {
    var w := KekRewrapper(p, kek, iv);
    NoOddRows(p, kek, rows);
    if |rows| > 0 {
      var n := |rows| - 1;
      RemainingAreFailedOrOdd(p, kek, iv, rows[..n]);
      TreatedRow(p, kek, iv, rows[n]);
      assert Walked(w, rows).rows[..n] == Walked(w, rows[..n]).rows;
    }
  }

  lemma {:induction false} NoOddRows(p: Primitives, kek: Kek, rows: seq<Row>)
    ensures OddRows(p, kek, rows) == 0 <==> NoneOdd(p, kek, rows)
  {
    if |rows| > 0 {
      var n := |rows| - 1;
      NoOddRows(p, kek, rows[..n]);
      assert rows == rows[..n] + [rows[n]];
    }
  }

  lemma {:induction false} EligibleAreCounted(w: Rewrapper, rows: seq<Row>)
    ensures Walked(w, rows).rewrapped + Walked(w, rows).failed == Remaining(w, rows)
  {
    if |rows| > 0 {
      EligibleAreCounted(w, rows[..|rows| - 1]);
    }
  }

  function OddRowsIn(p: Primitives, kek: Kek, columns: seq<seq<Row>>): nat {
    if |columns| == 0 then 0
    else OddRowsIn(p, kek, columns[..|columns| - 1]) + OddRows(p, kek, columns[|columns| - 1])
  }

  lemma {:induction false} NoOddColumns(p: Primitives, kek: Kek, columns: seq<seq<Row>>)
    ensures OddRowsIn(p, kek, columns) == 0 <==> forall c :: 0 <= c < |columns| ==> NoneOdd(p, kek, columns[c])
  {
    if |columns| > 0 {
      var n := |columns| - 1;
      NoOddColumns(p, kek, columns[..n]);
      NoOddRows(p, kek, columns[n]);
      assert forall c :: 0 <= c < n ==> columns[..n][c] == columns[c];
    }
  }

  /** What a pass counts is what was eligible, and none of it is skipped while nobody else writes. */
  lemma {:induction false} PassCountsTheEligible(w: Rewrapper, batchSize: nat, was: seq<seq<Row>>)
    requires batchSize > 0
    ensures Counted(w, batchSize, was).rewrapped + Counted(w, batchSize, was).failed == RemainingIn(w, was)
    ensures Counted(w, batchSize, was).skipped == 0
  {
    if |was| > 0 {
      PassCountsTheEligible(w, batchSize, was[..|was| - 1]);
      EligibleAreCounted(w, was[|was| - 1]);
    }
  }

  lemma {:induction false} RemainingOfColumns(p: Primitives, kek: Kek, iv: Ivs, batchSize: nat, was: seq<seq<Row>>, now: seq<seq<Row>>)
    requires Usable(p, kek, iv) && batchSize > 0 && AllWalked(KekRewrapper(p, kek, iv), batchSize, was, now)
    ensures var w := KekRewrapper(p, kek, iv);
            RemainingIn(w, now) == Counted(w, batchSize, was).failed + OddRowsIn(p, kek, was)
  {
    if |was| > 0 {
      var n := |was| - 1;
      RemainingOfColumns(p, kek, iv, batchSize, was[..n], now[..n]);
      RemainingAreFailedOrOdd(p, kek, iv, was[n]);
    }
  }

  /**
   What a whole pass reports while nobody else writes: it rewraps or fails every row that was
   eligible, and `remaining` is `failed` plus the odd rows; so the two are equal exactly when no
   column spells the current version oddly.
   */
  lemma {:induction false} PassReport(p: Primitives, kek: Kek, iv: Ivs, batchSize: nat, was: seq<seq<Row>>, now: seq<seq<Row>>)
    requires Usable(p, kek, iv) && batchSize > 0 && AllWalked(KekRewrapper(p, kek, iv), batchSize, was, now)
    ensures var w := KekRewrapper(p, kek, iv);
            var totals := Counted(w, batchSize, was);
            && totals.rewrapped + totals.failed == RemainingIn(w, was) && totals.skipped == 0
            && RemainingIn(w, now) == totals.failed + OddRowsIn(p, kek, was)
            && (RemainingIn(w, now) == totals.failed <==> forall c :: 0 <= c < |was| ==> NoneOdd(p, kek, was[c]))
  {
    PassCountsTheEligible(KekRewrapper(p, kek, iv), batchSize, was);
    RemainingOfColumns(p, kek, iv, batchSize, was, now);
    NoOddColumns(p, kek, was);
  }

  lemma {:induction false} NoneRemains(w: Rewrapper, rows: seq<Row>, i: nat)
    requires Remaining(w, rows) == 0 && i < |rows|
    ensures !Eligible(w, rows[i])
  {
    if i < |rows| - 1 {
      NoneRemains(w, rows[..|rows| - 1], i);
    }
  }

  /** When nothing remains, no stored value needs an older version: a provider without them reads all the same. */
  lemma {:induction false} OlderVersionsCanBeRemoved(p: Primitives, kek: Kek, iv: Ivs, later: Kek, rows: seq<Row>, i: nat, aad: Option<string>)
    requires Usable(p, kek, iv) && StillServes(later, kek) && Remaining(KekRewrapper(p, kek, iv), rows) == 0
    requires i < |rows| && rows[i].value.Some? && Parse(p, rows[i].value.value).Ok?
    ensures Decrypted(p, later, rows[i].value.value, aad) == Decrypted(p, kek, rows[i].value.value, aad)
  {
    NoneRemains(KekRewrapper(p, kek, iv), rows, i);
    PrefixTestOnAnyValue(p, kek, rows[i].value.value);
  }

  // ---------- Passes and writers together ----------

  type Copy = string

  /** The column, what the application last wrote in each row, and the rows each copy has read but not yet handled. */
  datatype State = State(cells: map<Id, Option<string>>, written: map<Id, Option<string>>, pending: map<Copy, seq<Row>>)

  datatype Step =
    | Write(id: Id, value: Option<string>)              // by the application: any value, or null
    | Remove(id: Id)
    | Read(copy: Copy, ids: seq<Id>)                    // a batch, as the column is now
    | Handle(copy: Copy, kek: Kek, wrapIv: Bytes)       // its next row: rotate what was read, then swap
    | Stop(copy: Copy)

  /** Copies may differ in their current version, but every key any of them holds is among `all`. */
  ghost predicate Enabled(p: Primitives, all: Kek, s: State, step: Step) {
    match step
    case Write(_, _) => true
    case Remove(_) => true
    case Read(copy, ids) => copy !in s.pending && forall id <- ids :: id in s.cells
    case Handle(copy, kek, wrapIv) =>
      && copy in s.pending && |s.pending[copy]| > 0
      && Valid(kek) && WellFormed(p, kek.current) && Extends(all, kek) && |wrapIv| == IV_BYTES
    case Stop(_) => true
  }

  /** UPDATE … WHERE id = ? AND col = <what was read>. */
  function Swapped(p: Primitives, cells: map<Id, Option<string>>, kek: Kek, wrapIv: Bytes, row: Row): map<Id, Option<string>>
    requires Valid(kek)
  {
    if row.value.None? || Rotated(p, kek, wrapIv, row.value.value).Err? then cells
    else if row.id !in cells || cells[row.id] != row.value then cells
    else cells[row.id := Some(Rotated(p, kek, wrapIv, row.value.value).value)]
  }

  ghost function Next(p: Primitives, all: Kek, s: State, step: Step): State
    requires Enabled(p, all, s, step)
  {
    match step
    case Write(id, value) => s.(cells := s.cells[id := value], written := s.written[id := value])
    case Remove(id) => s.(cells := s.cells - {id}, written := s.written - {id})
    case Read(copy, ids) =>
      s.(pending := s.pending[copy := seq(|ids|, i requires 0 <= i < |ids| && ids[i] in s.cells => Row(ids[i], s.cells[ids[i]]))])
    case Handle(copy, kek, wrapIv) =>
      var rows := s.pending[copy];
      s.(cells := Swapped(p, s.cells, kek, wrapIv, rows[0]),
         pending := if |rows| == 1 then s.pending - {copy} else s.pending[copy := rows[1..]])
    case Stop(copy) => s.(pending := s.pending - {copy})
  }

  ghost predicate Runs(p: Primitives, all: Kek, s: State, steps: seq<Step>)
    decreases |steps|
  {
    steps == [] || (Enabled(p, all, s, steps[0]) && Runs(p, all, Next(p, all, s, steps[0]), steps[1..]))
  }

  ghost function After(p: Primitives, all: Kek, s: State, steps: seq<Step>): State
    requires Runs(p, all, s, steps)
    decreases |steps|
  {
    if steps == [] then s else After(p, all, Next(p, all, s, steps[0]), steps[1..])
  }

  /** Two stored values that decrypt alike under every associated data, with the same IV, tag and sealed bytes. */
  ghost predicate SameSecret(p: Primitives, all: Kek, a: Option<string>, b: Option<string>) {
    a == b || (a.Some? && b.Some? && SameMeaning(p, all, a.value, b.value))
  }

  ghost predicate SameMeaning(p: Primitives, all: Kek, a: string, b: string) {
    && Parse(p, a).Ok? && Parse(p, b).Ok? && Parse(p, a).value.body == Parse(p, b).value.body
    && forall aad: Option<string> :: Decrypted(p, all, a, aad) == Decrypted(p, all, b, aad)
  }

  ghost predicate Inv(p: Primitives, all: Kek, s: State) {
    && s.cells.Keys == s.written.Keys
    && forall id <- s.cells :: SameSecret(p, all, s.cells[id], s.written[id])
  }

  lemma {:induction false} RotationIsTheSameSecret(p: Primitives, all: Kek, kek: Kek, wrapIv: Bytes, value: string)
    requires Correct(p) && Valid(kek) && WellFormed(p, kek.current) && Extends(all, kek) && |wrapIv| == IV_BYTES
    requires Rotated(p, kek, wrapIv, value).Ok?
    ensures SameMeaning(p, all, Rotated(p, kek, wrapIv, value).value, value)
  {
    RotateReachesCurrent(p, kek, wrapIv, value);
    forall aad: Option<string>
      ensures Decrypted(p, all, Rotated(p, kek, wrapIv, value).value, aad) == Decrypted(p, all, value, aad)
    {
      RotateKeepsMeaning(p, all, kek, wrapIv, value, aad);
    }
  }

  lemma {:induction false} SameMeaningIsTransitive(p: Primitives, all: Kek, a: string, b: string, c: string)
    requires SameMeaning(p, all, a, b) && SameMeaning(p, all, b, c)
    ensures SameMeaning(p, all, a, c)
  {
    forall aad: Option<string>
      ensures Decrypted(p, all, a, aad) == Decrypted(p, all, c, aad)
    {
      assert Decrypted(p, all, a, aad) == Decrypted(p, all, b, aad);
    }
  }

  lemma {:induction false} SwapKeepsSecrets(p: Primitives, all: Kek, s: State, kek: Kek, wrapIv: Bytes, row: Row)
    requires Correct(p) && Inv(p, all, s)
    requires Valid(kek) && WellFormed(p, kek.current) && Extends(all, kek) && |wrapIv| == IV_BYTES
    ensures Inv(p, all, s.(cells := Swapped(p, s.cells, kek, wrapIv, row)))
  {
    var cells := Swapped(p, s.cells, kek, wrapIv, row);
    if row.value.Some? && Rotated(p, kek, wrapIv, row.value.value).Ok? && row.id in s.cells && s.cells[row.id] == row.value {
      RotationIsTheSameSecret(p, all, kek, wrapIv, row.value.value);
      if s.cells[row.id] != s.written[row.id] {
        SameMeaningIsTransitive(p, all, cells[row.id].value, row.value.value, s.written[row.id].value);
      }
    }
  }

  lemma {:induction false} RunKeepsInv(p: Primitives, all: Kek, s: State, steps: seq<Step>)
    requires Correct(p) && Inv(p, all, s) && Runs(p, all, s, steps)
    ensures Inv(p, all, After(p, all, s, steps))
    decreases |steps|
  {
    if steps != [] {
      if steps[0].Handle? {
        SwapKeepsSecrets(p, all, s, steps[0].kek, steps[0].wrapIv, s.pending[steps[0].copy][0]);
      }
      RunKeepsInv(p, all, Next(p, all, s, steps[0]), steps[1..]);
    }
  }

  function Start(): State {
    State(map[], map[], map[])
  }

  /**
   Whatever passes run beside whatever writes, each row reads as the application's last write of it
   does, under every associated data, and holds the same IV, tag and sealed bytes.
   */
  lemma {:induction false} EveryRowReadsAsLastWritten(p: Primitives, all: Kek, steps: seq<Step>, id: Id)
    requires Correct(p) && Runs(p, all, Start(), steps) && id in After(p, all, Start(), steps).cells
    ensures var s := After(p, all, Start(), steps);
            id in s.written && SameSecret(p, all, s.cells[id], s.written[id])
  {
    RunKeepsInv(p, all, Start(), steps);
  }

  /** In particular an encrypted write comes back as its plaintext. */
  lemma {:induction false} EncryptedWritesComeBack(p: Primitives, all: Kek, steps: seq<Step>, id: Id, kek: Kek, dataKey: Bytes,
                                                   iv: Bytes, wrapIv: Bytes, plain: Bytes, aad: Option<string>)
    requires Correct(p) && Runs(p, all, Start(), steps) && id in After(p, all, Start(), steps).written
    requires Valid(kek) && WellFormed(p, kek.current) && Extends(all, kek)
    requires |dataKey| == DATA_KEY_BYTES && |iv| == |wrapIv| == IV_BYTES
    requires After(p, all, Start(), steps).written[id] == Some(Encrypted(p, kek, dataKey, iv, wrapIv, plain, aad))
    ensures var s := After(p, all, Start(), steps);
            id in s.cells && s.cells[id].Some? && Decrypted(p, all, s.cells[id].value, aad) == Ok(plain)
  {
    RunKeepsInv(p, all, Start(), steps);
    DecryptEncrypt(p, kek, all, dataKey, iv, wrapIv, plain, aad);
  }
}

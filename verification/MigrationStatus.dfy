/** Comparing local migrations with the applied history: neighbouring rows and sets of ids are all that is
    looked at, and together they decide equality of the two sequences. */
module MigrationStatus {
  import opened Options

  /** A local artifact with the checksum computed for it. */
  datatype Migration = Migration(id: string, name: string, checksum: string)

  datatype HistoryRow = HistoryRow(id: string, name: Option<string>, checksum: Option<string>)

  datatype Kind = ChecksumMismatch | DuplicateApplied | MissingLocal | OutOfOrder

  datatype Drift = Drift(kind: Kind, id: string, name: Option<string>)

  datatype Status = Status(
    applied: seq<string>, pending: seq<string>, drift: seq<Drift>, current: string, target: string, clean: bool)

  type Comparison = (string, string) -> int

  /** What locale-aware comparison promises: a total preorder with the empty string first. */
  ghost predicate IsOrder(compare: Comparison) {
    && (forall a, b :: compare(a, b) > 0 <==> compare(b, a) < 0)
    && (forall a, b, c :: compare(a, b) <= 0 && compare(b, c) <= 0 ==> compare(a, c) <= 0)
    && (forall a :: compare("", a) <= 0)
  }

  function Ids(migrations: seq<Migration>): (ids: seq<string>)
    ensures |ids| == |migrations|
  {
    seq(|migrations|, i requires 0 <= i < |migrations| => migrations[i].id)
  }

  function AppliedIds(rows: seq<HistoryRow>): (ids: seq<string>)
    ensures |ids| == |rows|
  {
    seq(|rows|, i requires 0 <= i < |rows| => rows[i].id)
  }

  function IdSet(rows: seq<HistoryRow>): set<string> {
    if rows == [] then {} else IdSet(rows[..|rows| - 1]) + {rows[|rows| - 1].id}
  }

  lemma {:induction false} IdSetExactly(rows: seq<HistoryRow>, id: string)
    ensures id in IdSet(rows) <==> id in AppliedIds(rows)
  {
    if rows != [] {
      IdSetExactly(rows[..|rows| - 1], id);
      assert AppliedIds(rows) == AppliedIds(rows[..|rows| - 1]) + [rows[|rows| - 1].id];
    }
  }

  /** The last local migration of that id. */
  function Local(migrations: seq<Migration>, id: string): Option<Migration> {
    if migrations == [] then None
    else if migrations[|migrations| - 1].id == id then Some(migrations[|migrations| - 1])
    else Local(migrations[..|migrations| - 1], id)
  }

  predicate Matches(migration: Migration, row: HistoryRow) {
    row.checksum.None? || row.checksum.value == "" || row.checksum.value == migration.checksum
  }

  function Item(kind: Kind, row: HistoryRow): Drift {
    Drift(kind, row.id, row.name)
  }

  predicate Repeated(before: seq<HistoryRow>, row: HistoryRow) {
    row.id in IdSet(before)
  }

  predicate Misplaced(before: seq<HistoryRow>, row: HistoryRow, compare: Comparison) {
    before != [] && before[|before| - 1].id != "" && compare(before[|before| - 1].id, row.id) > 0
  }

  /** The drift so far and what one more row adds to it. */
  function WithRow(
    migrations: seq<Migration>, before: seq<HistoryRow>, row: HistoryRow, compare: Comparison, drift: seq<Drift>)
    : seq<Drift>
  {
    var local := Local(migrations, row.id);
    var repeated := if Repeated(before, row) then drift + [Item(DuplicateApplied, row)] else drift;
    var misplaced := if Misplaced(before, row, compare) then repeated + [Item(OutOfOrder, row)] else repeated;
    if local.None? then misplaced + [Item(MissingLocal, row)]
    else if !Matches(local.value, row) then misplaced + [Item(ChecksumMismatch, row)]
    else misplaced
  }

  function AllDrift(migrations: seq<Migration>, rows: seq<HistoryRow>, compare: Comparison): seq<Drift> {
    if rows == [] then []
    else
      var init, last := rows[..|rows| - 1], rows[|rows| - 1];
      WithRow(migrations, init, last, compare, AllDrift(migrations, init, compare))
  }

  function Pending(ids: seq<string>, applied: set<string>): seq<string> {
    if ids == [] then []
    else Pending(ids[..|ids| - 1], applied) + if ids[|ids| - 1] in applied then [] else [ids[|ids| - 1]]
  }

  function LastOr(ids: seq<string>, default: string): string {
    if ids == [] then default else ids[|ids| - 1]
  }

  function StatusOf(migrations: seq<Migration>, rows: seq<HistoryRow>, compare: Comparison): Status {
    var ids, applied := Ids(migrations), AppliedIds(rows);
    var pending := Pending(ids, IdSet(rows));
    var drift := AllDrift(migrations, rows, compare);
    Status(applied, pending, drift, LastOr(applied, "0"), LastOr(ids, "0"), pending == [] && drift == [])
  }

  // ------------------------------------------------------------------------------------------
  // The loops of the source.

  method CollectDrift(migrations: seq<Migration>, rows: seq<HistoryRow>, compare: Comparison)
    returns (drift: seq<Drift>)
    ensures drift == AllDrift(migrations, rows, compare)
  {
    drift := [];
    var seen: set<string> := {};
    var previous: Option<string> := None;
    for i := 0 to |rows|
      invariant drift == AllDrift(migrations, rows[..i], compare)
      invariant seen == IdSet(rows[..i])
      invariant previous == if i == 0 then None else Some(rows[i - 1].id)
    {
      hide AllDrift, IdSet, Local, Matches, Item;
      var row := rows[i];
      UpTo(migrations, rows, i, compare);
      if row.id in seen {
        drift := drift + [Item(DuplicateApplied, row)];
      }
      if previous.Some? && previous.value != "" && compare(previous.value, row.id) > 0 {
        drift := drift + [Item(OutOfOrder, row)];
      }
      seen := seen + {row.id};
      previous := Some(row.id);
      var local := Local(migrations, row.id);
      if local.None? {
        drift := drift + [Item(MissingLocal, row)];
      } else if !Matches(local.value, row) {
        drift := drift + [Item(ChecksumMismatch, row)];
      }
    }
    assert rows[..|rows|] == rows;
  }

  lemma UpTo(migrations: seq<Migration>, rows: seq<HistoryRow>, i: nat, compare: Comparison)
    requires i < |rows|
    ensures AllDrift(migrations, rows[..i + 1], compare) ==
            WithRow(migrations, rows[..i], rows[i], compare, AllDrift(migrations, rows[..i], compare))
    ensures IdSet(rows[..i + 1]) == IdSet(rows[..i]) + {rows[i].id}
    ensures i > 0 ==> rows[..i][|rows[..i]| - 1] == rows[i - 1]
  {
    assert rows[..i + 1][..i] == rows[..i];
  }

  method CreateMigrationStatus(migrations: seq<Migration>, rows: seq<HistoryRow>, compare: Comparison)
    returns (status: Status)
    ensures status == StatusOf(migrations, rows, compare)
  {
    var ids, applied := Ids(migrations), AppliedIds(rows);
    var appliedIds: set<string> := {};
    for i := 0 to |rows|
      invariant appliedIds == IdSet(rows[..i])
    {
      assert rows[..i + 1][..i] == rows[..i];
      appliedIds := appliedIds + {rows[i].id};
    }
    assert rows[..|rows|] == rows;
    var pending := [];
    for i := 0 to |ids|
      invariant pending == Pending(ids[..i], appliedIds)
    {
      assert ids[..i + 1][..i] == ids[..i];
      if ids[i] !in appliedIds {
        pending := pending + [ids[i]];
      }
    }
    assert ids[..|ids|] == ids;
    var drift := CollectDrift(migrations, rows, compare);
    status := Status(
      applied, pending, drift, LastOr(applied, "0"), LastOr(ids, "0"), pending == [] && drift == []);
  }

  // ------------------------------------------------------------------------------------------
  // What clean means.

  ghost predicate Sorted(ids: seq<string>, compare: Comparison) {
    forall i, j :: 0 <= i < j < |ids| ==> compare(ids[i], ids[j]) <= 0
  }

  ghost predicate StrictlySorted(ids: seq<string>, compare: Comparison) {
    forall i, j :: 0 <= i < j < |ids| ==> compare(ids[i], ids[j]) < 0
  }

  ghost predicate Distinct(ids: seq<string>) {
    forall i, j :: 0 <= i < j < |ids| ==> ids[i] != ids[j]
  }

  /** Every row is of a local migration, with its checksum when it has one. */
  ghost predicate RowsMatch(migrations: seq<Migration>, rows: seq<HistoryRow>) {
    forall i :: 0 <= i < |rows| ==>
      var local := Local(migrations, rows[i].id);
      local.Some? && Matches(local.value, rows[i])
  }

  ghost predicate NoDrift(migrations: seq<Migration>, rows: seq<HistoryRow>, compare: Comparison) {
    Distinct(AppliedIds(rows)) && Sorted(AppliedIds(rows), compare) && RowsMatch(migrations, rows)
  }

  /** Comparing neighbours is enough for one more row. */
  lemma {:induction false} SortedLast(ids: seq<string>, id: string, compare: Comparison)
    requires IsOrder(compare)
    ensures Sorted(ids + [id], compare) <==>
              Sorted(ids, compare) && (ids != [] ==> compare(ids[|ids| - 1], id) <= 0)
  {
    var all, n := ids + [id], |ids|;
    assert all[n] == id && forall i :: 0 <= i < n ==> all[i] == ids[i];
    if Sorted(all, compare) {
      forall i, j | 0 <= i < j < n ensures compare(ids[i], ids[j]) <= 0 { assert compare(all[i], all[j]) <= 0; }
      if n > 0 { assert compare(all[n - 1], all[n]) <= 0; }
    }
    if Sorted(ids, compare) && (n > 0 ==> compare(ids[n - 1], id) <= 0) {
      forall i, j | 0 <= i < j < |all| ensures compare(all[i], all[j]) <= 0 {
        if j == n && i < n - 1 { assert compare(ids[i], ids[n - 1]) <= 0; }
      }
    }
  }

  lemma DistinctLast(ids: seq<string>, id: string)
    ensures Distinct(ids + [id]) <==> Distinct(ids) && id !in ids
  {
    var all, n := ids + [id], |ids|;
    assert all[n] == id && forall i :: 0 <= i < n ==> all[i] == ids[i];
    forall i | 0 <= i < n ensures Distinct(all) ==> ids[i] != id {
      assert Distinct(all) ==> all[i] != all[n];
    }
  }

  lemma NoDriftLast(migrations: seq<Migration>, rows: seq<HistoryRow>, compare: Comparison)
    requires IsOrder(compare) && rows != []
    ensures var init, last := rows[..|rows| - 1], rows[|rows| - 1];
            NoDrift(migrations, rows, compare) <==>
              NoDrift(migrations, init, compare) && WithRow(migrations, init, last, compare, []) == []
  {
    hide Local, Matches, Sorted, Distinct, IdSet;
    var n := |rows| - 1;
    var init, last := rows[..n], rows[n];
    assert AppliedIds(rows) == AppliedIds(init) + [last.id];
    SortedLast(AppliedIds(init), last.id, compare);
    DistinctLast(AppliedIds(init), last.id);
    IdSetExactly(init, last.id);
    assert forall i :: 0 <= i < n ==> init[i] == rows[i];
    if n > 0 { assert AppliedIds(init)[n - 1] == init[n - 1].id; }
    assert RowsMatch(migrations, rows) <==>
      RowsMatch(migrations, init) && Local(migrations, last.id).Some? && Matches(Local(migrations, last.id).value, last);
  }

  lemma DriftGrows(
    migrations: seq<Migration>, before: seq<HistoryRow>, row: HistoryRow, compare: Comparison, drift: seq<Drift>)
    ensures WithRow(migrations, before, row, compare, drift) == [] <==>
              drift == [] && WithRow(migrations, before, row, compare, []) == []
  {
  }

  lemma {:induction false} NoDriftExactly(migrations: seq<Migration>, rows: seq<HistoryRow>, compare: Comparison)
    requires IsOrder(compare)
    ensures AllDrift(migrations, rows, compare) == [] <==> NoDrift(migrations, rows, compare)
  {
    hide WithRow, IsOrder;
    if rows != [] {
      var init, last := rows[..|rows| - 1], rows[|rows| - 1];
      NoDriftExactly(migrations, init, compare);
      NoDriftLast(migrations, rows, compare);
      DriftGrows(migrations, init, last, compare, AllDrift(migrations, init, compare));
      hide NoDrift;
    }
  }

  lemma {:induction false} NothingPending(ids: seq<string>, applied: set<string>)
    ensures Pending(ids, applied) == [] <==> forall i :: 0 <= i < |ids| ==> ids[i] in applied
  {
    if ids != [] {
      var n := |ids| - 1;
      NothingPending(ids[..n], applied);
      assert forall i :: 0 <= i < n ==> ids[..n][i] == ids[i];
    }
  }

  lemma {:induction false} LocalExactly(migrations: seq<Migration>, id: string)
    ensures Local(migrations, id).Some? <==> id in Ids(migrations)
    ensures Local(migrations, id).Some? ==> Local(migrations, id).value.id == id
  {
    if migrations != [] {
      var n := |migrations| - 1;
      LocalExactly(migrations[..n], id);
      assert Ids(migrations) == Ids(migrations[..n]) + [migrations[n].id];
    }
  }

  ghost function Elements(ids: seq<string>): set<string> {
    set i | 0 <= i < |ids| :: ids[i]
  }

  lemma SameElements(a: seq<string>, b: seq<string>)
    requires forall id :: id in a <==> id in b
    ensures Elements(a) == Elements(b)
  {
    assert forall id :: id in Elements(a) <==> id in a;
    assert forall id :: id in Elements(b) <==> id in b;
  }

  /** Two strictly sorted sequences with the same elements are the same. */
  lemma {:induction false} SortedUnique(a: seq<string>, b: seq<string>, compare: Comparison)
    requires IsOrder(compare) && StrictlySorted(a, compare) && StrictlySorted(b, compare)
    requires Elements(a) == Elements(b)
    ensures a == b
    decreases |a|
  {
    hide IsOrder, StrictlySorted;
    assert b != [] ==> b[0] in Elements(b);
    assert a != [] ==> a[0] in Elements(a);
    if a != [] {
      LastElement(a, b, compare);
      WithoutLast(a, compare);
      WithoutLast(b, compare);
      SortedUnique(a[..|a| - 1], b[..|b| - 1], compare);
      assert a == a[..|a| - 1] + [a[|a| - 1]] && b == b[..|b| - 1] + [b[|b| - 1]];
    }
  }

  lemma {:induction false} LastElement(a: seq<string>, b: seq<string>, compare: Comparison)
    requires IsOrder(compare) && StrictlySorted(a, compare) && StrictlySorted(b, compare)
    requires a != [] && b != [] && Elements(a) == Elements(b)
    ensures a[|a| - 1] == b[|b| - 1]
  {
    assert a[|a| - 1] in Elements(b) && b[|b| - 1] in Elements(a);
    var i: nat :| i < |b| && b[i] == a[|a| - 1];
    var j: nat :| j < |a| && a[j] == b[|b| - 1];
  }

  lemma {:induction false} WithoutLast(ids: seq<string>, compare: Comparison)
    requires IsOrder(compare) && StrictlySorted(ids, compare) && ids != []
    ensures StrictlySorted(ids[..|ids| - 1], compare)
    ensures Elements(ids[..|ids| - 1]) == Elements(ids) - {ids[|ids| - 1]}
  {
    var n := |ids| - 1;
    assert !(compare(ids[n], ids[n]) < 0);
    forall i | 0 <= i < n ensures ids[i] != ids[n] {
      assert compare(ids[i], ids[n]) < 0;
    }
    assert forall i :: 0 <= i < n ==> ids[..n][i] == ids[i];
  }

  /** With local ids in strict order, the status is clean exactly when the applied ids are the local ones,
      in that order, and every recorded checksum is that of its migration. */
  lemma {:induction false} CleanExactly(migrations: seq<Migration>, rows: seq<HistoryRow>, compare: Comparison)
    requires IsOrder(compare) && StrictlySorted(Ids(migrations), compare)
    ensures StatusOf(migrations, rows, compare).clean <==>
              && |rows| == |migrations|
              && forall i :: 0 <= i < |rows| ==> rows[i].id == migrations[i].id && Matches(migrations[i], rows[i])
  {
    hide Pending, AllDrift, Local, Matches, IdSet;
    var ids, applied := Ids(migrations), AppliedIds(rows);
    NothingPending(ids, IdSet(rows));
    NoDriftExactly(migrations, rows, compare);
    if StatusOf(migrations, rows, compare).clean {
      forall i | 0 <= i < |migrations| ensures migrations[i].id in applied {
        IdSetExactly(rows, ids[i]);
      }
      CleanIsEqual(migrations, rows, compare);
    }
    if |rows| == |migrations| && forall i :: 0 <= i < |rows| ==> rows[i].id == migrations[i].id && Matches(migrations[i], rows[i]) {
      EqualIsClean(migrations, rows, compare);
      forall i | 0 <= i < |ids| ensures ids[i] in IdSet(rows) { IdSetExactly(rows, ids[i]); }
    }
  }

  /** In strict order an id has one migration. */
  lemma {:induction false} LocalAt(migrations: seq<Migration>, i: nat, compare: Comparison)
    requires IsOrder(compare) && StrictlySorted(Ids(migrations), compare) && i < |migrations|
    ensures Local(migrations, migrations[i].id) == Some(migrations[i])
  {
    var n := |migrations| - 1;
    var ids := Ids(migrations);
    if i < n {
      assert compare(ids[i], ids[n]) < 0;
      var init := migrations[..n];
      assert Ids(init) == ids[..n];
      assert init[i] == migrations[i];
      LocalAt(init, i, compare);
    }
  }

  lemma {:induction false} CleanIsEqual(migrations: seq<Migration>, rows: seq<HistoryRow>, compare: Comparison)
    requires IsOrder(compare) && StrictlySorted(Ids(migrations), compare)
    requires NoDrift(migrations, rows, compare)
    requires forall i :: 0 <= i < |migrations| ==> migrations[i].id in AppliedIds(rows)
    ensures AppliedIds(rows) == Ids(migrations)
    ensures forall i :: 0 <= i < |rows| ==> rows[i].id == migrations[i].id && Matches(migrations[i], rows[i])
  {
    hide Local, Matches;
    var ids, applied := Ids(migrations), AppliedIds(rows);
    forall id ensures id in applied <==> id in ids {
      LocalExactly(migrations, id);
      if id in applied { var i :| 0 <= i < |applied| && applied[i] == id; assert Local(migrations, rows[i].id).Some?; }
      if id in ids { var i :| 0 <= i < |ids| && ids[i] == id; assert migrations[i].id == id; }
    }
    SameElements(applied, ids);
    forall i, j | 0 <= i < j < |applied| ensures compare(applied[i], applied[j]) < 0 {
      assert applied[i] in ids && applied[j] in ids && applied[i] != applied[j];
    }
    SortedUnique(applied, ids, compare);
    forall i | 0 <= i < |rows| ensures rows[i].id == migrations[i].id && Matches(migrations[i], rows[i]) {
      assert applied[i] == ids[i];
      LocalAt(migrations, i, compare);
    }
  }

  lemma {:induction false} EqualIsClean(migrations: seq<Migration>, rows: seq<HistoryRow>, compare: Comparison)
    requires IsOrder(compare) && StrictlySorted(Ids(migrations), compare)
    requires |rows| == |migrations|
    requires forall i :: 0 <= i < |rows| ==> rows[i].id == migrations[i].id && Matches(migrations[i], rows[i])
    ensures NoDrift(migrations, rows, compare) && AppliedIds(rows) == Ids(migrations)
    ensures forall i :: 0 <= i < |migrations| ==> migrations[i].id in AppliedIds(rows)
  {
    hide Local, Matches;
    var ids := Ids(migrations);
    assert AppliedIds(rows) == ids;
    assert Sorted(ids, compare);
    forall i, j | 0 <= i < j < |ids| ensures ids[i] != ids[j] {
      assert compare(ids[i], ids[j]) < 0 && !(compare(ids[i], ids[i]) < 0);
    }
    forall i | 0 <= i < |rows|
      ensures Local(migrations, rows[i].id).Some? && Matches(Local(migrations, rows[i].id).value, rows[i])
    {
      LocalAt(migrations, i, compare);
    }
    forall i | 0 <= i < |migrations| ensures migrations[i].id in AppliedIds(rows) {
      assert AppliedIds(rows)[i] == migrations[i].id;
    }
  }

  // ------------------------------------------------------------------------------------------
  // What the status tells.

  /** Why a row is reported: an earlier row has its id; the row before it, if it has an id, sorts after it; no
      local migration has its id; or the last one that does has another checksum than the one recorded. */
  ghost predicate Reported(migrations: seq<Migration>, rows: seq<HistoryRow>, i: nat, compare: Comparison, kind: Kind)
    requires i < |rows|
  {
    match kind
    case DuplicateApplied => exists j :: 0 <= j < i && rows[j].id == rows[i].id
    case OutOfOrder => i > 0 && rows[i - 1].id != "" && compare(rows[i - 1].id, rows[i].id) > 0
    case MissingLocal => forall m :: 0 <= m < |migrations| ==> migrations[m].id != rows[i].id
    case ChecksumMismatch =>
      && (exists m: nat :: IsLocal(migrations, m, rows[i].id) && rows[i].checksum != Some(migrations[m].checksum))
      && rows[i].checksum.Some? && rows[i].checksum.value != ""
  }

  /** The last migration of that id. */
  ghost predicate IsLocal(migrations: seq<Migration>, m: nat, id: string) {
    m < |migrations| && migrations[m].id == id && forall k :: m < k < |migrations| ==> migrations[k].id != id
  }

  lemma {:induction false} LocalIsLast(migrations: seq<Migration>, id: string)
    ensures var local := Local(migrations, id);
            && (local.None? <==> forall m :: 0 <= m < |migrations| ==> migrations[m].id != id)
            && (local.Some? ==> exists m: nat :: IsLocal(migrations, m, id) && migrations[m] == local.value)
            && forall m: nat :: IsLocal(migrations, m, id) ==> local == Some(migrations[m])
  {
    if migrations != [] {
      var n := |migrations| - 1;
      var init := migrations[..n];
      LocalIsLast(init, id);
      if migrations[n].id == id {
        assert IsLocal(migrations, n, id);
      } else {
        assert forall m: nat :: IsLocal(migrations, m, id) <==> IsLocal(init, m, id);
      }
    }
  }

  /** What one row adds, in this order. */
  ghost function RowDrift(migrations: seq<Migration>, rows: seq<HistoryRow>, i: nat, compare: Comparison): seq<Drift>
    requires i < |rows|
  {
    ReportOf(migrations, rows, i, compare, DuplicateApplied) + ReportOf(migrations, rows, i, compare, OutOfOrder)
    + ReportOf(migrations, rows, i, compare, MissingLocal) + ReportOf(migrations, rows, i, compare, ChecksumMismatch)
  }

  ghost function ReportOf(
    migrations: seq<Migration>, rows: seq<HistoryRow>, i: nat, compare: Comparison, kind: Kind): seq<Drift>
    requires i < |rows|
  {
    if Reported(migrations, rows, i, compare, kind) then [Drift(kind, rows[i].id, rows[i].name)] else []
  }

  ghost function Reports(migrations: seq<Migration>, rows: seq<HistoryRow>, n: nat, compare: Comparison): seq<Drift>
    requires n <= |rows|
  {
    if n == 0 then [] else Reports(migrations, rows, n - 1, compare) + RowDrift(migrations, rows, n - 1, compare)
  }

  lemma {:induction false} RepeatedReports(rows: seq<HistoryRow>, i: nat)
    requires i < |rows|
    ensures Repeated(rows[..i], rows[i]) <==> exists j :: 0 <= j < i && rows[j].id == rows[i].id
  {
    var ids := AppliedIds(rows[..i]);
    IdSetExactly(rows[..i], rows[i].id);
    assert forall j :: 0 <= j < i ==> ids[j] == rows[j].id;
  }

  lemma LocalReports(migrations: seq<Migration>, rows: seq<HistoryRow>, i: nat, compare: Comparison)
    requires i < |rows|
    ensures var local := Local(migrations, rows[i].id);
            && (local.None? <==> Reported(migrations, rows, i, compare, MissingLocal))
            && (local.Some? && !Matches(local.value, rows[i]) <==>
                  Reported(migrations, rows, i, compare, ChecksumMismatch))
  {
    LocalIsLast(migrations, rows[i].id);
    hide Local;
  }

  lemma RowReports(migrations: seq<Migration>, rows: seq<HistoryRow>, i: nat, compare: Comparison, drift: seq<Drift>)
    requires i < |rows|
    ensures WithRow(migrations, rows[..i], rows[i], compare, drift) == drift + RowDrift(migrations, rows, i, compare)
  {
    RepeatedReports(rows, i);
    assert Misplaced(rows[..i], rows[i], compare) <==> Reported(migrations, rows, i, compare, OutOfOrder);
    assert Repeated(rows[..i], rows[i]) <==> Reported(migrations, rows, i, compare, DuplicateApplied);
    LocalReports(migrations, rows, i, compare);
    hide Repeated, Misplaced, Reported, Local, Matches;
  }

  /** The drift is, row by row, exactly what is to be reported of each. */
  lemma {:induction false} DriftExactly(migrations: seq<Migration>, rows: seq<HistoryRow>, n: nat, compare: Comparison)
    requires n <= |rows|
    ensures AllDrift(migrations, rows[..n], compare) == Reports(migrations, rows, n, compare)
  {
    if n > 0 {
      DriftExactly(migrations, rows, n - 1, compare);
      RowReports(migrations, rows, n - 1, compare, Reports(migrations, rows, n - 1, compare));
      assert rows[..n][..n - 1] == rows[..n - 1];
    }
  }

  /** In order, none left out and none repeated. */
  predicate Sublist(part: seq<string>, all: seq<string>) {
    part == [] ||
      (all != [] &&
        if part[|part| - 1] == all[|all| - 1] && Sublist(part[..|part| - 1], all[..|all| - 1]) then true
        else Sublist(part, all[..|all| - 1]))
  }

  lemma {:induction false} PendingCounts(ids: seq<string>, applied: set<string>, id: string)
    ensures multiset(Pending(ids, applied))[id] == if id in applied then 0 else multiset(ids)[id]
  {
    if ids != [] {
      var init, last := ids[..|ids| - 1], ids[|ids| - 1];
      PendingCounts(init, applied, id);
      assert ids == init + [last];
    }
  }

  lemma {:induction false} PendingInOrder(ids: seq<string>, applied: set<string>)
    ensures Sublist(Pending(ids, applied), ids)
  {
    if ids != [] {
      var init, last := ids[..|ids| - 1], ids[|ids| - 1];
      PendingInOrder(init, applied);
      var before := Pending(init, applied);
      if last !in applied {
        assert (before + [last])[..|before|] == before;
      } else {
        assert before + [] == before;
        SublistLonger(before, ids);
      }
    }
  }

  lemma SublistLonger(part: seq<string>, all: seq<string>)
    requires all != [] && Sublist(part, all[..|all| - 1])
    ensures Sublist(part, all)
  {
  }

  /** Pending are the local ids no row has, each as often as it is local and in the same order; the current id
      is that of the last row, the target that of the last migration, and both are "0" if there is none. */
  lemma StatusTells(migrations: seq<Migration>, rows: seq<HistoryRow>, compare: Comparison, id: string)
    ensures var s := StatusOf(migrations, rows, compare);
            && s.applied == AppliedIds(rows)
            && multiset(s.pending)[id] == (if id in AppliedIds(rows) then 0 else multiset(Ids(migrations))[id])
            && Sublist(s.pending, Ids(migrations))
            && s.drift == Reports(migrations, rows, |rows|, compare)
            && s.current == (if rows == [] then "0" else rows[|rows| - 1].id)
            && s.target == (if migrations == [] then "0" else migrations[|migrations| - 1].id)
  {
    hide IdSet, Pending, AllDrift, Reports, Sublist, Ids, AppliedIds;
    IdSetExactly(rows, id);
    PendingCounts(Ids(migrations), IdSet(rows), id);
    PendingInOrder(Ids(migrations), IdSet(rows));
    DriftExactly(migrations, rows, |rows|, compare);
    assert rows[..|rows|] == rows;
    LastIds(migrations, rows);
  }

  lemma LastIds(migrations: seq<Migration>, rows: seq<HistoryRow>)
    ensures |AppliedIds(rows)| == |rows| && |Ids(migrations)| == |migrations|
    ensures rows != [] ==> AppliedIds(rows)[|rows| - 1] == rows[|rows| - 1].id
    ensures migrations != [] ==> Ids(migrations)[|migrations| - 1] == migrations[|migrations| - 1].id
  {
  }
}

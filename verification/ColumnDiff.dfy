/** The difference between the known and the newly announced columns of a table. */
module ColumnDiff {
  import opened Wrappers

  /** What makes a column besides its name. */
  datatype Attributes = Attributes(
    pgType: string,
    dataType: nat,
    modifiers: int,
    nullable: bool,
    primaryKey: bool,
    replicaIdent: bool,
    keySeq: Option<int>,
    defaultValue: Option<string>,
    indexName: Option<string>,
    dimension: bool,
    dimAligned: bool,
    dimType: Option<string>,
    dimSeq: Option<int>,
    maxCharLength: Option<int>)

  datatype Column = Column(name: string, attributes: Attributes)

  predicate SameExceptName(a: Column, b: Column) {
    a.attributes == b.attributes
  }

  datatype Difference =
    | Dropped(column: Column)
    | Renamed(from: string, to: string)
    | Changed(before: Column, after: Column)
    | Added(column: Column)

  type Differences = map<string, Difference>

  function Min(a: nat, b: nat): nat {
    if a < b then a else b
  }

  /** Some later column is the same in both lists. */
  predicate LooksAhead(oldColumns: seq<Column>, newColumns: seq<Column>, i: nat) {
    exists o :: i <= o < Min(|oldColumns|, |newColumns|) && oldColumns[o] == newColumns[o]
  }

  /** A column that is the same up to its name: whether it counts as renamed, under which name, and whether the new
      column is then used up. */
  function RenameAt(oldColumns: seq<Column>, newColumns: seq<Column>, i: nat, newIndex: nat): Option<(string, bool)>
    requires i < |oldColumns| && newIndex < |newColumns|
  {
    var c1, c2 := oldColumns[i], newColumns[newIndex];
    if !SameExceptName(c1, c2) then None
    else if newIndex + 1 == |newColumns| then Some((c1.name, i < |newColumns|))
    else if LooksAhead(oldColumns, newColumns, i) then Some((c2.name, true))
    else None
  }

  /** One column of the old list against the next unused column of the new list. */
  function Compare(oldColumns: seq<Column>, newColumns: seq<Column>, i: nat, newIndex: nat, found: Differences):
    (Differences, nat)
    requires i < |oldColumns|
  {
    var c1 := oldColumns[i];
    if |newColumns| <= newIndex then (found[c1.name := Dropped(c1)], newIndex)
    else
      var c2 := newColumns[newIndex];
      if c1 == c2 then (found, newIndex + 1)
      else
        var rename := RenameAt(oldColumns, newColumns, i, newIndex);
        var dropped := i + 1 < |oldColumns| && oldColumns[i + 1] == c2;
        var renamed := if rename.Some? then found[rename.value.0 := Renamed(c1.name, c2.name)] else found;
        if dropped then
          (renamed[c1.name := Dropped(c1)], if rename.Some? && rename.value.1 then newIndex + 1 else newIndex)
        else if rename.Some? then (renamed, if rename.value.1 then newIndex + 1 else newIndex)
        else (found[c1.name := Changed(c1, c2)], newIndex + 1)
  }

  /** The differences after the first `n` old columns, and the next unused new column. */
  function CompareAll(oldColumns: seq<Column>, newColumns: seq<Column>, n: nat): (Differences, nat)
    requires n <= |oldColumns|
  {
    if n == 0 then (map[], 0)
    else
      var (found, newIndex) := CompareAll(oldColumns, newColumns, n - 1);
      Compare(oldColumns, newColumns, n - 1, newIndex, found)
  }

  /** The new columns from `from` up to `to` are added. */
  function AddAll(newColumns: seq<Column>, from: nat, to: nat, found: Differences): Differences
    requires to <= |newColumns|
  {
    if to <= from then found
    else AddAll(newColumns, from, to - 1, found)[newColumns[to - 1].name := Added(newColumns[to - 1])]
  }

  function Diff(oldColumns: seq<Column>, newColumns: seq<Column>): Differences {
    var (found, newIndex) := CompareAll(oldColumns, newColumns, |oldColumns|);
    AddAll(newColumns, newIndex, |newColumns|, found)
  }

  class BaseTable {
    var columns: seq<Column>
    var tableColumns: seq<Column>

    /** A table starts without columns. */
    constructor ()
      ensures columns == [] == tableColumns
    {
      columns := [];
      tableColumns := [];
    }

    method ApplyTableSchema(newColumns: seq<Column>) returns (differences: Differences)
      modifies this
      ensures columns == newColumns == tableColumns
      ensures differences == Diff(old(columns), newColumns)
    {
      var oldColumns := columns;
      columns := newColumns;
      tableColumns := [];
      var k := 0;
      while k < |newColumns|
        invariant 0 <= k <= |newColumns| && tableColumns == newColumns[..k] && columns == newColumns
      {
        tableColumns := tableColumns + [newColumns[k]];
        k := k + 1;
      }
      assert newColumns[..k] == newColumns;
      differences := CompareColumns(oldColumns, newColumns);
    }
  }

  method CompareColumns(oldColumns: seq<Column>, newColumns: seq<Column>) returns (differences: Differences)
    ensures differences == Diff(oldColumns, newColumns)
  {
    hide Compare;
    var newIndex := 0;
    differences := map[];
    var i := 0;
    while i < |oldColumns|
      invariant 0 <= i <= |oldColumns|
      invariant (differences, newIndex) == CompareAll(oldColumns, newColumns, i)
    {
      differences, newIndex := CompareColumn(oldColumns, newColumns, i, newIndex, differences);
      i := i + 1;
    }
    ghost var found := differences;
    var j := newIndex;
    while j < |newColumns|
      invariant newIndex <= j && (j <= |newColumns| || j == newIndex)
      invariant differences == AddAll(newColumns, newIndex, Min(j, |newColumns|), found)
    {
      differences := differences[newColumns[j].name := Added(newColumns[j])];
      j := j + 1;
    }
  }

  /** The body of the loop over the old columns. */
  method CompareColumn(oldColumns: seq<Column>, newColumns: seq<Column>, i: nat, index: nat, found: Differences)
    returns (differences: Differences, newIndex: nat)
    requires i < |oldColumns|
    ensures (differences, newIndex) == Compare(oldColumns, newColumns, i, index, found)
  {
    differences, newIndex := found, index;
    var c1 := oldColumns[i];
    if |newColumns| <= newIndex {
      differences := differences[c1.name := Dropped(c1)];
      return;
    }
    var c2 := newColumns[newIndex];
    if c1 == c2 {
      newIndex := newIndex + 1;
      return;
    }
    var handled := false;
    if SameExceptName(c1, c2) {
      if newIndex + 1 == |newColumns| {
        differences := differences[c1.name := Renamed(c1.name, c2.name)];
        handled := true;
        if i < |newColumns| {
          newIndex := newIndex + 1;
        }
      } else {
        var lookAheadSuccessful := LookAhead(oldColumns, newColumns, i);
        if lookAheadSuccessful {
          differences := differences[c2.name := Renamed(c1.name, c2.name)];
          handled := true;
          newIndex := newIndex + 1;
        }
      }
    }
    if |oldColumns| > i + 1 && oldColumns[i + 1] == c2 {
      differences := differences[c1.name := Dropped(c1)];
      handled := true;
    }
    if !handled {
      differences := differences[c1.name := Changed(c1, c2)];
      newIndex := newIndex + 1;
    }
  }

  method LookAhead(oldColumns: seq<Column>, newColumns: seq<Column>, i: nat) returns (successful: bool)
    ensures successful == LooksAhead(oldColumns, newColumns, i)
  {
    successful := false;
    var o := i;
    while o < Min(|oldColumns|, |newColumns|)
      invariant i <= o && (o <= Min(|oldColumns|, |newColumns|) || o == i)
      invariant successful == exists k :: i <= k < o && oldColumns[k] == newColumns[k]
    {
      if oldColumns[o] == newColumns[o] {
        successful := true;
      }
      o := o + 1;
    }
  }

  // ---------------------------------------------------------------------------------------------
  // What the differences say
  // ---------------------------------------------------------------------------------------------

  lemma CompareFinds(oldColumns: seq<Column>, newColumns: seq<Column>, i: nat, newIndex: nat, found: Differences)
    requires i < |oldColumns|
    ensures var (after, next) := Compare(oldColumns, newColumns, i, newIndex, found);
            if newIndex < |newColumns| && oldColumns[i] == newColumns[newIndex] then
              after == found && next == newIndex + 1
            else after != map[]
  {
    var (after, next) := Compare(oldColumns, newColumns, i, newIndex, found);
    if !(newIndex < |newColumns| && oldColumns[i] == newColumns[newIndex]) {
      var c1 := oldColumns[i];
      assert c1.name in after || (newIndex < |newColumns| && newColumns[newIndex].name in after);
    }
  }

  /** As long as nothing was found, the lists are the same so far. */
  lemma {:induction false} NothingFound(oldColumns: seq<Column>, newColumns: seq<Column>, n: nat)
    requires n <= |oldColumns|
    ensures CompareAll(oldColumns, newColumns, n).0 == map[] <==>
              n <= |newColumns| && oldColumns[..n] == newColumns[..n]
    ensures CompareAll(oldColumns, newColumns, n).0 == map[] ==> CompareAll(oldColumns, newColumns, n).1 == n
  {
    if n > 0 {
      NothingFound(oldColumns, newColumns, n - 1);
      var (found, newIndex) := CompareAll(oldColumns, newColumns, n - 1);
      CompareFinds(oldColumns, newColumns, n - 1, newIndex, found);
      CompareGrows(oldColumns, newColumns, n - 1, newIndex, found);
      assert oldColumns[..n] == oldColumns[..n - 1] + [oldColumns[n - 1]];
      if n <= |newColumns| {
        assert newColumns[..n] == newColumns[..n - 1] + [newColumns[n - 1]];
        assert oldColumns[..n] == newColumns[..n] ==> oldColumns[..n][..n - 1] == newColumns[..n][..n - 1];
      }
    }
  }

  lemma CompareGrows(oldColumns: seq<Column>, newColumns: seq<Column>, i: nat, newIndex: nat, found: Differences)
    requires i < |oldColumns|
    ensures found != map[] ==> Compare(oldColumns, newColumns, i, newIndex, found).0 != map[]
  {
    if found != map[] {
      var name :| name in found;
      assert name in Compare(oldColumns, newColumns, i, newIndex, found).0;
    }
  }

  lemma {:induction false} AddAllLookup(newColumns: seq<Column>, from: nat, to: nat, found: Differences)
    requires to <= |newColumns|
    ensures from < to || found != map[] <==> AddAll(newColumns, from, to, found) != map[]
  {
    if from < to {
      assert newColumns[to - 1].name in AddAll(newColumns, from, to, found);
    }
  }

  /** No difference is reported if and only if the two lists have the same length and the same columns in the same
      order. */
  lemma NoDifferenceExactly(oldColumns: seq<Column>, newColumns: seq<Column>)
    ensures Diff(oldColumns, newColumns) == map[] <==> oldColumns == newColumns
  {
    var n := |oldColumns|;
    NothingFound(oldColumns, newColumns, n);
    var (found, newIndex) := CompareAll(oldColumns, newColumns, n);
    AddAllLookup(newColumns, newIndex, |newColumns|, found);
    assert oldColumns[..n] == oldColumns;
    assert newColumns[..|newColumns|] == newColumns;
  }

  /** The last of the columns from `from` up to `to` with this name, `to` if there is none. */
  function LastNamed(columns: seq<Column>, from: nat, to: nat, name: string): (i: nat)
    requires from <= to <= |columns|
    ensures from <= i <= to
    ensures i < to ==> columns[i].name == name && forall k :: i < k < to ==> columns[k].name != name
    ensures i == to ==> forall k :: from <= k < to ==> columns[k].name != name
  {
    if from == to then to
    else if columns[to - 1].name == name then to - 1
    else
      var i := LastNamed(columns, from, to - 1, name);
      if i == to - 1 then to else i
  }

  lemma {:induction false} AddedEntry(columns: seq<Column>, from: nat, to: nat, name: string)
    requires from <= to <= |columns|
    ensures var i := LastNamed(columns, from, to, name);
            var added := AddAll(columns, from, to, map[]);
            (name in added <==> i < to) && (i < to ==> added[name] == Added(columns[i]))
  {
    if from < to {
      AddedEntry(columns, from, to - 1, name);
    }
  }

  /** Columns appended to the table are reported as added under their names, the last one of a name, and nothing else is
      reported. */
  lemma AppendedAreAdded(oldColumns: seq<Column>, appended: seq<Column>, name: string)
    ensures var diff := Diff(oldColumns, oldColumns + appended);
            var i := LastNamed(appended, 0, |appended|, name);
            (name in diff <==> i < |appended|) && (i < |appended| ==> diff[name] == Added(appended[i]))
  {
    var all, n := oldColumns + appended, |oldColumns|;
    NothingFound(oldColumns, all, n);
    assert all[..n] == oldColumns == oldColumns[..n];
    AddedEntry(all, n, |all|, name);
    SameLast(oldColumns, appended, name);
  }

  lemma SameLast(first: seq<Column>, second: seq<Column>, name: string)
    ensures LastNamed(first + second, |first|, |first + second|, name) == |first| + LastNamed(second, 0, |second|, name)
  {
    var all, i := first + second, LastNamed(second, 0, |second|, name);
    assert forall k :: 0 <= k < |second| ==> all[|first| + k] == second[k];
    var j := LastNamed(all, |first|, |all|, name);
    assert j < |all| ==> second[j - |first|] == all[j];
  }

  function DropAll(columns: seq<Column>, from: nat, to: nat): Differences
    requires to <= |columns|
  {
    if to <= from then map[] else DropAll(columns, from, to - 1)[columns[to - 1].name := Dropped(columns[to - 1])]
  }

  lemma {:induction false} TailIsDropped(newColumns: seq<Column>, dropped: seq<Column>, n: nat)
    requires |newColumns| <= n <= |newColumns + dropped|
    ensures CompareAll(newColumns + dropped, newColumns, n) ==
              (DropAll(newColumns + dropped, |newColumns|, n), |newColumns|)
  {
    var oldColumns := newColumns + dropped;
    if n == |newColumns| {
      NothingFound(oldColumns, newColumns, n);
      assert oldColumns[..n] == newColumns == newColumns[..n];
    } else {
      TailIsDropped(newColumns, dropped, n - 1);
    }
  }

  lemma {:induction false} DroppedEntry(columns: seq<Column>, from: nat, to: nat, name: string)
    requires from <= to <= |columns|
    ensures var i := LastNamed(columns, from, to, name);
            var dropped := DropAll(columns, from, to);
            (name in dropped <==> i < to) && (i < to ==> dropped[name] == Dropped(columns[i]))
  {
    if from < to {
      DroppedEntry(columns, from, to - 1, name);
    }
  }

  /** Columns dropped from the end of the table are reported as dropped under their names, and nothing else is
      reported. */
  lemma TrailingAreDropped(newColumns: seq<Column>, dropped: seq<Column>, name: string)
    ensures var diff := Diff(newColumns + dropped, newColumns);
            var i := LastNamed(dropped, 0, |dropped|, name);
            (name in diff <==> i < |dropped|) && (i < |dropped| ==> diff[name] == Dropped(dropped[i]))
  {
    var all := newColumns + dropped;
    TailIsDropped(newColumns, dropped, |all|);
    DroppedEntry(all, |newColumns|, |all|, name);
    SameLast(newColumns, dropped, name);
  }

  // ---------------------------------------------------------------------------------------------
  // What every entry says
  // ---------------------------------------------------------------------------------------------

  /** The columns `i` and `j` differ in their names only; the rename is filed under the new name, but under the old one
      for the last new column. */
  predicate IsRename(oldColumns: seq<Column>, newColumns: seq<Column>, name: string, d: Difference, i: nat, j: nat)
    requires i < |oldColumns| && j < |newColumns|
  {
    && SameExceptName(oldColumns[i], newColumns[j]) && oldColumns[i].name != newColumns[j].name
    && d == Renamed(oldColumns[i].name, newColumns[j].name)
    && name == if j + 1 == |newColumns| then oldColumns[i].name else newColumns[j].name
  }

  /** What is reported under a name is about columns of the two lists. */
  ghost predicate Honest(oldColumns: seq<Column>, newColumns: seq<Column>, name: string, d: Difference) {
    match d
    case Dropped(column) => column in oldColumns && name == column.name
    case Added(column) => column in newColumns && name == column.name
    case Changed(before, after) => before in oldColumns && after in newColumns && before != after && name == before.name
    case Renamed(_, _) =>
      exists i, j :: 0 <= i < |oldColumns| && 0 <= j < |newColumns| && IsRename(oldColumns, newColumns, name, d, i, j)
  }

  ghost predicate AllHonest(oldColumns: seq<Column>, newColumns: seq<Column>, found: Differences) {
    forall name :: name in found ==> Honest(oldColumns, newColumns, name, found[name])
  }

  lemma CompareHonest(oldColumns: seq<Column>, newColumns: seq<Column>, i: nat, newIndex: nat, found: Differences)
    requires i < |oldColumns| && AllHonest(oldColumns, newColumns, found)
    ensures AllHonest(oldColumns, newColumns, Compare(oldColumns, newColumns, i, newIndex, found).0)
  {
    hide LooksAhead;
    var after := Compare(oldColumns, newColumns, i, newIndex, found).0;
    var c1 := oldColumns[i];
    forall name | name in after ensures Honest(oldColumns, newColumns, name, after[name]) {
      if newIndex < |newColumns| && after[name] == Renamed(c1.name, newColumns[newIndex].name) &&
         (name !in found || after[name] != found[name])
      {
        assert IsRename(oldColumns, newColumns, name, after[name], i, newIndex);
      }
    }
  }

  lemma {:induction false} CompareAllHonest(oldColumns: seq<Column>, newColumns: seq<Column>, n: nat)
    requires n <= |oldColumns|
    ensures AllHonest(oldColumns, newColumns, CompareAll(oldColumns, newColumns, n).0)
  {
    if n > 0 {
      CompareAllHonest(oldColumns, newColumns, n - 1);
      var (found, newIndex) := CompareAll(oldColumns, newColumns, n - 1);
      hide AllHonest, Compare;
      CompareHonest(oldColumns, newColumns, n - 1, newIndex, found);
    }
  }

  lemma {:induction false} AddAllHonest(
      oldColumns: seq<Column>, newColumns: seq<Column>, from: nat, to: nat, found: Differences)
    requires to <= |newColumns| && AllHonest(oldColumns, newColumns, found)
    ensures AllHonest(oldColumns, newColumns, AddAll(newColumns, from, to, found))
  {
    if from < to {
      AddAllHonest(oldColumns, newColumns, from, to - 1, found);
    }
  }

  /** Whatever the lists: dropped columns and columns before a change are old ones, added columns and columns after a
      change are new ones, and a rename goes from an old to a new column that differ in their names only. */
  lemma DiffIsHonest(oldColumns: seq<Column>, newColumns: seq<Column>)
    ensures AllHonest(oldColumns, newColumns, Diff(oldColumns, newColumns))
  {
    hide AllHonest;
    CompareAllHonest(oldColumns, newColumns, |oldColumns|);
    var (found, newIndex) := CompareAll(oldColumns, newColumns, |oldColumns|);
    AddAllHonest(oldColumns, newColumns, newIndex, |newColumns|, found);
  }

  // ---------------------------------------------------------------------------------------------
  // One schema change
  // ---------------------------------------------------------------------------------------------

  ghost predicate DistinctNames(columns: seq<Column>) {
    forall i, j :: 0 <= i < j < |columns| ==> columns[i].name != columns[j].name
  }

  lemma OneMore(oldColumns: seq<Column>, newColumns: seq<Column>, n: nat)
    requires n < |oldColumns|
    ensures var (found, newIndex) := CompareAll(oldColumns, newColumns, n);
            CompareAll(oldColumns, newColumns, n + 1) == Compare(oldColumns, newColumns, n, newIndex, found)
  {
  }

  /** As long as the lists agree from some place on, nothing more is found. */
  lemma {:induction false} AgreeFrom(oldColumns: seq<Column>, newColumns: seq<Column>, i: nat, j: nat, n: nat,
                                     found: Differences)
    requires i + n <= |oldColumns| && j + n <= |newColumns| && CompareAll(oldColumns, newColumns, i) == (found, j)
    requires oldColumns[i..i + n] == newColumns[j..j + n]
    ensures CompareAll(oldColumns, newColumns, i + n) == (found, j + n)
  {
    hide Compare, CompareAll;
    if n > 0 {
      assert oldColumns[i..i + n][..n - 1] == oldColumns[i..i + n - 1];
      assert newColumns[j..j + n][..n - 1] == newColumns[j..j + n - 1];
      assert oldColumns[i..i + n][n - 1] == oldColumns[i + n - 1];
      assert newColumns[j..j + n][n - 1] == newColumns[j + n - 1];
      AgreeFrom(oldColumns, newColumns, i, j, n - 1, found);
      OneMore(oldColumns, newColumns, i + n - 1);
      CompareFinds(oldColumns, newColumns, i + n - 1, j + n - 1, found);
    }
  }

  lemma AgreeToEnd(oldColumns: seq<Column>, newColumns: seq<Column>, i: nat, j: nat, found: Differences)
    requires i <= |oldColumns| && j <= |newColumns| && CompareAll(oldColumns, newColumns, i) == (found, j)
    requires oldColumns[i..] == newColumns[j..]
    ensures Diff(oldColumns, newColumns) == found
  {
    hide Compare, CompareAll;
    var n := |oldColumns| - i;
    assert |oldColumns[i..]| == n == |newColumns[j..]|;
    assert oldColumns[i..] == oldColumns[i..i + n] && newColumns[j..] == newColumns[j..j + n];
    AgreeFrom(oldColumns, newColumns, i, j, n, found);
  }

  /** The next old column is the new one: this one is dropped, unless it counts as renamed. */
  lemma DropStep(oldColumns: seq<Column>, newColumns: seq<Column>, i: nat, j: nat, found: Differences)
    requires i + 1 < |oldColumns| && j < |newColumns| && oldColumns[i] != newColumns[j] == oldColumns[i + 1]
    requires RenameAt(oldColumns, newColumns, i, j).None?
    ensures Compare(oldColumns, newColumns, i, j, found) == (found[oldColumns[i].name := Dropped(oldColumns[i])], j)
  {
  }

  lemma SamePrefix(prefix: seq<Column>, oldRest: seq<Column>, newRest: seq<Column>)
    ensures CompareAll(prefix + oldRest, prefix + newRest, |prefix|) == (map[], |prefix|)
  {
    var n := |prefix|;
    assert (prefix + oldRest)[..n] == prefix == (prefix + newRest)[..n];
    NothingFound(prefix + oldRest, prefix + newRest, n);
  }

  /** One column is replaced by one with other attributes, whatever its name: exactly that change is reported. */
  lemma ChangeIsReported(prefix: seq<Column>, before: Column, after: Column, suffix: seq<Column>)
    requires !SameExceptName(before, after) && (suffix != [] ==> suffix[0] != after)
    ensures Diff(prefix + [before] + suffix, prefix + [after] + suffix) == map[before.name := Changed(before, after)]
  {
    var oldColumns, newColumns, n := prefix + [before] + suffix, prefix + [after] + suffix, |prefix|;
    assert oldColumns == prefix + ([before] + suffix) && newColumns == prefix + ([after] + suffix);
    SamePrefix(prefix, [before] + suffix, [after] + suffix);
    assert oldColumns[n] == before && newColumns[n] == after;
    assert suffix != [] ==> oldColumns[n + 1] == suffix[0];
    assert CompareAll(oldColumns, newColumns, n + 1) == (map[before.name := Changed(before, after)], n + 1);
    assert oldColumns[n + 1..] == suffix == newColumns[n + 1..];
    AgreeToEnd(oldColumns, newColumns, n + 1, n + 1, map[before.name := Changed(before, after)]);
  }

  /** One column is renamed: exactly that is reported, under the old name for the last column and under the new name for
      any other. */
  lemma RenameIsReported(prefix: seq<Column>, before: Column, after: Column, suffix: seq<Column>)
    requires SameExceptName(before, after) && before.name != after.name && (suffix != [] ==> suffix[0] != after)
    ensures Diff(prefix + [before] + suffix, prefix + [after] + suffix) ==
            map[(if suffix == [] then before.name else after.name) := Renamed(before.name, after.name)]
  {
    hide Compare, CompareAll;
    var oldColumns, newColumns, n := prefix + [before] + suffix, prefix + [after] + suffix, |prefix|;
    var found := map[(if suffix == [] then before.name else after.name) := Renamed(before.name, after.name)];
    assert oldColumns == prefix + ([before] + suffix) && newColumns == prefix + ([after] + suffix);
    SamePrefix(prefix, [before] + suffix, [after] + suffix);
    assert oldColumns[n] == before && newColumns[n] == after;
    assert suffix != [] ==> oldColumns[n + 1] == suffix[0] == newColumns[n + 1];
    RenameStep(oldColumns, newColumns, n);
    OneMore(oldColumns, newColumns, n);
    assert oldColumns[n + 1..] == suffix == newColumns[n + 1..];
    AgreeToEnd(oldColumns, newColumns, n + 1, n + 1, found);
  }

  lemma RenameStep(oldColumns: seq<Column>, newColumns: seq<Column>, i: nat)
    requires i < |oldColumns| == |newColumns|
    requires SameExceptName(oldColumns[i], newColumns[i]) && oldColumns[i].name != newColumns[i].name
    requires i + 1 < |oldColumns| ==> oldColumns[i + 1] == newColumns[i + 1] != newColumns[i]
    ensures var name := if i + 1 == |newColumns| then oldColumns[i].name else newColumns[i].name;
            Compare(oldColumns, newColumns, i, i, map[]) ==
            (map[name := Renamed(oldColumns[i].name, newColumns[i].name)], i + 1)
  {
    if i + 1 < |oldColumns| {
      assert LooksAhead(oldColumns, newColumns, i);
    }
  }

  /** With one column less, no later column is at its old place. */
  lemma NothingAhead(prefix: seq<Column>, gone: Column, rest: seq<Column>, last: seq<Column>, newLast: seq<Column>)
    requires DistinctNames(prefix + [gone] + rest + last) && DistinctNames(prefix + rest + newLast)
    requires rest != [] && |last| <= 1 && |last| == |newLast|
    ensures !LooksAhead(prefix + [gone] + rest + last, prefix + rest + newLast, |prefix|)
  {
    var oldColumns, newColumns, n := prefix + [gone] + rest + last, prefix + rest + newLast, |prefix|;
    forall o | n <= o < Min(|oldColumns|, |newColumns|) ensures oldColumns[o] != newColumns[o] {
      if o < n + |rest| {
        assert newColumns[o] == rest[o - n] == oldColumns[o + 1];
        assert oldColumns[o].name != oldColumns[o + 1].name;
      } else {
        assert oldColumns[o] == rest[o - n - 1] == newColumns[o - 1];
        assert newColumns[o - 1].name != newColumns[o].name;
      }
    }
  }

  lemma FalseDrop(oldColumns: seq<Column>, newColumns: seq<Column>, i: nat, found: Differences)
    requires |oldColumns| == i + 2 && |newColumns| == i + 1
    requires oldColumns[i] != newColumns[i] == oldColumns[i + 1] && SameExceptName(oldColumns[i], oldColumns[i + 1])
    ensures Compare(oldColumns, newColumns, i, i, found) == (found[oldColumns[i].name := Dropped(oldColumns[i])], i + 1)
  {
    var c := oldColumns[i];
    assert found[c.name := Renamed(c.name, newColumns[i].name)][c.name := Dropped(c)] == found[c.name := Dropped(c)];
  }

  /** One column is dropped in front of others: exactly that is reported, if and only if the column is not followed by a
      single column with the same attributes; else that one is reported as dropped too. */
  lemma DropIsReportedExactly(prefix: seq<Column>, gone: Column, rest: seq<Column>)
    requires rest != [] && DistinctNames(prefix + [gone] + rest)
    ensures var diff := Diff(prefix + [gone] + rest, prefix + rest);
            && (diff == map[gone.name := Dropped(gone)] <==> !(|rest| == 1 && SameExceptName(gone, rest[0])))
            && (|rest| == 1 && SameExceptName(gone, rest[0]) ==>
                  diff == map[gone.name := Dropped(gone), rest[0].name := Dropped(rest[0])])
  {
    NextName(prefix, gone, rest);
    if |rest| == 1 && SameExceptName(gone, rest[0]) {
      assert rest == [rest[0]];
      DropOfTwins(prefix, gone, rest[0]);
      var both := map[gone.name := Dropped(gone), rest[0].name := Dropped(rest[0])];
      assert rest[0].name in both && rest[0].name !in map[gone.name := Dropped(gone)];
    } else {
      DropIsReported(prefix, gone, rest);
    }
  }

  lemma NextName(prefix: seq<Column>, gone: Column, rest: seq<Column>)
    requires rest != [] && DistinctNames(prefix + [gone] + rest)
    ensures gone.name != rest[0].name
  {
    var all, n := prefix + [gone] + rest, |prefix|;
    assert all[n] == gone && all[n + 1] == rest[0];
  }

  lemma DropIsReported(prefix: seq<Column>, gone: Column, rest: seq<Column>)
    requires rest != [] && DistinctNames(prefix + [gone] + rest) && !(|rest| == 1 && SameExceptName(gone, rest[0]))
    ensures Diff(prefix + [gone] + rest, prefix + rest) == map[gone.name := Dropped(gone)]
  {
    hide Compare, CompareAll, LooksAhead, Diff, DistinctNames;
    var oldColumns, newColumns, n := prefix + [gone] + rest, prefix + rest, |prefix|;
    assert oldColumns == prefix + ([gone] + rest);
    SamePrefix(prefix, [gone] + rest, rest);
    assert oldColumns[n] == gone && oldColumns[n + 1] == rest[0] == newColumns[n];
    NextName(prefix, gone, rest);
    if |rest| > 1 {
      Trimmed(prefix, gone, rest);
      NothingAhead(prefix, gone, rest, [], []);
      assert oldColumns + [] == oldColumns && newColumns + [] == newColumns;
    }
    DropStep(oldColumns, newColumns, n, n, map[]);
    OneMore(oldColumns, newColumns, n);
    assert oldColumns[n + 1..] == rest == newColumns[n..];
    AgreeToEnd(oldColumns, newColumns, n + 1, n, map[gone.name := Dropped(gone)]);
  }

  lemma DropOfTwins(prefix: seq<Column>, gone: Column, last: Column)
    requires SameExceptName(gone, last) && gone != last
    ensures Diff(prefix + [gone] + [last], prefix + [last]) ==
            map[gone.name := Dropped(gone)][last.name := Dropped(last)]
  {
    hide Compare, CompareAll;
    var oldColumns, newColumns, n := prefix + [gone] + [last], prefix + [last], |prefix|;
    assert oldColumns == prefix + ([gone] + [last]);
    SamePrefix(prefix, [gone] + [last], [last]);
    assert oldColumns[n] == gone && oldColumns[n + 1] == last == newColumns[n];
    FalseDrop(oldColumns, newColumns, n, map[]);
    OneMore(oldColumns, newColumns, n);
    OneMore(oldColumns, newColumns, n + 1);
    DroppedAtEnd(oldColumns, newColumns, n + 1, map[gone.name := Dropped(gone)]);
  }

  lemma DroppedAtEnd(oldColumns: seq<Column>, newColumns: seq<Column>, i: nat, found: Differences)
    requires i < |oldColumns|
    ensures Compare(oldColumns, newColumns, i, |newColumns|, found) ==
            (found[oldColumns[i].name := Dropped(oldColumns[i])], |newColumns|)
  {
  }

  lemma Trimmed(prefix: seq<Column>, gone: Column, rest: seq<Column>)
    requires DistinctNames(prefix + [gone] + rest)
    ensures DistinctNames(prefix + [gone] + rest + []) && DistinctNames(prefix + rest + [])
  {
    var oldColumns, newColumns := prefix + [gone] + rest, prefix + rest + [];
    assert oldColumns + [] == oldColumns;
    forall i, j | 0 <= i < j < |newColumns| ensures newColumns[i].name != newColumns[j].name {
      var k := if i < |prefix| then i else i + 1;
      var l := if j < |prefix| then j else j + 1;
      assert newColumns[i] == oldColumns[k] && newColumns[j] == oldColumns[l];
    }
  }

  /** The last new column is the last old one renamed, but there are fewer new columns: it is not used up. */
  lemma UnusedRename(oldColumns: seq<Column>, newColumns: seq<Column>, i: nat, found: Differences)
    requires |oldColumns| == i + 1 && |newColumns| == i > 0
    requires SameExceptName(oldColumns[i], newColumns[i - 1]) && oldColumns[i].name != newColumns[i - 1].name
    ensures Compare(oldColumns, newColumns, i, i - 1, found) ==
            (found[oldColumns[i].name := Renamed(oldColumns[i].name, newColumns[i - 1].name)], i - 1)
  {
  }

  /** One column is dropped in front of others and the last one renamed: the new last column is reported as added as
      well as under its rename. */
  lemma DropAndRename(prefix: seq<Column>, gone: Column, rest: seq<Column>, last: Column, renamed: Column)
    requires rest != [] && SameExceptName(last, renamed) && last.name != renamed.name
    requires DistinctNames(prefix + [gone] + rest + [last]) && DistinctNames(prefix + rest + [renamed])
    ensures Diff(prefix + [gone] + rest + [last], prefix + rest + [renamed]) ==
            map[gone.name := Dropped(gone)][last.name := Renamed(last.name, renamed.name)]
               [renamed.name := Added(renamed)]
  {
    hide Compare, CompareAll, LooksAhead, AddAll;
    var oldColumns, newColumns, n := prefix + [gone] + rest + [last], prefix + rest + [renamed], |prefix|;
    assert oldColumns == prefix + ([gone] + rest + [last]) && newColumns == prefix + (rest + [renamed]);
    SamePrefix(prefix, [gone] + rest + [last], rest + [renamed]);
    assert oldColumns[n] == gone && oldColumns[n + 1] == rest[0] == newColumns[n];
    assert oldColumns[n].name != oldColumns[n + 1].name;
    NothingAhead(prefix, gone, rest, [last], [renamed]);
    DropStep(oldColumns, newColumns, n, n, map[]);
    OneMore(oldColumns, newColumns, n);
    var m := n + 1 + |rest|;
    assert oldColumns[n + 1..n + 1 + |rest|] == rest == newColumns[n..n + |rest|];
    AgreeFrom(oldColumns, newColumns, n + 1, n, |rest|, map[gone.name := Dropped(gone)]);
    assert oldColumns[m] == last && newColumns[m - 1] == renamed && |newColumns| == m;
    UnusedRename(oldColumns, newColumns, m, map[gone.name := Dropped(gone)]);
    OneMore(oldColumns, newColumns, m);
    AddLast(newColumns, map[gone.name := Dropped(gone)][last.name := Renamed(last.name, renamed.name)]);
    assert |oldColumns| == m + 1;
  }

  lemma AddLast(newColumns: seq<Column>, found: Differences)
    requires newColumns != []
    ensures var n := |newColumns| - 1;
            AddAll(newColumns, n, n + 1, found) == found[newColumns[n].name := Added(newColumns[n])]
  {
    var n := |newColumns| - 1;
    assert AddAll(newColumns, n, n, found) == found;
  }
}

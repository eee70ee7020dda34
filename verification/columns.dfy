/**
 * The renaming of result-set columns (Oracle reports column names in upper
 * case; the store lower-cases them). The renaming works in place on the
 * rows, through a reference from the new name to the old entry followed by
 * the removal of the old name.
 */
module ColumnNames {
  import opened PhpValues

  /** One step of the inner loop on one row: the entry under `name` (null
      when the row lacks it) is bound under `rename(name)`, then `name` is
      removed, so a name the renaming leaves as it is disappears. */
  function RenameColumn(row: Attrs, name: Key, rename: Key -> Key): (r: Attrs)
    ensures name !in r
    ensures rename(name) != name ==> rename(name) in r && r[rename(name)] == Get(row, name)
    ensures forall k :: k != name && k != rename(name) ==> (k in r <==> k in row)
    ensures forall k :: k in r && k != name && k != rename(name) ==> r[k] == row[k]
  {
    row[rename(name) := Get(row, name)] - {name}
  }

  /** The inner loop: every column name, in order. */
  function RenameColumns(row: Attrs, names: seq<Key>, rename: Key -> Key): Attrs
    decreases |names|
  {
    if names == [] then row
    else RenameColumn(RenameColumns(row, names[..|names| - 1], rename), names[|names| - 1], rename)
  }

  predicate Distinct(names: seq<Key>) {
    forall i, j :: 0 <= i < j < |names| ==> names[i] != names[j]
  }

  /** No new name is another column's old name, and no two columns get the
      same new name. */
  predicate Unambiguous(names: seq<Key>, rename: Key -> Key) {
    (forall i, j :: 0 <= i < |names| && 0 <= j < |names| && rename(names[i]) == names[j] ==> i == j)
    && (forall i, j :: 0 <= i < |names| && 0 <= j < |names| && rename(names[i]) == rename(names[j]) ==> i == j)
  }

  /** When the renaming is unambiguous, every old name is gone, every
      renamed column holds the row's old value (null when the row lacked
      it), and every other entry is untouched. */
  lemma RenameColumnsEffect(row: Attrs, names: seq<Key>, rename: Key -> Key)
    requires Distinct(names) && Unambiguous(names, rename)
    ensures forall i :: 0 <= i < |names| ==> names[i] !in RenameColumns(row, names, rename)
    ensures forall i :: 0 <= i < |names| && rename(names[i]) != names[i] ==>
              rename(names[i]) in RenameColumns(row, names, rename)
              && RenameColumns(row, names, rename)[rename(names[i])] == Get(row, names[i])
    ensures forall k :: k !in names && (forall i :: 0 <= i < |names| ==> k != rename(names[i])) ==>
              (k in RenameColumns(row, names, rename) <==> k in row)
              && (k in row ==> RenameColumns(row, names, rename)[k] == row[k])
  {
    OldNamesGone(row, names, rename);
    RenamedValuesKept(row, names, rename);
    OtherColumnsUntouched(row, names, rename);
  }

  /** The last column of a non-empty list, and the ones before it. */
  lemma SplitLast(names: seq<Key>)
    requires names != []
    ensures forall i :: 0 <= i < |names| - 1 ==> names[..|names| - 1][i] == names[i]
  {
  }

  lemma {:induction false} OldNamesGone(row: Attrs, names: seq<Key>, rename: Key -> Key)
    requires Distinct(names) && Unambiguous(names, rename)
    ensures forall i :: 0 <= i < |names| ==> names[i] !in RenameColumns(row, names, rename)
    decreases |names|
  {
    if names != [] {
      var last := |names| - 1;
      var init, n := names[..last], names[last];
      SplitLast(names);
      OldNamesGone(row, init, rename);
      var after := RenameColumns(row, names, rename);
      assert after == RenameColumn(RenameColumns(row, init, rename), n, rename);
      forall i | 0 <= i < last ensures names[i] !in after {
        assert names[i] != n && names[i] != rename(n);
      }
    }
  }

  lemma {:induction false} OtherColumnsUntouched(row: Attrs, names: seq<Key>, rename: Key -> Key)
    ensures forall k :: k !in names && (forall i :: 0 <= i < |names| ==> k != rename(names[i])) ==>
              (k in RenameColumns(row, names, rename) <==> k in row)
              && (k in row ==> RenameColumns(row, names, rename)[k] == row[k])
    decreases |names|
  {
    if names != [] {
      var last := |names| - 1;
      var init, n := names[..last], names[last];
      SplitLast(names);
      OtherColumnsUntouched(row, init, rename);
      var after := RenameColumns(row, names, rename);
      assert after == RenameColumn(RenameColumns(row, init, rename), n, rename);
      forall k | k !in names && (forall i :: 0 <= i < |names| ==> k != rename(names[i]))
        ensures (k in after <==> k in row) && (k in row ==> after[k] == row[k])
      {
        assert k != n && k != rename(n);
        assert forall i :: 0 <= i < |init| ==> k != rename(init[i]);
      }
    }
  }

  lemma {:induction false} RenamedValuesKept(row: Attrs, names: seq<Key>, rename: Key -> Key)
    requires Distinct(names) && Unambiguous(names, rename)
    ensures forall i :: 0 <= i < |names| && rename(names[i]) != names[i] ==>
              rename(names[i]) in RenameColumns(row, names, rename)
              && RenameColumns(row, names, rename)[rename(names[i])] == Get(row, names[i])
    decreases |names|
  {
    if names != [] {
      var last := |names| - 1;
      var init, n := names[..last], names[last];
      SplitLast(names);
      RenamedValuesKept(row, init, rename);
      OtherColumnsUntouched(row, init, rename);
      var before := RenameColumns(row, init, rename);
      var after := RenameColumns(row, names, rename);
      assert after == RenameColumn(before, n, rename);
      assert n !in init;
      assert forall i :: 0 <= i < |init| ==> n != rename(init[i]);
      assert Get(before, n) == Get(row, n);
      forall i | 0 <= i < last && rename(names[i]) != names[i]
        ensures rename(names[i]) in after && after[rename(names[i])] == Get(row, names[i])
      {
        assert rename(names[i]) != n && rename(names[i]) != rename(n);
      }
    }
  }

  /** `strtolower` on ASCII letters. */
  function LowerChar(c: char): char {
    if 'A' <= c <= 'Z' then (c as int + 32) as char else c
  }

  function Lower(s: string): (r: string)
    ensures |r| == |s| && forall i :: 0 <= i < |s| ==> r[i] == LowerChar(s[i])
  {
    seq(|s|, i requires 0 <= i < |s| => LowerChar(s[i]))
  }

  /** `strtolower` applied to an array key; integer keys stay as they are. */
  function LowerKey(k: Key): Key {
    match k
    case IntKey(_) => k
    case StrKey(s) => StrKey(Lower(s))
  }

  /** A name as a case-folding database reports it: no lower-case letter
      and at least one upper-case letter. */
  predicate UpperName(k: Key) {
    k.StrKey? && (forall i :: 0 <= i < |k.s| ==> !('a' <= k.s[i] <= 'z'))
    && exists i :: 0 <= i < |k.s| && 'A' <= k.s[i] <= 'Z'
  }

  lemma LowerKeyOfUpperName(a: Key, b: Key)
    requires UpperName(a) && UpperName(b)
    ensures LowerKey(a) != b
    ensures LowerKey(a) == LowerKey(b) ==> a == b
  {
    var i :| 0 <= i < |b.s| && 'A' <= b.s[i] <= 'Z';
    assert i >= |a.s| || !('A' <= Lower(a.s)[i] <= 'Z');
    if LowerKey(a) == LowerKey(b) {
      assert |a.s| == |b.s|;
      forall j | 0 <= j < |a.s| ensures a.s[j] == b.s[j] {
        assert Lower(a.s)[j] == Lower(b.s)[j];
      }
    }
  }

  /** Lower-casing the distinct upper-case names of a result set renames
      every column to its lower-case form and keeps its value. */
  lemma LowerCasingUpperNames(row: Attrs, names: seq<Key>)
    requires Distinct(names)
    requires forall i :: 0 <= i < |names| ==> UpperName(names[i])
    ensures forall i :: 0 <= i < |names| ==>
              names[i] !in RenameColumns(row, names, LowerKey)
              && LowerKey(names[i]) in RenameColumns(row, names, LowerKey)
              && RenameColumns(row, names, LowerKey)[LowerKey(names[i])] == Get(row, names[i])
  {
    forall i, j | 0 <= i < |names| && 0 <= j < |names|
      ensures LowerKey(names[i]) != names[j]
      ensures LowerKey(names[i]) == LowerKey(names[j]) ==> i == j
    {
      LowerKeyOfUpperName(names[i], names[j]);
    }
    RenameColumnsEffect(row, names, LowerKey);
    forall i | 0 <= i < |names| ensures LowerKey(names[i]) != names[i] {
      LowerKeyOfUpperName(names[i], names[i]);
    }
  }

  /** A column whose name is already in lower case is dropped. */
  lemma LowerCaseNameDropped(row: Attrs, value: Value)
    requires row == map[StrKey("ID") := Int(1), StrKey("name") := value]
    ensures RenameColumns(row, [StrKey("ID"), StrKey("name")], LowerKey) == map[StrKey("id") := Int(1)]
  {
    var names := [StrKey("ID"), StrKey("name")];
    assert names[..1] == [StrKey("ID")];
    assert [StrKey("ID")][..0] == [];
    assert Lower("ID") == "id";
    assert Lower("name") == "name";
    var first := RenameColumn(row, StrKey("ID"), LowerKey);
    assert first == map[StrKey("id") := Int(1), StrKey("name") := value];
  }

  /** The names of a row's entries, each once, in the order the loop visits
      them (PHP keeps insertion order, which a map does not record). */
  method ColumnsOf(row: Attrs) returns (columns: seq<Key>)
    ensures Distinct(columns)
    ensures forall k :: k in columns <==> k in row
  {
    columns := [];
    var rest := row.Keys;
    while rest != {}
      invariant rest <= row.Keys
      invariant Distinct(columns)
      invariant forall k :: k in columns <==> k in row && k !in rest
      decreases rest
    {
      var k :| k in rest;
      columns := columns + [k];
      rest := rest - {k};
    }
  }

  /** The inner loop on one row. */
  method RenameRow(row: Attrs, columns: seq<Key>, rename: Key -> Key) returns (r: Attrs)
    ensures r == RenameColumns(row, columns, rename)
  {
    r := row;
    var j := 0;
    while j < |columns|
      invariant 0 <= j <= |columns|
      invariant r == RenameColumns(row, columns[..j], rename)
    {
      assert columns[..j + 1][..j] == columns[..j];
      r := RenameColumn(r, columns[j], rename);
      j := j + 1;
    }
    assert columns[..j] == columns;
  }

  /** Renames, in every row, the columns of the first row. Returns the
      column names in the order they were visited. */
  method TransformColumnNames(rows: array<Attrs>, rename: Key -> Key) returns (columns: seq<Key>)
    modifies rows
    ensures rows.Length == 0 ==> columns == []
    ensures rows.Length > 0 ==> Distinct(columns) && forall k :: k in columns <==> k in old(rows[0])
    ensures forall i :: 0 <= i < rows.Length ==> rows[i] == RenameColumns(old(rows[i]), columns, rename)
  {
    columns := [];
    if rows.Length > 0 {
      columns := ColumnsOf(rows[0]);
    }
    RenameRows(rows, columns, rename);
  }

  /** The outer loop: every row, in place. */
  method RenameRows(rows: array<Attrs>, columns: seq<Key>, rename: Key -> Key)
    modifies rows
    ensures forall i :: 0 <= i < rows.Length ==> rows[i] == RenameColumns(old(rows[i]), columns, rename)
  {
    var i := 0;
    while i < rows.Length
      invariant 0 <= i <= rows.Length
      invariant forall r :: 0 <= r < i ==> rows[r] == RenameColumns(old(rows[r]), columns, rename)
      invariant forall r :: i <= r < rows.Length ==> rows[r] == old(rows[r])
    {
      rows[i] := RenameRow(rows[i], columns, rename);
      i := i + 1;
    }
  }
}

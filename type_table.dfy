// The sentinel-terminated description tables of libvsmbr_partition_type.c
// and libvsmbr_volume_type.c, and the linear scan both of them use.

module TypeTable {
  import opened Common

  /** One row of a table: a type value and its description. */
  datatype TypeDescription = TypeDescription(key: uint16, description: string)

  /** The key of the last row, (uint16_t) -1, which no byte value equals. */
  const Sentinel: uint16 := 0xFFFF

  /** A table the scan may run over: its last row holds the sentinel. */
  predicate Terminated(table: seq<TypeDescription>) {
    |table| > 0 && table[|table| - 1].key == Sentinel
  }

  /** The description of the first row that holds either the type or the
      sentinel. */
  function Describe(table: seq<TypeDescription>, t: uint8): string
    requires Terminated(table)
    decreases |table|
  {
    if table[0].key == Sentinel || table[0].key == t then table[0].description
    else Describe(table[1..], t)
  }

  /** The scan ends at row k when k is the first row holding the type or
      the sentinel: the description is that of row k. */
  lemma {:induction false} DescribeFirst(table: seq<TypeDescription>, t: uint8, k: nat)
    requires Terminated(table) && k < |table|
    requires table[k].key == t || table[k].key == Sentinel
    requires forall j :: 0 <= j < k ==> table[j].key != t && table[j].key != Sentinel
    ensures Describe(table, t) == table[k].description
    decreases k
  {
    if k > 0 {
      assert table[1..][k - 1] == table[k];
      assert forall j :: 0 <= j < k - 1 ==> table[1..][j] == table[j + 1];
      DescribeFirst(table[1..], t, k - 1);
    }
  }

  /** A type that no row holds is described by the sentinel row. */
  lemma DescribeAbsent(rows: seq<TypeDescription>, t: uint8, unknown: string)
    requires forall d :: TypeDescription(t, d) !in rows
    requires forall d :: TypeDescription(Sentinel, d) !in rows
    ensures Terminated(rows + [TypeDescription(Sentinel, unknown)])
    ensures Describe(rows + [TypeDescription(Sentinel, unknown)], t) == unknown
  {
    var table := rows + [TypeDescription(Sentinel, unknown)];
    forall j | 0 <= j < |rows|
      ensures table[j].key != t && table[j].key != Sentinel
    {
      assert table[j] == rows[j] && rows[j] in rows;
      assert rows[j] == TypeDescription(rows[j].key, rows[j].description);
    }
    DescribeFirst(table, t, |rows|);
  }

  /** The description comes from a row of the table: a row holding the type
      if there is one before the sentinel, the sentinel row otherwise. */
  lemma {:induction false} DescribeFromRow(table: seq<TypeDescription>, t: uint8)
    requires Terminated(table)
    ensures exists k :: 0 <= k < |table| && (table[k].key == t || table[k].key == Sentinel)
                        && Describe(table, t) == table[k].description
    decreases |table|
  {
    if table[0].key == Sentinel || table[0].key == t {
      assert 0 < |table| && Describe(table, t) == table[0].description;
    } else {
      DescribeFromRow(table[1..], t);
      var k :| 0 <= k < |table[1..]| && (table[1..][k].key == t || table[1..][k].key == Sentinel)
               && Describe(table[1..], t) == table[1..][k].description;
      assert table[k + 1] == table[1..][k];
    }
  }

  /** Row j of the table read with rows s and s + 1 exchanged. */
  function Swap(j: int, s: int): int {
    if j == s then s + 1 else if j == s + 1 then s else j
  }

  /** Keys that ascend from row to row, once rows s and s + 1 are exchanged,
      ascend between any two rows so read. */
  lemma {:induction false} SwappedKeysAscend(table: seq<TypeDescription>, n: nat, s: nat, i: nat, j: nat)
    requires n <= |table| && s + 1 < n && i <= j < n
    requires forall m :: 0 <= m < n - 1 ==> table[Swap(m, s)].key < table[Swap(m + 1, s)].key
    ensures i < j ==> table[Swap(i, s)].key < table[Swap(j, s)].key
    decreases j - i
  {
    if i < j {
      assert table[Swap(j - 1, s)].key < table[Swap(j - 1 + 1, s)].key;
      SwappedKeysAscend(table, n, s, i, j - 1);
    }
  }

  /** Such keys are pairwise distinct: no type has two rows. */
  lemma DistinctKeys(table: seq<TypeDescription>, n: nat, s: nat)
    requires n <= |table| && s + 1 < n
    requires forall m :: 0 <= m < n - 1 ==> table[Swap(m, s)].key < table[Swap(m + 1, s)].key
    ensures forall i, j :: 0 <= i < j < n ==> table[i].key != table[j].key
  {
    forall i, j | 0 <= i < j < n
      ensures table[i].key != table[j].key
    {
      var a, b := Swap(i, s), Swap(j, s);
      assert Swap(a, s) == i && Swap(b, s) == j;
      if a < b {
        SwappedKeysAscend(table, n, s, a, b);
      } else {
        SwappedKeysAscend(table, n, s, b, a);
      }
    }
  }

  /** The while loop of libvsmbr_partition_type_get_description and
      libvsmbr_volume_type_get_description: advance the iterator until the
      row holds the sentinel or the type, and return that row's
      description. */
  method Lookup(table: seq<TypeDescription>, t: uint8) returns (description: string)
    requires Terminated(table)
    ensures description == Describe(table, t)
  {
    var row := 0;
    while table[row].key != Sentinel
      invariant 0 <= row < |table|
      invariant Terminated(table[row..])
      invariant Describe(table[row..], t) == Describe(table, t)
      decreases |table| - row
    {
      if table[row].key == t {
        break;
      }
      assert table[row..][1..] == table[row + 1..];
      row := row + 1;
    }
    description := table[row].description;
  }
}

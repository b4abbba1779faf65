/** The two key stores and the manager that keeps a window of unused keys ahead. */
module Keys {
  import opened Options
  import opened KeyTables

  function Indexes(col: seq<KeyRec>): (s: seq<nat>)
    ensures |s| == |col|
  {
    seq(|col|, i requires 0 <= i < |col| => col[i].index)
  }

  function Paths(list: seq<KeyRec>): (s: seq<(Purpose, nat)>)
    ensures |s| == |list|
  {
    seq(|list|, i requires 0 <= i < |list| => (list[i].purpose, list[i].index))
  }

  /** All the records, by rising index; the order among equal indexes is not fixed. */
  ghost predicate SortedList(rows: seq<KeyRec>, list: seq<KeyRec>) {
    multiset(list) == multiset(rows) && Sorted(list)
  }

  ghost predicate Sorted(list: seq<KeyRec>) {
    forall i, j :: 0 <= i < j < |list| ==> list[i].index <= list[j].index
  }

  lemma {:induction false} ColumnMembers(rows: seq<KeyRec>, p: Purpose)
    ensures forall x :: multiset(Column(rows, p))[x] == if x.purpose == p then multiset(rows)[x] else 0
  {
    if rows != [] {
      var n := |rows| - 1;
      ColumnMembers(rows[..n], p);
      assert rows == rows[..n] + [rows[n]];
    }
  }

  lemma {:induction false} UnusedMembers(col: seq<KeyRec>)
    ensures forall x :: multiset(Unused(col))[x] == if x.used then 0 else multiset(col)[x]
  {
    if col != [] {
      var n := |col| - 1;
      UnusedMembers(col[..n]);
      assert col == col[..n] + [col[n]];
    }
  }

  lemma SameSize(a: seq<KeyRec>, b: seq<KeyRec>)
    requires multiset(a) == multiset(b)
    ensures |a| == |b|
  {
    assert |a| == |multiset(a)| && |b| == |multiset(b)|;
  }

  lemma ColumnsSameMembers(rows: seq<KeyRec>, list: seq<KeyRec>, p: Purpose)
    requires multiset(list) == multiset(rows)
    ensures multiset(Column(list, p)) == multiset(Column(rows, p))
  {
    hide Column;
    ColumnMembers(rows, p);
    ColumnMembers(list, p);
  }

  lemma UnusedSameSize(a: seq<KeyRec>, b: seq<KeyRec>)
    requires multiset(a) == multiset(b)
    ensures |Unused(a)| == |Unused(b)|
  {
    hide Unused;
    UnusedMembers(a);
    UnusedMembers(b);
    assert multiset(Unused(a)) == multiset(Unused(b));
    SameSize(Unused(a), Unused(b));
  }

  lemma MemberOf(a: seq<KeyRec>, b: seq<KeyRec>, i: nat)
    requires multiset(a) == multiset(b) && i < |a|
    ensures a[i] in b
  {
    assert a[i] in multiset(a);
  }

  lemma DropLast(a: seq<KeyRec>, b: seq<KeyRec>)
    requires multiset(a) == multiset(b) && a != [] && |a| == |b| && a[|a| - 1] == b[|b| - 1]
    ensures multiset(a[..|a| - 1]) == multiset(b[..|b| - 1])
  {
    var n := |a| - 1;
    assert a == a[..n] + [a[n]] && b == b[..n] + [b[n]];
    assert multiset(a[..n]) == multiset(a) - multiset{a[n]} && multiset(b[..n]) == multiset(b) - multiset{b[n]};
  }

  /** Records in strictly rising order can be listed in one way only. */
  lemma {:induction false} OneOrder(a: seq<KeyRec>, b: seq<KeyRec>)
    requires multiset(a) == multiset(b) && Ascending(b) && Sorted(a)
    ensures a == b
    decreases |a|
  {
    SameSize(a, b);
    if a != [] {
      var n := |a| - 1;
      MemberOf(a, b, n);
      MemberOf(b, a, n);
      assert a[n] == b[n];
      DropLast(a, b);
      OneOrder(a[..n], b[..n]);
    }
  }

  lemma {:induction false} ColumnSorted(list: seq<KeyRec>, p: Purpose)
    requires Sorted(list)
    ensures Sorted(Column(list, p))
    ensures forall i :: 0 <= i < |Column(list, p)| ==> Column(list, p)[i] in list
  {
    if list != [] {
      var n := |list| - 1;
      ColumnSorted(list[..n], p);
      forall i | 0 <= i < |Column(list[..n], p)|
        ensures Column(list[..n], p)[i] in list && Column(list[..n], p)[i].index <= list[n].index {
        var x := Column(list[..n], p)[i];
        var k :| 0 <= k < n && list[..n][k] == x;
        assert list[k] == x;
      }
    }
  }

  /** What holds of a purpose's records in the sorted list holds of them in the table. */
  lemma SortedColumn(rows: seq<KeyRec>, list: seq<KeyRec>, p: Purpose)
    requires SortedList(rows, list)
    ensures |Unused(Column(list, p))| == |Unused(Column(rows, p))|
    ensures |Column(list, p)| == |Column(rows, p)|
    ensures forall k :: 0 <= k < |Column(rows, p)| ==>
            Column(rows, p)[k].index <= Column(list, p)[|Column(list, p)| - 1].index
    ensures Ascending(Column(rows, p)) ==> Column(list, p) == Column(rows, p)
  {
    var a, b := Column(list, p), Column(rows, p);
    hide Column, Unused;
    ColumnsSameMembers(rows, list, p);
    ColumnSorted(list, p);
    SameSize(a, b);
    UnusedSameSize(a, b);
    forall k | 0 <= k < |b| ensures b[k].index <= a[|a| - 1].index {
      MemberOf(b, a, k);
    }
    if Ascending(b) {
      OneOrder(a, b);
    }
  }

  function Insert(x: KeyRec, list: seq<KeyRec>): seq<KeyRec> {
    if list == [] || x.index <= list[0].index then [x] + list else [list[0]] + Insert(x, list[1..])
  }

  lemma NoneSorted()
    ensures Sorted([])
  {
  }

  lemma {:induction false} InsertSorts(x: KeyRec, list: seq<KeyRec>)
    requires Sorted(list)
    ensures var r := Insert(x, list);
            Sorted(r) && r != [] && r[0] == if list == [] || x.index <= list[0].index then x else list[0]
  {
    if list != [] && x.index > list[0].index {
      InsertSorts(x, list[1..]);
    }
  }

  lemma {:induction false} InsertMembers(x: KeyRec, list: seq<KeyRec>)
    ensures multiset(Insert(x, list)) == multiset(list) + multiset{x}
  {
    if list != [] && x.index > list[0].index {
      InsertMembers(x, list[1..]);
      assert list == [list[0]] + list[1..];
    }
  }

  lemma ColumnAppend(rows: seq<KeyRec>, x: KeyRec, p: Purpose)
    ensures Column(rows + [x], p) == if x.purpose == p then Column(rows, p) + [x] else Column(rows, p)
  {
    assert (rows + [x])[..|rows|] == rows;
  }

  lemma EntryOk(derive: Derivation, p: Purpose, col: seq<KeyRec>, k: nat)
    requires ColumnOk(derive, p, col) && k < |col|
    ensures derive(p, col[k].index) == Some(col[k].address) && col[k].index < NextFrom(col)
  {
    hide Issued;
  }

  lemma RowOk(derive: Derivation, rows: seq<KeyRec>, i: nat)
    requires TableOk(derive, rows) && i < |rows|
    ensures derive(rows[i].purpose, rows[i].index) == Some(rows[i].address)
    ensures rows[i].index < NextFrom(Column(rows, rows[i].purpose))
  {
    hide Column, ColumnOk, NextFrom;
    RowInColumn(rows, i);
    TableColumn(derive, rows, rows[i].purpose);
    var col := Column(rows, rows[i].purpose);
    var k :| 0 <= k < |col| && col[k] == rows[i];
    EntryOk(derive, rows[i].purpose, col, k);
  }

  /** A key further on than all those issued is not in the table yet. */
  lemma FreshIsUnknown(derive: Derivation, rows: seq<KeyRec>, p: Purpose, i: nat)
    requires Injective(derive) && TableOk(derive, rows) && derive(p, i).Some? && i >= NextFrom(Column(rows, p))
    ensures !Known(rows, derive(p, i).value)
  {
    forall k | 0 <= k < |rows| ensures rows[k].address != derive(p, i).value {
      RowOk(derive, rows, k);
    }
  }

  class KeysDB {
    const kind: Kind
    var rows: seq<KeyRec>

    constructor (kind: Kind)
      ensures this.kind == kind && rows == []
    {
      this.kind, rows := kind, [];
    }

    method Find(a: Address) returns (at: Option<nat>)
      ensures at.Some? <==> Known(rows, a)
      ensures at.Some? ==>
                at.value < |rows| && rows[at.value].address == a &&
                forall k :: 0 <= k < at.value ==> rows[k].address != a
    {
      for i := 0 to |rows|
        invariant forall k :: 0 <= k < i ==> rows[k].address != a
      {
        if rows[i].address == a {
          return Some(i);
        }
      }
      at := None;
    }

    /** A new address makes a new record; on one that is there bolt overwrites and sqlite fails. */
    method Put(a: Address, p: Purpose, index: nat) returns (ok: bool)
      modifies this
      ensures ok <==> kind.Bolt? || !old(Known(rows, a))
      ensures !old(Known(rows, a)) ==> rows == old(rows) + [KeyRec(a, p, index, false)]
      ensures old(Known(rows, a)) && kind.Sqlite? ==> rows == old(rows)
      ensures old(Known(rows, a)) && kind.Bolt? ==>
                exists i :: 0 <= i < |old(rows)| && old(rows)[i].address == a
                  && rows == old(rows)[i := KeyRec(a, p, index, false)]
    {
      var at := Find(a);
      if at.None? {
        rows := rows + [KeyRec(a, p, index, false)];
        return true;
      }
      if kind.Sqlite? {
        return false;
      }
      rows := rows[at.value := KeyRec(a, p, index, false)];
      ok := true;
    }

    /** bolt fails on an address it does not have, sqlite quietly updates no row. */
    method MarkKeyAsUsed(a: Address) returns (ok: bool)
      modifies this
      ensures ok <==> kind.Sqlite? || old(Known(rows, a))
      ensures rows == Marked(old(rows), a)
    {
      var at := Find(a);
      ok := kind.Sqlite? || at.Some?;
      for i := 0 to |rows|
        invariant |rows| == |old(rows)|
        invariant forall k :: 0 <= k < i ==> rows[k] == Marked(old(rows), a)[k]
        invariant forall k :: i <= k < |rows| ==> rows[k] == old(rows)[k]
      {
        if rows[i].address == a {
          rows := rows[i := rows[i].(used := true)];
        }
      }
    }

    method GetPathForKey(a: Address) returns (path: Option<(Purpose, nat)>)
      ensures path.Some? <==> Known(rows, a)
      ensures path.Some? ==> exists i ::
                0 <= i < |rows| && rows[i].address == a && path.value == (rows[i].purpose, rows[i].index)
    {
      var at := Find(a);
      if at.None? {
        return None;
      }
      path := Some((rows[at.value].purpose, rows[at.value].index));
    }

    method GetAllSorted() returns (list: seq<KeyRec>)
      ensures SortedList(rows, list)
    {
      hide Sorted, Insert;
      list := [];
      assert Sorted(list) by { NoneSorted(); }
      for i := 0 to |rows|
        invariant SortedList(rows[..i], list)
      {
        InsertSorts(rows[i], list);
        InsertMembers(rows[i], list);
        list := Insert(rows[i], list);
        assert rows[..i + 1] == rows[..i] + [rows[i]];
      }
      assert rows[..|rows|] == rows;
    }

    /** bolt takes the greatest index, sqlite the one inserted last; on a column in index order both are its last. */
    method GetLastKeyIndex(p: Purpose) returns (last: Option<(nat, bool)>)
      ensures last.Some? <==> Column(rows, p) != []
      ensures last.Some? && kind.Bolt? ==> forall k :: 0 <= k < |Column(rows, p)| ==>
              Column(rows, p)[k].index <= last.value.0
      ensures var col := Column(rows, p);
              last.Some? && (kind.Sqlite? || Ascending(col)) ==>
                last.value == (col[|col| - 1].index, col[|col| - 1].used)
    {
      if kind.Sqlite? {
        var col := Column(rows, p);
        return if col == [] then None else Some((col[|col| - 1].index, col[|col| - 1].used));
      }
      hide Unused, Ascending, SortedList;
      var list := GetAllSorted();
      SortedColumn(rows, list, p);
      var listPurpose: seq<KeyRec> := [];
      for i := 0 to |list|
        invariant listPurpose == Column(list[..i], p)
      {
        ColumnGrows(list, i, p);
        if list[i].purpose == p {
          listPurpose := listPurpose + [list[i]];
        }
      }
      assert list[..|list|] == list;
      if listPurpose == [] {
        return None;
      }
      var x := listPurpose[|listPurpose| - 1];
      last := Some((x.index, x.used));
    }

    /** The indexes of unused keys, in table order for sqlite, rising for bolt. */
    method GetUnused(p: Purpose) returns (ret: seq<nat>)
      ensures |ret| == |Unused(Column(rows, p))|
      ensures kind.Sqlite? || Ascending(Column(rows, p)) ==> ret == Indexes(Unused(Column(rows, p)))
    {
      hide Ascending, SortedList, Column, Unused;
      var list := rows;
      if kind.Bolt? {
        list := GetAllSorted();
        SortedColumn(rows, list, p);
      }
      ret := [];
      NoneUnused(list, p);
      for i := 0 to |list|
        invariant ret == Indexes(Unused(Column(list[..i], p)))
      {
        ColumnGrows(list, i, p);
        if list[i].purpose == p && !list[i].used {
          ret := ret + [list[i].index];
        }
      }
      assert list[..|list|] == list;
    }

    /** Purpose and index of every record: by rising index in bolt, in table order in sqlite. */
    method GetAll() returns (paths: seq<(Purpose, nat)>)
      ensures exists list: seq<KeyRec> ::
                multiset(list) == multiset(rows) && paths == Paths(list) && (kind.Bolt? ==> Sorted(list))
    {
      var list := rows;
      if kind.Bolt? {
        list := GetAllSorted();
      }
      paths := [];
      for i := 0 to |list|
        invariant paths == Paths(list[..i])
      {
        paths := paths + [(list[i].purpose, list[i].index)];
      }
      assert list[..|list|] == list;
    }

    method GetLookaheadWindows() returns (windows: map<Purpose, nat>)
      ensures windows == map[External := Window(kind, Column(rows, External)),
              Internal := Window(kind, Column(rows, Internal))]
    {
      hide Column, Unused, Ascending, SortedList;
      if kind.Bolt? {
        var list := GetAllSorted();
        SortedColumn(rows, list, External);
        SortedColumn(rows, list, Internal);
        NoneUnused(list, External);
        NoneUnused(list, Internal);
        var unusedExternal, unusedInternal := 0, 0;
        for i := 0 to |list|
          invariant unusedExternal == |Unused(Column(list[..i], External))|
          invariant unusedInternal == |Unused(Column(list[..i], Internal))|
        {
          ColumnGrows(list, i, External);
          ColumnGrows(list, i, Internal);
          if list[i].used {
            continue;
          }
          if list[i].purpose == External {
            unusedExternal := unusedExternal + 1;
          } else {
            unusedInternal := unusedInternal + 1;
          }
        }
        assert list[..|list|] == list;
        return map[External := unusedExternal, Internal := unusedInternal];
      }
      var e := TrailingRun(Column(rows, External));
      var i := TrailingRun(Column(rows, Internal));
      windows := map[External := e, Internal := i];
    }

    static method TrailingRun(col: seq<KeyRec>) returns (unusedCount: nat)
      ensures unusedCount == Trailing(col)
    {
      unusedCount := 0;
      var n := |col|;
      assert col[..n] == col;
      while n > 0
        invariant 0 <= n <= |col| && unusedCount == |col| - n
        invariant Trailing(col) == unusedCount + Trailing(col[..n])
      {
        if col[n - 1].used {
          break;
        }
        assert col[..n][..n - 1] == col[..n - 1];
        unusedCount := unusedCount + 1;
        n := n - 1;
      }
    }
  }

  lemma NoneUnused(list: seq<KeyRec>, p: Purpose)
    ensures Unused(Column(list[..0], p)) == []
  {
  }

  lemma ColumnGrows(list: seq<KeyRec>, i: nat, p: Purpose)
    requires i < |list|
    ensures Column(list[..i + 1], p)
         == if list[i].purpose == p then Column(list[..i], p) + [list[i]] else Column(list[..i], p)
    ensures var was := Unused(Column(list[..i], p));
            Unused(Column(list[..i + 1], p)) == if list[i].purpose == p && !list[i].used then was + [list[i]] else was
  {
    assert list[..i + 1] == list[..i] + [list[i]];
    ColumnAppend(list[..i], list[i], p);
    UnusedAppend(Column(list[..i], p), list[i]);
  }

  lemma UnusedAppend(col: seq<KeyRec>, x: KeyRec)
    ensures Unused(col + [x]) == if x.used then Unused(col) else Unused(col) + [x]
  {
    assert (col + [x])[..|col|] == col && (col + [x])[|col|] == x;
  }

  /** Every record listed derives to its own address. */
  lemma ListedRows(derive: Derivation, rows: seq<KeyRec>, list: seq<KeyRec>)
    requires TableOk(derive, rows) && multiset(list) == multiset(rows)
    ensures |list| == |rows|
    ensures forall k :: 0 <= k < |list| ==> derive(list[k].purpose, list[k].index) == Some(list[k].address)
  {
    hide TableOk;
    SameSize(rows, list);
    forall k | 0 <= k < |list| ensures derive(list[k].purpose, list[k].index) == Some(list[k].address) {
      MemberOf(list, rows, k);
      var i :| 0 <= i < |rows| && rows[i] == list[k];
      RowOk(derive, rows, i);
    }
  }

  lemma ListedKnown(rows: seq<KeyRec>, list: seq<KeyRec>, keys: seq<Address>)
    requires multiset(list) == multiset(rows) && |keys| == |list|
    requires forall k :: 0 <= k < |list| ==> keys[k] == list[k].address
    ensures forall a :: a in keys <==> Known(rows, a)
  {
    forall k | 0 <= k < |list| ensures Known(rows, keys[k]) {
      MemberOf(list, rows, k);
    }
    forall i | 0 <= i < |rows| ensures rows[i].address in keys {
      MemberOf(rows, list, i);
      var k :| 0 <= k < |list| && list[k] == rows[i];
      assert keys[k] == rows[i].address;
    }
  }

  class KeyManager {
    const store: KeysDB
    const derive: Derivation

    ghost predicate Valid()
      reads store
    {
      Injective(derive) && Unbounded(derive) && TableOk(derive, store.rows)
    }

    /** Opens over a store that is empty or was filled by a manager of the same seed. */
    constructor (store: KeysDB, derive: Derivation)
      requires Injective(derive) && Unbounded(derive) && TableOk(derive, store.rows)
      modifies store
      ensures this.store == store && this.derive == derive && Valid()
      ensures BothToppedUp(store.kind, derive, old(store.rows), store.rows)
    {
      this.store, this.derive := store, derive;
      new;
      Lookahead();
    }

    /** The next key that derives; the record goes to the end of the table. */
    method GetFreshKey(p: Purpose) returns (index: nat)
      requires Valid()
      modifies store
      ensures Valid()
      ensures FirstFrom(derive, p, NextFrom(old(Column(store.rows, p))), index)
      ensures store.rows == old(store.rows) + [KeyRec(derive(p, index).value, p, index, false)]
    {
      hide Column;
      ghost var col := Column(store.rows, p);
      assert Ascending(col);
      var last := store.GetLastKeyIndex(p);
      index := 0;
      if last.Some? {
        index := last.value.0 + 1;
      }
      assert Reaches(derive, p, index);
      ghost var bound :| index <= bound && derive(p, bound).Some?;
      while derive(p, index).None?
        invariant NextFrom(col) <= index <= bound
        invariant forall j :: NextFrom(col) <= j < index ==> derive(p, j).None?
        decreases bound - index
      {
        index := index + 1;
      }
      FreshIsUnknown(derive, store.rows, p, index);
      FreshTable(derive, store.rows, p, index);
      var ok := store.Put(derive(p, index).value, p, index);
    }

    method FillWindow(p: Purpose, missing: nat)
      requires Valid()
      modifies store
      ensures Valid()
      ensures Extends(old(Column(store.rows, p)), Column(store.rows, p), missing)
      ensures forall q :: q != p ==> Column(store.rows, q) == old(Column(store.rows, q))
    {
      hide Column, TableOk, Injective, Unbounded, FirstFrom;
      ghost var was := store.rows;
      for i := 0 to missing
        invariant Valid()
        invariant Extends(Column(was, p), Column(store.rows, p), i)
        invariant forall q :: q != p ==> Column(store.rows, q) == Column(was, q)
      {
        ghost var before := store.rows;
        var index := GetFreshKey(p);
        forall q
          ensures Column(store.rows, q)
               == if p == q then Column(before, q) + [store.rows[|before|]] else Column(before, q)
        {
          ColumnAppend(before, store.rows[|before|], q);
        }
      }
    }

    /** Fills both windows, in either order, from the sizes they had at the start. */
    method Lookahead()
      requires Valid()
      modifies store
      ensures Valid()
      ensures BothToppedUp(store.kind, derive, old(store.rows), store.rows)
    {
      hide Column, Injective, Unbounded, Window, ColumnOk;
      ghost var was := store.rows;
      var windows := store.GetLookaheadWindows();
      var purposes := windows.Keys;
      forall p: Purpose ensures p in purposes {
        match p case External => case Internal =>
      }
      while purposes != {}
        invariant purposes <= {External, Internal} && Valid()
        invariant forall p :: p in purposes ==> Column(store.rows, p) == Column(was, p)
        invariant forall p :: p !in purposes ==> ToppedUp(store.kind, derive, p, Column(was, p), Column(store.rows, p))
        decreases purposes
      {
        var p :| p in purposes;
        if windows[p] < GAP_LIMIT {
          FillWindow(p, GAP_LIMIT - windows[p]);
        }
        TableColumn(derive, store.rows, p);
        purposes := purposes - {p};
      }
    }

    /** The oldest unused key; fails only when every key is used. */
    method GetUnusedKey(p: Purpose) returns (key: Option<nat>)
      requires Valid()
      ensures key.None? <==> Unused(Column(store.rows, p)) == []
      ensures key.Some? ==> derive(p, key.value).Some? && FirstUnused(Column(store.rows, p), derive(p, key.value).value)
    {
      ghost var col := Column(store.rows, p);
      assert Ascending(col);
      var unused := store.GetUnused(p);
      if unused == [] {
        return None;
      }
      FirstOfUnused(col);
      key := Some(unused[0]);
    }

    /** Marks the key and extends the window; bolt refuses a key it does not have. */
    method MarkKeyAsUsed(a: Address) returns (ok: bool)
      requires Valid()
      modifies store
      ensures Valid()
      ensures ok <==> store.kind.Sqlite? || old(Known(store.rows, a))
      ensures MarkStep(store.kind, derive, old(store.rows), a, store.rows)
    {
      MarkedTable(derive, store.rows, a);
      hide TableOk, BothToppedUp, Injective, Unbounded;
      ok := store.MarkKeyAsUsed(a);
      if !ok {
        UnknownUnmarked(old(store.rows), a);
        return;
      }
      Lookahead();
    }

    /** The addresses of all keys stored. */
    method GetKeys() returns (keys: seq<Address>)
      requires Valid()
      ensures |keys| == |store.rows| && forall a :: a in keys <==> Known(store.rows, a)
    {
      var paths := store.GetAll();
      ghost var list: seq<KeyRec> :| multiset(list) == multiset(store.rows) && paths == Paths(list);
      ListedRows(derive, store.rows, list);
      keys := [];
      for i := 0 to |paths|
        invariant |keys| == i && forall k :: 0 <= k < i ==> keys[k] == list[k].address
      {
        var key := derive(paths[i].0, paths[i].1);
        if key.None? {
          continue;
        }
        keys := keys + [key.value];
      }
      ListedKnown(store.rows, list, keys);
    }

    /** The key that was issued for a script, if one was. */
    method GetKeyForScript(a: Address) returns (key: Option<(Purpose, nat)>)
      requires Valid()
      ensures key.Some? <==> Known(store.rows, a)
      ensures key.Some? ==> derive(key.value.0, key.value.1) == Some(a)
    {
      key := store.GetPathForKey(a);
      if key.Some? {
        ghost var i :| 0 <= i < |store.rows| && store.rows[i].address == a
          && key.value == (store.rows[i].purpose, store.rows[i].index);
        RowOk(derive, store.rows, i);
      }
    }
  }

  lemma TableColumn(derive: Derivation, rows: seq<KeyRec>, p: Purpose)
    requires TableOk(derive, rows)
    ensures ColumnOk(derive, p, Column(rows, p))
  {
  }

  lemma FreshTable(derive: Derivation, rows: seq<KeyRec>, p: Purpose, i: nat)
    requires TableOk(derive, rows) && FirstFrom(derive, p, NextFrom(Column(rows, p)), i)
    ensures TableOk(derive, rows + [KeyRec(derive(p, i).value, p, i, false)])
  {
    TableColumn(derive, rows, p);
    hide Column, ColumnOk, FirstFrom, NextFrom;
    var x := KeyRec(derive(p, i).value, p, i, false);
    ColumnAppend(rows, x, External);
    ColumnAppend(rows, x, Internal);
    FreshKeeps(derive, p, Column(rows, p), i);
  }

  lemma MarkedTable(derive: Derivation, rows: seq<KeyRec>, a: Address)
    requires TableOk(derive, rows)
    ensures TableOk(derive, Marked(rows, a))
  {
    hide Column, ColumnOk, Marked;
    MarkedColumn(rows, a, External);
    MarkedColumn(rows, a, Internal);
    MarkedOk(derive, External, Column(rows, External), a);
    MarkedOk(derive, Internal, Column(rows, Internal), a);
  }

  lemma UnknownUnmarked(rows: seq<KeyRec>, a: Address)
    requires !Known(rows, a)
    ensures Marked(rows, a) == rows
  {
    forall i | 0 <= i < |rows| ensures rows[i].address != a {
    }
  }

  lemma {:induction false} FirstOfUnused(col: seq<KeyRec>)
    requires Unused(col) != []
    ensures exists k ::
              0 <= k < |col| && col[k] == Unused(col)[0] && !col[k].used && forall i :: 0 <= i < k ==> col[i].used
  {
    var n := |col| - 1;
    if Unused(col[..n]) != [] {
      FirstOfUnused(col[..n]);
      var k :| 0 <= k < n && col[..n][k] == Unused(col[..n])[0] && !col[..n][k].used
        && forall i :: 0 <= i < k ==> col[..n][i].used;
      assert col[k] == Unused(col)[0];
      assert forall i :: 0 <= i < k ==> col[..n][i] == col[i];
    } else {
      AllUsed(col[..n]);
      assert forall i :: 0 <= i < n ==> col[..n][i] == col[i];
      assert col[n] == Unused(col)[0];
    }
  }
}

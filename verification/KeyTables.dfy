/** Wallet keys as values: the table a store holds, how each store counts its lookahead window, and
    what marking keys as used does to it. */
module KeyTables {
  import opened Options

  const GAP_LIMIT: nat := 10

  datatype Purpose = External | Internal

  datatype Address = Address(number: nat)

  datatype KeyRec = KeyRec(address: Address, purpose: Purpose, index: nat, used: bool)

  /** bolt keeps a bucket of records by address; sqlite keeps rows in the order of their insertion. */
  datatype Kind = Bolt | Sqlite

  /** The address of the child key at an index; None for the few indexes that yield no valid key. */
  type Derivation = (Purpose, nat) -> Option<Address>

  /** The records of one purpose, in table order. */
  function Column(rows: seq<KeyRec>, p: Purpose): seq<KeyRec> {
    if rows == [] then []
    else
      var n := |rows| - 1;
      Column(rows[..n], p) + (if rows[n].purpose == p then [rows[n]] else [])
  }

  function Unused(col: seq<KeyRec>): seq<KeyRec> {
    if col == [] then []
    else
      var n := |col| - 1;
      Unused(col[..n]) + (if col[n].used then [] else [col[n]])
  }

  /** How many records at the end are unused. */
  function Trailing(col: seq<KeyRec>): nat {
    if col == [] || col[|col| - 1].used then 0 else 1 + Trailing(col[..|col| - 1])
  }

  function Window(kind: Kind, col: seq<KeyRec>): nat {
    match kind
    case Bolt => |Unused(col)|
    case Sqlite => Trailing(col)
  }

  ghost predicate UsedFirst(col: seq<KeyRec>) {
    forall i, j :: 0 <= i < j < |col| && col[j].used ==> col[i].used
  }

  lemma {:induction false} AllUsed(col: seq<KeyRec>)
    ensures Unused(col) == [] <==> forall i :: 0 <= i < |col| ==> col[i].used
  {
    if col != [] {
      AllUsed(col[..|col| - 1]);
    }
  }

  /** bolt's window is never below sqlite's, and is the same exactly when no unused key precedes a used one. */
  lemma {:induction false} TwoWindows(col: seq<KeyRec>)
    ensures Window(Bolt, col) >= Window(Sqlite, col)
    ensures Window(Bolt, col) == Window(Sqlite, col) <==> UsedFirst(col)
  {
    if col != [] {
      var n := |col| - 1;
      if col[n].used {
        AllUsed(col);
        AllUsed(col[..n]);
        assert UsedFirst(col) <==> forall i :: 0 <= i < n ==> col[i].used;
      } else {
        TwoWindows(col[..n]);
        assert UsedFirst(col) <==> UsedFirst(col[..n]) by {
          assert forall i :: 0 <= i < n ==> col[..n][i] == col[i];
        }
      }
    }
  }

  function Marked(rows: seq<KeyRec>, a: Address): (m: seq<KeyRec>)
    ensures |m| == |rows|
  {
    seq(|rows|, i requires 0 <= i < |rows| => if rows[i].address == a then rows[i].(used := true) else rows[i])
  }

  lemma {:induction false} MarkedColumn(rows: seq<KeyRec>, a: Address, p: Purpose)
    ensures Column(Marked(rows, a), p) == Marked(Column(rows, p), a)
  {
    if rows != [] {
      var n := |rows| - 1;
      MarkedColumn(rows[..n], a, p);
      assert Marked(rows, a)[..n] == Marked(rows[..n], a);
    }
  }

  ghost predicate Ascending(col: seq<KeyRec>) {
    forall i, j :: 0 <= i < j < |col| ==> col[i].index < col[j].index
  }

  /** The first index not yet considered. */
  function NextFrom(col: seq<KeyRec>): nat {
    if col == [] then 0 else col[|col| - 1].index + 1
  }

  ghost predicate Issued(col: seq<KeyRec>, i: nat) {
    exists k :: 0 <= k < |col| && col[k].index == i
  }

  /** Keys were issued at rising indexes, each the key derived there, and only underivable indexes were skipped. */
  ghost predicate ColumnOk(derive: Derivation, p: Purpose, col: seq<KeyRec>) {
    && Ascending(col)
    && (forall k :: 0 <= k < |col| ==> col[k].purpose == p && derive(p, col[k].index) == Some(col[k].address))
    && (forall i: nat :: i < NextFrom(col) && derive(p, i).Some? ==> Issued(col, i))
  }

  ghost predicate TableOk(derive: Derivation, rows: seq<KeyRec>) {
    ColumnOk(derive, External, Column(rows, External)) && ColumnOk(derive, Internal, Column(rows, Internal))
  }

  /** Different keys have different addresses. */
  ghost predicate Injective(derive: Derivation) {
    forall p, q, i, j :: derive(p, i).Some? && derive(p, i) == derive(q, j) ==> p == q && i == j
  }

  /** However far one looks there are valid keys further on. */
  ghost predicate Unbounded(derive: Derivation) {
    forall p, n :: Reaches(derive, p, n)
  }

  ghost predicate Reaches(derive: Derivation, p: Purpose, n: nat) {
    exists m :: n <= m && derive(p, m).Some?
  }

  /** i is the first index from n on that yields a key. */
  ghost predicate FirstFrom(derive: Derivation, p: Purpose, n: nat, i: nat) {
    n <= i && derive(p, i).Some? && forall j :: n <= j < i ==> derive(p, j).None?
  }

  /** Issuing the next derivable key keeps the column right. */
  lemma FreshKeeps(derive: Derivation, p: Purpose, col: seq<KeyRec>, i: nat)
    requires ColumnOk(derive, p, col) && FirstFrom(derive, p, NextFrom(col), i)
    ensures ColumnOk(derive, p, col + [KeyRec(derive(p, i).value, p, i, false)])
  {
    var longer := col + [KeyRec(derive(p, i).value, p, i, false)];
    forall j: nat | j < NextFrom(longer) && derive(p, j).Some? ensures Issued(longer, j) {
      if j < NextFrom(col) {
        var k :| 0 <= k < |col| && col[k].index == j;
        assert longer[k].index == j;
      } else {
        assert longer[|col|].index == j;
      }
    }
  }

  lemma BelowNext(col: seq<KeyRec>, k: nat)
    requires Ascending(col) && k < |col|
    ensures col[k].index < NextFrom(col)
  {
  }

  /** A key that derives at an index below the k-th is among the first k. */
  lemma AmongTheFirst(derive: Derivation, p: Purpose, col: seq<KeyRec>, k: nat, i: nat)
    requires ColumnOk(derive, p, col) && k < |col| && i < col[k].index && derive(p, i).Some?
    ensures exists j :: 0 <= j < k && col[j].index == i
  {
    hide NextFrom;
    BelowNext(col, k);
    assert Issued(col, i);
  }

  /** No column issues its k-th key before another that issued the same keys until then. */
  lemma NotBefore(derive: Derivation, p: Purpose, a: seq<KeyRec>, b: seq<KeyRec>, k: nat)
    requires ColumnOk(derive, p, a) && ColumnOk(derive, p, b) && k < |a| && k < |b|
    requires forall j :: 0 <= j < k ==> a[j].index == b[j].index
    ensures a[k].index >= b[k].index
  {
    hide NextFrom, Issued;
    if a[k].index < b[k].index {
      AmongTheFirst(derive, p, b, k, a[k].index);
      assert false;
    }
  }

  /** The k-th key issued for a purpose is the same on every store and under every pattern of use. */
  lemma {:induction false} SameKey(derive: Derivation, p: Purpose, a: seq<KeyRec>, b: seq<KeyRec>, k: nat)
    requires ColumnOk(derive, p, a) && ColumnOk(derive, p, b) && k < |a| && k < |b|
    ensures a[k].index == b[k].index && a[k].address == b[k].address
  {
    hide Issued, NextFrom, Ascending;
    forall j | 0 <= j < k ensures a[j].index == b[j].index {
      SameKey(derive, p, a, b, j);
    }
    NotBefore(derive, p, a, b, k);
    NotBefore(derive, p, b, a, k);
    assert derive(p, a[k].index) == Some(a[k].address) && derive(p, b[k].index) == Some(b[k].address);
  }

  /** A column with unused keys put at its end. */
  ghost predicate Extends(col: seq<KeyRec>, longer: seq<KeyRec>, n: nat) {
    && |longer| == |col| + n && longer[..|col|] == col
    && forall k :: |col| <= k < |longer| ==> !longer[k].used
  }

  lemma {:induction false} ExtendedWindow(kind: Kind, col: seq<KeyRec>, longer: seq<KeyRec>, n: nat)
    requires Extends(col, longer, n)
    ensures Window(kind, longer) == Window(kind, col) + n
    decreases n
  {
    if n == 0 {
      assert longer == col;
    } else {
      var m := |longer| - 1;
      assert longer[..m][..|col|] == longer[..|col|];
      ExtendedWindow(kind, col, longer[..m], n - 1);
    }
  }

  lemma {:induction false} MarkingNeverWidens(kind: Kind, col: seq<KeyRec>, a: Address)
    ensures Window(kind, Marked(col, a)) <= Window(kind, col)
  {
    if col != [] {
      var n := |col| - 1;
      MarkingNeverWidens(kind, col[..n], a);
      assert Marked(col, a)[..n] == Marked(col[..n], a);
    }
  }

  lemma MarkedFields(col: seq<KeyRec>, a: Address)
    ensures forall k :: 0 <= k < |col| ==>
              var m := Marked(col, a)[k];
              m.index == col[k].index && m.address == col[k].address && m.purpose == col[k].purpose
    ensures NextFrom(Marked(col, a)) == NextFrom(col)
  {
  }

  lemma MarkedOk(derive: Derivation, p: Purpose, col: seq<KeyRec>, a: Address)
    requires ColumnOk(derive, p, col)
    ensures ColumnOk(derive, p, Marked(col, a))
  {
    MarkedFields(col, a);
    hide Marked, NextFrom;
    forall i: nat | i < NextFrom(Marked(col, a)) && derive(p, i).Some? ensures Issued(Marked(col, a), i) {
      assert Issued(col, i);
      var k :| 0 <= k < |col| && col[k].index == i;
      assert Marked(col, a)[k].index == i;
    }
  }

  function Short(kind: Kind, col: seq<KeyRec>): nat {
    if Window(kind, col) < GAP_LIMIT then GAP_LIMIT - Window(kind, col) else 0
  }

  /** The window filled up with fresh keys. */
  ghost predicate ToppedUp(kind: Kind, derive: Derivation, p: Purpose, col: seq<KeyRec>, longer: seq<KeyRec>) {
    Extends(col, longer, Short(kind, col)) && ColumnOk(derive, p, longer)
  }

  ghost predicate BothToppedUp(kind: Kind, derive: Derivation, rows: seq<KeyRec>, longer: seq<KeyRec>) {
    && ToppedUp(kind, derive, External, Column(rows, External), Column(longer, External))
    && ToppedUp(kind, derive, Internal, Column(rows, Internal), Column(longer, Internal))
  }

  ghost predicate Known(rows: seq<KeyRec>, a: Address) {
    exists i :: 0 <= i < |rows| && rows[i].address == a
  }

  /** A key marked as used and the windows filled up again; bolt refuses an address it does not know. */
  ghost predicate MarkStep(kind: Kind, derive: Derivation, rows: seq<KeyRec>, a: Address, after: seq<KeyRec>) {
    if kind.Bolt? && !Known(rows, a) then after == rows
    else BothToppedUp(kind, derive, Marked(rows, a), after)
  }

  ghost predicate FullWindows(kind: Kind, rows: seq<KeyRec>) {
    Window(kind, Column(rows, External)) == 10 == Window(kind, Column(rows, Internal))
  }

  lemma ToppedUpIsFull(kind: Kind, derive: Derivation, p: Purpose, col: seq<KeyRec>, longer: seq<KeyRec>)
    requires ToppedUp(kind, derive, p, col, longer) && Window(kind, col) <= GAP_LIMIT
    ensures Window(kind, longer) == GAP_LIMIT
  {
    ExtendedWindow(kind, col, longer, Short(kind, col));
  }

  /** tables[0] comes from an empty store by construction, each next one by marking a key. */
  ghost predicate MarkRun(kind: Kind, derive: Derivation, tables: seq<seq<KeyRec>>, marks: seq<Address>) {
    && |tables| == |marks| + 1
    && BothToppedUp(kind, derive, [], tables[0])
    && forall i :: 0 <= i < |marks| ==> MarkedAt(kind, derive, tables, marks, i)
  }

  ghost predicate MarkedAt(kind: Kind, derive: Derivation, tables: seq<seq<KeyRec>>, marks: seq<Address>, i: nat)
    requires i < |marks| && |tables| == |marks| + 1
  {
    MarkStep(kind, derive, tables[i], marks[i], tables[i + 1])
  }

  lemma MarkStepKeeps(kind: Kind, derive: Derivation, rows: seq<KeyRec>, a: Address, after: seq<KeyRec>)
    requires MarkStep(kind, derive, rows, a, after) && TableOk(derive, rows) && FullWindows(kind, rows)
    ensures TableOk(derive, after) && FullWindows(kind, after)
  {
    if !(kind.Bolt? && !Known(rows, a)) {
      hide ColumnOk, Extends, Window, Short, Column, Marked;
      MarkedColumn(rows, a, External);
      MarkedColumn(rows, a, Internal);
      MarkingNeverWidens(kind, Column(rows, External), a);
      MarkingNeverWidens(kind, Column(rows, Internal), a);
      ToppedUpIsFull(kind, derive, External, Column(Marked(rows, a), External), Column(after, External));
      ToppedUpIsFull(kind, derive, Internal, Column(Marked(rows, a), Internal), Column(after, Internal));
    }
  }

  /** After construction on an empty store and after any sequence of marks, known addresses or not, in any
      order, both windows hold exactly the gap limit by the store's own count, and nothing but
      underivable indexes was skipped. */
  lemma {:induction false} WindowsStayFull(kind: Kind, derive: Derivation, tables: seq<seq<KeyRec>>,
                                           marks: seq<Address>, n: nat)
    requires MarkRun(kind, derive, tables, marks) && n <= |marks|
    ensures TableOk(derive, tables[n]) && FullWindows(kind, tables[n])
    decreases n
  {
    hide MarkStep, TableOk, FullWindows, BothToppedUp;
    if n == 0 {
      StartsFull(kind, derive, tables[0]);
    } else {
      WindowsStayFull(kind, derive, tables, marks, n - 1);
      assert MarkedAt(kind, derive, tables, marks, n - 1);
      MarkStepKeeps(kind, derive, tables[n - 1], marks[n - 1], tables[n]);
    }
  }

  lemma StartsFull(kind: Kind, derive: Derivation, rows: seq<KeyRec>)
    requires BothToppedUp(kind, derive, [], rows)
    ensures TableOk(derive, rows) && FullWindows(kind, rows)
  {
    hide ColumnOk, Extends;
    ToppedUpIsFull(kind, derive, External, [], Column(rows, External));
    ToppedUpIsFull(kind, derive, Internal, [], Column(rows, Internal));
  }

  /** The oldest unused key of a column. */
  ghost predicate FirstUnused(col: seq<KeyRec>, a: Address) {
    exists k :: 0 <= k < |col| && col[k].address == a && !col[k].used && forall i :: 0 <= i < k ==> col[i].used
  }

  /** The first n keys are used, and the gap limit of keys after them is not. */
  ghost predicate QueueOf(derive: Derivation, p: Purpose, col: seq<KeyRec>, n: nat) {
    ColumnOk(derive, p, col) && |col| == n + GAP_LIMIT && forall k :: 0 <= k < |col| ==> (col[k].used <==> k < n)
  }

  function CountOf(purposes: seq<Purpose>, p: Purpose): nat {
    if purposes == [] then 0
    else CountOf(purposes[..|purposes| - 1], p) + (if purposes[|purposes| - 1] == p then 1 else 0)
  }

  /** Every mark is of the oldest unused key of the purpose asked for. */
  ghost predicate InOrder(tables: seq<seq<KeyRec>>, marks: seq<Address>, purposes: seq<Purpose>)
    requires |tables| == |marks| + 1
  {
    |purposes| == |marks| && forall i :: 0 <= i < |marks| ==> InOrderAt(tables, marks, purposes, i)
  }

  ghost predicate InOrderAt(tables: seq<seq<KeyRec>>, marks: seq<Address>, purposes: seq<Purpose>, i: nat)
    requires i < |marks| == |purposes| && |tables| == |marks| + 1
  {
    FirstUnused(Column(tables[i], purposes[i]), marks[i])
  }

  lemma {:induction false} QueueWindow(kind: Kind, col: seq<KeyRec>, n: nat)
    requires n <= |col| && forall k :: 0 <= k < |col| ==> (col[k].used <==> k < n)
    ensures Window(kind, col) == |col| - n
    decreases |col|
  {
    if |col| > n {
      QueueWindow(kind, col[..|col| - 1], n);
    } else {
      AllUsed(col);
    }
  }

  lemma MarksOne(derive: Derivation, p: Purpose, col: seq<KeyRec>, n: nat)
    requires Injective(derive) && ColumnOk(derive, p, col) && n < |col|
    ensures forall i :: 0 <= i < |col| ==> Marked(col, col[n].address)[i].used == (col[i].used || i == n)
  {
    forall i | 0 <= i < |col| ensures Marked(col, col[n].address)[i].used == (col[i].used || i == n) {
      assert derive(p, col[i].index) == Some(col[i].address) && derive(p, col[n].index) == Some(col[n].address);
    }
  }

  lemma FirstIsNext(col: seq<KeyRec>, a: Address, n: nat)
    requires FirstUnused(col, a) && n < |col| && forall k :: 0 <= k < |col| ==> (col[k].used <==> k < n)
    ensures col[n].address == a
  {
    var k :| 0 <= k < |col| && col[k].address == a && !col[k].used && forall i :: 0 <= i < k ==> col[i].used;
    assert !col[n].used;
  }

  /** The marked purpose moves on by one key. */
  lemma QueueMoves(kind: Kind, derive: Derivation, p: Purpose, col: seq<KeyRec>, a: Address, after: seq<KeyRec>, n: nat)
    requires Injective(derive) && QueueOf(derive, p, col, n) && FirstUnused(col, a)
    requires ToppedUp(kind, derive, p, Marked(col, a), after)
    ensures QueueOf(derive, p, after, n + 1)
  {
    var m := Marked(col, a);
    assert ColumnOk(derive, p, col) && ColumnOk(derive, p, after);
    hide ColumnOk, Marked, Injective, Window;
    FirstIsNext(col, a, n);
    MarksOne(derive, p, col, n);
    QueueWindow(kind, m, n + 1);
    hide FirstUnused;
    assert forall i :: 0 <= i < |m| ==> after[..|m|][i] == after[i];
  }

  /** The other purpose stays as it was. */
  lemma QueueStays(kind: Kind, derive: Derivation, p: Purpose, col: seq<KeyRec>, a: Address, after: seq<KeyRec>, n: nat)
    requires QueueOf(derive, p, col, n) && ToppedUp(kind, derive, p, Marked(col, a), after)
    requires forall i :: 0 <= i < |col| ==> col[i].address != a
    ensures after == col
  {
    assert Marked(col, a) == col;
    QueueWindow(kind, col, n);
  }

  lemma NotInOther(derive: Derivation, p: Purpose, q: Purpose, col: seq<KeyRec>, other: seq<KeyRec>, a: Address)
    requires Injective(derive) && p != q && ColumnOk(derive, p, col) && ColumnOk(derive, q, other)
             && FirstUnused(col, a)
    ensures forall i :: 0 <= i < |other| ==> other[i].address != a
  {
    var k :| 0 <= k < |col| && col[k].address == a && !col[k].used;
    assert derive(p, col[k].index) == Some(a);
    forall i | 0 <= i < |other| ensures other[i].address != a {
      assert derive(q, other[i].index) == Some(other[i].address);
    }
  }

  lemma {:induction false} ColumnKnown(rows: seq<KeyRec>, p: Purpose, a: Address)
    ensures forall k :: 0 <= k < |Column(rows, p)| && Column(rows, p)[k].address == a ==> Known(rows, a)
  {
    if rows != [] {
      var n := |rows| - 1;
      ColumnKnown(rows[..n], p, a);
      forall k | 0 <= k < |Column(rows, p)| && Column(rows, p)[k].address == a ensures Known(rows, a) {
        if k < |Column(rows[..n], p)| {
          assert Known(rows[..n], a);
          var i :| 0 <= i < n && rows[..n][i].address == a;
          assert rows[i].address == a;
        } else {
          assert rows[n].address == a;
        }
      }
    }
  }

  lemma InOrderStep(kind: Kind, derive: Derivation, rows: seq<KeyRec>, a: Address, after: seq<KeyRec>, q: Purpose,
                    p: Purpose, n: nat)
    requires Injective(derive) && MarkStep(kind, derive, rows, a, after) && FirstUnused(Column(rows, q), a)
    requires QueueOf(derive, p, Column(rows, p), n) && TableOk(derive, rows)
    ensures QueueOf(derive, p, Column(after, p), if p == q then n + 1 else n)
  {
    hide Column, Marked, Injective, ColumnOk;
    ColumnKnown(rows, q, a);
    MarkedColumn(rows, a, p);
    if p == q {
      QueueMoves(kind, derive, p, Column(rows, p), a, Column(after, p), n);
    } else {
      NotInOther(derive, q, p, Column(rows, q), Column(rows, p), a);
      QueueStays(kind, derive, p, Column(rows, p), a, Column(after, p), n);
    }
  }

  lemma {:induction false} InOrderQueue(kind: Kind, derive: Derivation, tables: seq<seq<KeyRec>>, marks: seq<Address>,
                                        purposes: seq<Purpose>, p: Purpose, n: nat)
    requires Injective(derive) && MarkRun(kind, derive, tables, marks) && InOrder(tables, marks, purposes)
             && n <= |marks|
    ensures QueueOf(derive, p, Column(tables[n], p), CountOf(purposes[..n], p))
    decreases n
  {
    hide MarkStep, Injective, QueueOf, Column, TableOk, FirstUnused, BothToppedUp;
    if n == 0 {
      StartsAsQueue(kind, derive, p, tables[0]);
    } else {
      InOrderQueue(kind, derive, tables, marks, purposes, p, n - 1);
      WindowsStayFull(kind, derive, tables, marks, n - 1);
      assert MarkedAt(kind, derive, tables, marks, n - 1) && InOrderAt(tables, marks, purposes, n - 1);
      InOrderStep(kind, derive, tables[n - 1], marks[n - 1], tables[n], purposes[n - 1], p,
        CountOf(purposes[..n - 1], p));
      assert purposes[..n][..n - 1] == purposes[..n - 1];
    }
  }

  lemma StartsAsQueue(kind: Kind, derive: Derivation, p: Purpose, rows: seq<KeyRec>)
    requires BothToppedUp(kind, derive, [], rows)
    ensures QueueOf(derive, p, Column(rows, p), 0)
  {
  }

  /** Where keys are always marked in the order they are handed out, the two stores hold the same keys, with
      the same marks, after every step. */
  lemma StoresAgree(derive: Derivation, bolt: seq<seq<KeyRec>>, sqlite: seq<seq<KeyRec>>, boltMarks: seq<Address>,
                    sqliteMarks: seq<Address>, purposes: seq<Purpose>, n: nat, p: Purpose)
    requires Injective(derive) && n <= |purposes|
    requires MarkRun(Bolt, derive, bolt, boltMarks) && InOrder(bolt, boltMarks, purposes)
    requires MarkRun(Sqlite, derive, sqlite, sqliteMarks) && InOrder(sqlite, sqliteMarks, purposes)
    ensures Column(bolt[n], p) == Column(sqlite[n], p)
  {
    hide Column, MarkedAt, InOrderAt, Injective, ColumnOk, BothToppedUp;
    InOrderQueue(Bolt, derive, bolt, boltMarks, purposes, p, n);
    InOrderQueue(Sqlite, derive, sqlite, sqliteMarks, purposes, p, n);
    var a, b := Column(bolt[n], p), Column(sqlite[n], p);
    SamePurpose(derive, p, a);
    SamePurpose(derive, p, b);
    forall k | 0 <= k < |a| ensures a[k] == b[k] {
      SameKey(derive, p, a, b, k);
    }
  }

  lemma SamePurpose(derive: Derivation, p: Purpose, col: seq<KeyRec>)
    requires ColumnOk(derive, p, col)
    ensures forall k :: 0 <= k < |col| ==> col[k].purpose == p
  {
  }

  // ---------------------------------------------------------------------------
  // Several keys marked in turn
  // ---------------------------------------------------------------------------

  lemma {:induction false} RowInColumn(rows: seq<KeyRec>, i: nat)
    requires i < |rows|
    ensures rows[i] in Column(rows, rows[i].purpose)
  {
    var n, col := |rows| - 1, Column(rows, rows[i].purpose);
    if i < n {
      RowInColumn(rows[..n], i);
      assert rows[..n][i] == rows[i];
    } else {
      assert col[|col| - 1] == rows[n];
    }
  }

  lemma MarkKnown(rows: seq<KeyRec>, a: Address, b: Address)
    requires Known(rows, b)
    ensures Known(Marked(rows, a), b)
  {
    var i :| 0 <= i < |rows| && rows[i].address == b;
    assert Marked(rows, a)[i].address == b;
  }

  /** No step forgets an address. */
  lemma StepKnows(kind: Kind, derive: Derivation, rows: seq<KeyRec>, a: Address, after: seq<KeyRec>, b: Address)
    requires MarkStep(kind, derive, rows, a, after) && Known(rows, b)
    ensures Known(after, b)
  {
    if !(kind.Bolt? && !Known(rows, a)) {
      MarkKnown(rows, a, b);
      var m := Marked(rows, a);
      var i :| 0 <= i < |m| && m[i].address == b;
      var p := m[i].purpose;
      RowInColumn(m, i);
      hide Column, ColumnOk, Marked, Short;
      var k :| 0 <= k < |Column(m, p)| && Column(m, p)[k] == m[i];
      assert Extends(Column(m, p), Column(after, p), Short(kind, Column(m, p)));
      assert Column(after, p)[k] == Column(after, p)[..|Column(m, p)|][k];
      ColumnKnown(after, p, b);
    }
  }

  // ---------------------------------------------------------------------------
  // How many unused keys bolt keeps after the last used one
  // ---------------------------------------------------------------------------

  lemma {:induction false} SameFlags(a: seq<KeyRec>, b: seq<KeyRec>)
    requires |a| == |b| && forall i :: 0 <= i < |a| ==> a[i].used == b[i].used
    ensures |Unused(a)| == |Unused(b)|
  {
    if a != [] {
      SameFlags(a[..|a| - 1], b[..|b| - 1]);
    }
  }

  /** The column m is col with the n-th key used. */
  lemma {:induction false} OneMarked(col: seq<KeyRec>, m: seq<KeyRec>, n: nat)
    requires |m| == |col| && n < |col| && forall i :: 0 <= i < |col| ==> m[i].used == (col[i].used || i == n)
    ensures |Unused(m)| == |Unused(col)| - if col[n].used then 0 else 1
    ensures Trailing(m)
         == if col[n].used || Trailing(col) <= |col| - 1 - n then Trailing(col) else |col| - 1 - n
  {
    var z := |col| - 1;
    if n == z {
      SameFlags(col[..z], m[..z]);
    } else {
      OneMarked(col[..z], m[..z], n);
    }
  }

  /** After bolt marks the n-th key, the unused run at the end is one longer than what it was after that key, or after
      the last used one if that comes later: the one key that is issued. Marking the newest key leaves a run of one,
      whatever the gap limit. */
  lemma RunAfterMark(derive: Derivation, rows: seq<KeyRec>, p: Purpose, n: nat, after: seq<KeyRec>)
    requires Injective(derive) && TableOk(derive, rows) && FullWindows(Bolt, rows) && n < |Column(rows, p)|
    requires MarkStep(Bolt, derive, rows, Column(rows, p)[n].address, after)
    ensures var col := Column(rows, p);
            Trailing(Column(after, p))
            == if col[n].used then Trailing(col)
               else if Trailing(col) <= |col| - 1 - n then Trailing(col) + 1
               else |col| - n
    ensures n == |Column(rows, p)| - 1 && !Column(rows, p)[n].used ==> Trailing(Column(after, p)) == 1
  {
    hide ColumnOk, Injective, Column, Unused, Trailing, Marked;
    var col := Column(rows, p);
    var a := col[n].address;
    ColumnKnown(rows, p, a);
    MarkedColumn(rows, a, p);
    var m := Marked(col, a);
    assert ColumnOk(derive, p, col);
    MarksOne(derive, p, col, n);
    OneMarked(col, m, n);
    ExtendedWindow(Sqlite, m, Column(after, p), Short(Bolt, m));
  }

  /** The addresses marked one after the other. */
  ghost predicate MarkedInTurn(kind: Kind, derive: Derivation, rows: seq<KeyRec>, marks: seq<Address>,
                               after: seq<KeyRec>) {
    if marks == [] then after == rows
    else
      var n := |marks| - 1;
      exists mid :: MarkedInTurn(kind, derive, rows, marks[..n], mid) && MarkStep(kind, derive, mid, marks[n], after)
  }

  /** Any number of marks keeps both windows full and forgets no address. */
  lemma {:induction false} InTurnKeeps(kind: Kind, derive: Derivation, rows: seq<KeyRec>, marks: seq<Address>,
                                       after: seq<KeyRec>)
    requires MarkedInTurn(kind, derive, rows, marks, after)
    ensures TableOk(derive, rows) && FullWindows(kind, rows) ==> TableOk(derive, after) && FullWindows(kind, after)
    ensures forall b :: Known(rows, b) ==> Known(after, b)
    decreases |marks|
  {
    hide TableOk, FullWindows, MarkStep, Known;
    if marks != [] {
      var n := |marks| - 1;
      var mid :| MarkedInTurn(kind, derive, rows, marks[..n], mid) && MarkStep(kind, derive, mid, marks[n], after);
      InTurnKeeps(kind, derive, rows, marks[..n], mid);
      if TableOk(derive, mid) && FullWindows(kind, mid) {
        MarkStepKeeps(kind, derive, mid, marks[n], after);
      }
      forall b | Known(mid, b) ensures Known(after, b) {
        StepKnows(kind, derive, mid, marks[n], after, b);
      }
    }
  }

  // ---------------------------------------------------------------------------
  // Which keys are used
  // ---------------------------------------------------------------------------

  ghost predicate UsedKey(rows: seq<KeyRec>, a: Address) {
    exists i :: 0 <= i < |rows| && rows[i].address == a && rows[i].used
  }

  lemma MarkUses(rows: seq<KeyRec>, x: Address, a: Address)
    ensures UsedKey(Marked(rows, x), a) <==> UsedKey(rows, a) || (a == x && Known(rows, x))
  {
    var m := Marked(rows, x);
    if i :| 0 <= i < |rows| && rows[i].address == a && (rows[i].used || a == x) {
      assert m[i].address == a && m[i].used;
    }
    if i :| 0 <= i < |m| && m[i].address == a && m[i].used {
      assert rows[i].address == a;
    }
  }

  lemma {:induction false} ColumnUses(rows: seq<KeyRec>, p: Purpose, a: Address)
    ensures UsedKey(Column(rows, p), a) <==>
            exists i :: 0 <= i < |rows| && rows[i].purpose == p && rows[i].address == a && rows[i].used
  {
    if rows != [] {
      var n, was, col := |rows| - 1, Column(rows[..|rows| - 1], p), Column(rows, p);
      ColumnUses(rows[..n], p, a);
      assert rows == rows[..n] + [rows[n]];
      if UsedKey(was, a) {
        var k :| 0 <= k < |was| && was[k].address == a && was[k].used;
        assert col[k] == was[k];
      }
      if rows[n].purpose == p && rows[n].address == a && rows[n].used {
        assert col[|col| - 1] == rows[n];
      }
    }
  }

  lemma UsesByColumn(rows: seq<KeyRec>, a: Address)
    ensures UsedKey(rows, a) <==> UsedKey(Column(rows, External), a) || UsedKey(Column(rows, Internal), a)
  {
    hide Column;
    ColumnUses(rows, External, a);
    ColumnUses(rows, Internal, a);
    forall i | 0 <= i < |rows| ensures rows[i].purpose == External || rows[i].purpose == Internal {
      match rows[i].purpose case External => case Internal =>
    }
  }

  lemma ExtendedUses(col: seq<KeyRec>, longer: seq<KeyRec>, n: nat, a: Address)
    requires Extends(col, longer, n)
    ensures UsedKey(longer, a) <==> UsedKey(col, a)
  {
    if i :| 0 <= i < |longer| && longer[i].address == a && longer[i].used {
      assert longer[..|col|][i] == longer[i];
    }
    if i :| 0 <= i < |col| && col[i].address == a && col[i].used {
      assert longer[..|col|][i] == longer[i];
    }
  }

  /** A mark uses the key marked and no other. */
  lemma StepUses(kind: Kind, derive: Derivation, rows: seq<KeyRec>, x: Address, after: seq<KeyRec>, a: Address)
    requires MarkStep(kind, derive, rows, x, after)
    ensures UsedKey(after, a) <==> UsedKey(rows, a) || (a == x && Known(rows, x))
  {
    hide Column, Extends, Short, ColumnOk, UsedKey, Marked;
    var m := Marked(rows, x);
    MarkUses(rows, x, a);
    if !(kind.Bolt? && !Known(rows, x)) {
      UsesByColumn(m, a);
      UsesByColumn(after, a);
      ExtendedUses(Column(m, External), Column(after, External), Short(kind, Column(m, External)), a);
      ExtendedUses(Column(m, Internal), Column(after, Internal), Short(kind, Column(m, Internal)), a);
    }
  }

  /** Of the keys stored before, those marked become used and the others stay as they are. */
  lemma {:induction false} TurnUses(kind: Kind, derive: Derivation, rows: seq<KeyRec>, marks: seq<Address>,
                                    after: seq<KeyRec>, a: Address)
    requires MarkedInTurn(kind, derive, rows, marks, after) && Known(rows, a)
    ensures UsedKey(after, a) <==> UsedKey(rows, a) || a in marks
    decreases |marks|
  {
    hide UsedKey, MarkStep, Known;
    if marks != [] {
      var n := |marks| - 1;
      var mid :| MarkedInTurn(kind, derive, rows, marks[..n], mid) && MarkStep(kind, derive, mid, marks[n], after);
      TurnUses(kind, derive, rows, marks[..n], mid, a);
      InTurnKeeps(kind, derive, rows, marks[..n], mid);
      StepUses(kind, derive, mid, marks[n], after, a);
      assert marks == marks[..n] + [marks[n]];
    }
  }
}

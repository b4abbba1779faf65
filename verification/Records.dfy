/** Sequences cut into records of one size: the headers file and the concatenated hex of a reply. */
module Records {

  ghost predicate AllSized<T(!new)>(size: nat, parts: seq<seq<T>>) {
    forall i :: 0 <= i < |parts| ==> |parts[i]| == size
  }

  function Join<T>(parts: seq<seq<T>>): seq<T> {
    if parts == [] then [] else parts[0] + Join(parts[1..])
  }

  lemma {:induction false} JoinLength<T(!new)>(size: nat, parts: seq<seq<T>>)
    requires AllSized(size, parts)
    ensures |Join(parts)| == |parts| * size
  {
    if parts != [] {
      JoinLength(size, parts[1..]);
      assert |parts| * size == (|parts| - 1) * size + size;
    }
  }

  lemma {:induction false} JoinAppend<T(!new)>(a: seq<seq<T>>, b: seq<seq<T>>)
    ensures Join(a + b) == Join(a) + Join(b)
  {
    if a == [] {
      assert a + b == b;
    } else {
      JoinAppend(a[1..], b);
      assert (a + b)[1..] == a[1..] + b;
      assert Join(a + b) == a[0] + Join(a[1..] + b);
      assert Join(a) == a[0] + Join(a[1..]);
      hide Join;
      assert a[0] + (Join(a[1..]) + Join(b)) == (a[0] + Join(a[1..])) + Join(b);
    }
  }

  lemma JoinOne<T(!new)>(a: seq<seq<T>>, x: seq<T>)
    ensures Join(a + [x]) == Join(a) + x
  {
    JoinAppend(a, [x]);
    assert Join([x]) == x + Join([]);
  }

  /** Cutting the tail off a file of whole records leaves the records before it. */
  lemma JoinTake<T(!new)>(size: nat, parts: seq<seq<T>>, n: nat)
    requires AllSized(size, parts) && n <= |parts|
    ensures n * size <= |Join(parts)| && Join(parts)[..n * size] == Join(parts[..n])
  {
    assert parts == parts[..n] + parts[n..];
    JoinAppend(parts[..n], parts[n..]);
    JoinLength(size, parts[..n]);
  }

  /** Record i sits at byte i * size. */
  lemma JoinSlice<T(!new)>(size: nat, parts: seq<seq<T>>, i: nat)
    requires AllSized(size, parts) && i < |parts|
    ensures i * size <= (i + 1) * size <= |Join(parts)|
    ensures Join(parts)[i * size..(i + 1) * size] == parts[i]
  {
    JoinTake(size, parts, i);
    JoinTake(size, parts, i + 1);
    assert parts[..i + 1] == parts[..i] + [parts[i]];
    JoinOne(parts[..i], parts[i]);
    assert (i + 1) * size == i * size + size;
    var whole := Join(parts);
    assert whole[i * size..(i + 1) * size] == whole[..(i + 1) * size][i * size..];
  }

  lemma AtLeastOnce(n: int, d: nat)
    ensures n >= 1 ==> n * d >= d
  {
    if n >= 1 {
      assert n * d == (n - 1) * d + d;
    }
  }

  lemma SameDivision(q: int, r: int, p: int, s: int, d: nat)
    requires q * d + r == p * d + s && 0 <= r < d && 0 <= s < d
    ensures q == p && r == s
  {
    AtLeastOnce(p - q, d);
    AtLeastOnce(q - p, d);
    assert (p - q) * d == p * d - q * d && (q - p) * d == q * d - p * d;
  }

  lemma DivUnique(x: int, q: int, d: nat, r: int)
    requires x == q * d + r && 0 <= r < d
    ensures x / d == q && x % d == r
  {
    var p, s := x / d, x % d;
    assert x == p * d + s;
    SameDivision(q, r, p, s, d);
  }

  lemma MultipleOf(n: nat, d: nat)
    requires d > 0
    ensures (n * d) % d == 0 && (n * d) / d == n
  {
    DivUnique(n * d, n, d, 0);
  }

  lemma ShortMultiple(q: nat, d: nat)
    requires q * d < d
    ensures q == 0
  {
    AtLeastOnce(q, d);
  }

  /** A sequence whose length is a multiple of the size is a join of whole records. */
  function Cut<T>(size: nat, s: seq<T>): seq<seq<T>>
    requires size > 0
  {
    if |s| < size then [] else [s[..size]] + Cut(size, s[size..])
  }

  lemma {:induction false} CutWhole<T(!new)>(size: nat, s: seq<T>)
    requires size > 0 && |s| % size == 0
    ensures AllSized(size, Cut(size, s)) && Join(Cut(size, s)) == s && |Cut(size, s)| == |s| / size
  {
    var q := |s| / size;
    assert |s| == q * size + |s| % size;
    if |s| < size {
      ShortMultiple(q, size);
      assert s == [];
    } else {
      DivUnique(|s| - size, q - 1, size, 0);
      CutWhole(size, s[size..]);
      var parts := Cut(size, s);
      assert parts[1..] == Cut(size, s[size..]);
      assert s == s[..size] + s[size..];
    }
  }

  /** Cutting undoes joining. */
  lemma {:induction false} CutJoin<T(!new)>(size: nat, parts: seq<seq<T>>)
    requires size > 0 && AllSized(size, parts)
    ensures Cut(size, Join(parts)) == parts
  {
    if parts != [] {
      CutJoin(size, parts[1..]);
      var s := Join(parts);
      assert s[..size] == parts[0] && s[size..] == Join(parts[1..]);
      assert parts == [parts[0]] + parts[1..];
    }
  }
}

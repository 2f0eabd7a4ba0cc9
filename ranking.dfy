/** The ranking step shared by `recuperarMaioresSaldos` and
    `recuperarMaioresMedias` (service.js): a stable sort by descending
    amount, done in place on a fresh array, then the first three records. */
module Ranking {
  import opened Ledger

  /** How many records a ranking returns (`slice(0, 3)`). */
  const TopCount: nat := 3

  /** Non-increasing by amount. */
  predicate NonIncreasing(s: seq<Entry>) {
    forall i, j | 0 <= i < j < |s| :: s[i].amount >= s[j].amount
  }

  /** Places `x` after every leading record whose amount is at least x's; on
      a non-increasing list that is after all its equals. */
  function Insert(s: seq<Entry>, x: Entry): (r: seq<Entry>)
    ensures |r| == |s| + 1
    ensures multiset(r) == multiset(s) + multiset{x}
  {
    if s == [] then [x]
    else if s[0].amount >= x.amount then
      assert s == [s[0]] + s[1..];
      [s[0]] + Insert(s[1..], x)
    else [x] + s
  }

  /** Inserting into a non-increasing list keeps it non-increasing. */
  lemma {:induction false} InsertKeepsOrder(s: seq<Entry>, x: Entry)
    requires NonIncreasing(s)
    ensures NonIncreasing(Insert(s, x))
  {
    if s != [] && s[0].amount >= x.amount {
      InsertKeepsOrder(s[1..], x);
      var t := Insert(s[1..], x);
      forall j | 0 <= j < |t|
        ensures s[0].amount >= t[j].amount
      {
        assert t[j] in multiset(t);
        if t[j] != x {
          var k :| 0 <= k < |s[1..]| && s[1..][k] == t[j];
          assert s[k + 1] == t[j];
        }
      }
    }
  }

  /** The sort `sort((a, b) => b.valor - a.valor)` as a function: each
      record in turn is inserted into the sorted list of those before it. */
  function SortDesc(s: seq<Entry>): (r: seq<Entry>)
    ensures NonIncreasing(r)
    ensures multiset(r) == multiset(s)
    ensures |r| == |s|
  {
    if s == [] then []
    else
      var p := s[..|s| - 1];
      assert s == p + [s[|s| - 1]];
      InsertKeepsOrder(SortDesc(p), s[|s| - 1]);
      Insert(SortDesc(p), s[|s| - 1])
  }

  /** The records with amount `v`, in order. */
  function WithAmount(s: seq<Entry>, v: real): seq<Entry> {
    if s == [] then [] else (if s[0].amount == v then [s[0]] else []) + WithAmount(s[1..], v)
  }

  lemma {:induction false} WithAmountConcat(s: seq<Entry>, t: seq<Entry>, v: real)
    ensures WithAmount(s + t, v) == WithAmount(s, v) + WithAmount(t, v)
  {
    if s == [] {
      assert s + t == t;
    } else {
      var head := if s[0].amount == v then [s[0]] else [];
      assert (s + t)[0] == s[0];
      assert (s + t)[1..] == s[1..] + t;
      WithAmountConcat(s[1..], t, v);
      calc {
        WithAmount(s + t, v);
        head + WithAmount(s[1..] + t, v);
        head + (WithAmount(s[1..], v) + WithAmount(t, v));
        (head + WithAmount(s[1..], v)) + WithAmount(t, v);
      }
    }
  }

  /** A non-increasing list that starts below `v` has no record of amount `v`. */
  lemma {:induction false} WithAmountOfLower(s: seq<Entry>, v: real)
    requires NonIncreasing(s)
    requires s != [] && s[0].amount < v
    ensures WithAmount(s, v) == []
  {
    if |s| > 1 {
      WithAmountOfLower(s[1..], v);
    }
  }

  /** Inserting keeps the order among equal amounts: a record equal to the
      inserted one stays in front of it. */
  lemma {:induction false} InsertKeepsTies(s: seq<Entry>, x: Entry, v: real)
    requires NonIncreasing(s)
    ensures WithAmount(Insert(s, x), v) == WithAmount(s, v) + WithAmount([x], v)
  {
    if s == [] {
    } else if s[0].amount >= x.amount {
      assert NonIncreasing(s[1..]);
      InsertKeepsTies(s[1..], x, v);
      assert Insert(s, x) == [s[0]] + Insert(s[1..], x);
      assert s == [s[0]] + s[1..];
      TiesBehindHead(s[0], Insert(s[1..], x), s[1..], x, v);
    } else {
      TiesInFront(s, x, v);
    }
  }

  /** The step of `InsertKeepsTies` where `x` goes past the head `y`:
      putting `y` in front of both sides keeps the selected records equal. */
  lemma TiesBehindHead(y: Entry, rest: seq<Entry>, tail: seq<Entry>, x: Entry, v: real)
    requires WithAmount(rest, v) == WithAmount(tail, v) + WithAmount([x], v)
    ensures WithAmount([y] + rest, v) == WithAmount([y] + tail, v) + WithAmount([x], v)
  {
    var head := if y.amount == v then [y] else [];
    WithAmountCons(y, rest, v);
    WithAmountCons(y, tail, v);
    assert head + (WithAmount(tail, v) + WithAmount([x], v)) == (head + WithAmount(tail, v)) + WithAmount([x], v);
  }

  /** Selecting by amount, one record at a time. */
  lemma WithAmountCons(y: Entry, t: seq<Entry>, v: real)
    ensures WithAmount([y] + t, v) == (if y.amount == v then [y] else []) + WithAmount(t, v)
  {
    assert ([y] + t)[1..] == t;
  }

  /** The step of `InsertKeepsTies` where `x` goes in front of a list that
      is all below it. */
  lemma TiesInFront(s: seq<Entry>, x: Entry, v: real)
    requires NonIncreasing(s)
    requires s != [] && s[0].amount < x.amount
    ensures WithAmount(Insert(s, x), v) == WithAmount(s, v) + WithAmount([x], v)
  {
    var single := if x.amount == v then [x] else [];
    assert WithAmount([x], v) == single by {
      assert [x][1..] == [];
    }
    assert Insert(s, x) == [x] + s;
    assert ([x] + s)[1..] == s;
    if x.amount == v {
      WithAmountOfLower(s, v);
    }
    calc {
      WithAmount(Insert(s, x), v);
      single + WithAmount(s, v);
      WithAmount(s, v) + single;
    }
  }

  /** The sort is stable: for every amount, the records carrying it come out
      in the order they went in. */
  lemma {:induction false} SortDescIsStable(s: seq<Entry>, v: real)
    ensures WithAmount(SortDesc(s), v) == WithAmount(s, v)
  {
    if s != [] {
      var p, y := s[..|s| - 1], s[|s| - 1];
      assert s == p + [y];
      SortDescIsStable(p, v);
      InsertKeepsTies(SortDesc(p), y, v);
      WithAmountConcat(p, [y], v);
    }
  }

  lemma {:induction false} InsertKeepsDistinctCpfs(s: seq<Entry>, x: Entry)
    requires DistinctCpfs(s)
    requires forall y | y in s :: y.cpf != x.cpf
    ensures DistinctCpfs(Insert(s, x))
  {
    if s != [] && s[0].amount >= x.amount {
      var t := Insert(s[1..], x);
      InsertKeepsDistinctCpfs(s[1..], x);
      forall z | z in t ensures z.cpf != s[0].cpf {
        InInsert(s[1..], x, z);
        if z != x {
          var k :| 0 <= k < |s[1..]| && s[1..][k] == z;
          assert s[k + 1] == z;
        }
      }
      assert Insert(s, x) == [s[0]] + t;
      ConsKeepsDistinctCpfs(s[0], t);
    } else if s != [] {
      assert Insert(s, x) == [x] + s;
      ConsKeepsDistinctCpfs(x, s);
    }
  }

  /** A record of an insertion is the inserted record or one of the list. */
  lemma InInsert(s: seq<Entry>, x: Entry, z: Entry)
    requires z in Insert(s, x)
    ensures z == x || z in s
  {
    assert z in multiset(Insert(s, x));
  }

  /** Putting a record in front of a list keeps the identifiers distinct
      when its own is new. */
  lemma ConsKeepsDistinctCpfs(y: Entry, t: seq<Entry>)
    requires DistinctCpfs(t)
    requires forall z | z in t :: z.cpf != y.cpf
    ensures DistinctCpfs([y] + t)
  {
    var u := [y] + t;
    forall i, j | 0 <= i < j < |u| ensures u[i].cpf != u[j].cpf {
      assert u[j] == t[j - 1];
      if i > 0 {
        assert u[i] == t[i - 1];
      }
    }
  }

  /** Sorting a list with one record per identifier keeps it so. */
  lemma {:induction false} SortDescKeepsDistinctCpfs(s: seq<Entry>)
    requires DistinctCpfs(s)
    ensures DistinctCpfs(SortDesc(s))
  {
    if s != [] {
      var p, y := s[..|s| - 1], s[|s| - 1];
      assert s == p + [y];
      SortDescKeepsDistinctCpfs(p);
      forall z | z in SortDesc(p)
        ensures z.cpf != y.cpf
      {
        assert z in multiset(SortDesc(p));
        var k :| 0 <= k < |p| && p[k] == z;
      }
      InsertKeepsDistinctCpfs(SortDesc(p), y);
    }
  }

  /** Where `Insert` puts `x` in a non-increasing list: after the `k`
      records not below it. */
  lemma {:induction false} InsertAt(s: seq<Entry>, x: Entry, k: nat)
    requires k <= |s|
    requires forall m | 0 <= m < k :: s[m].amount >= x.amount
    requires forall m | k <= m < |s| :: s[m].amount < x.amount
    ensures Insert(s, x) == s[..k] + [x] + s[k..]
  {
    if k > 0 {
      var t := s[1..];
      TailBounds(s, x, k);
      InsertAt(t, x, k - 1);
      assert Insert(s, x) == [s[0]] + Insert(t, x);
      ConsSplit(s, x, k);
    } else if s != [] {
      assert s[0].amount < x.amount;
      assert s[..0] + [x] + s[0..] == [x] + s;
    }
  }

  /** The bounds of `InsertAt`, moved one place along the list. */
  lemma TailBounds(s: seq<Entry>, x: Entry, k: nat)
    requires 0 < k <= |s|
    requires forall m | 0 <= m < k :: s[m].amount >= x.amount
    requires forall m | k <= m < |s| :: s[m].amount < x.amount
    ensures forall m | 0 <= m < k - 1 :: s[1..][m].amount >= x.amount
    ensures forall m | k - 1 <= m < |s| - 1 :: s[1..][m].amount < x.amount
  {
    forall m | 0 <= m < k - 1 ensures s[1..][m].amount >= x.amount {
      assert s[1..][m] == s[m + 1];
    }
    forall m | k - 1 <= m < |s| - 1 ensures s[1..][m].amount < x.amount {
      assert s[1..][m] == s[m + 1];
    }
  }

  /** Splitting the tail at `k - 1` and putting the head back is splitting
      the list at `k`. */
  lemma ConsSplit(s: seq<Entry>, x: Entry, k: nat)
    requires 0 < k <= |s|
    ensures [s[0]] + (s[1..][..k - 1] + [x] + s[1..][k - 1..]) == s[..k] + [x] + s[k..]
  {
    assert s[1..][..k - 1] == s[1..k];
    assert s[1..][k - 1..] == s[k..];
    assert s[..k] == [s[0]] + s[1..k];
  }

  /** What the shifting loop leaves behind is the insertion: `after` holds
      the first `k` records of `s`, then `x`, then the rest of `s`, and the
      loop stopped at a record not below `x`, having passed only records
      below it. */
  lemma ShiftedIsInsert(s: seq<Entry>, x: Entry, k: nat, after: seq<Entry>)
    requires NonIncreasing(s)
    requires k <= |s| && |after| == |s| + 1
    requires k > 0 ==> s[k - 1].amount >= x.amount
    requires forall m | k <= m < |s| :: s[m].amount < x.amount
    requires forall m | 0 <= m < k :: after[m] == s[m]
    requires after[k] == x
    requires forall m | k < m <= |s| :: after[m] == s[m - 1]
    ensures after == Insert(s, x)
  {
    assert forall m | 0 <= m < k :: s[m].amount >= x.amount by {
      forall m | 0 <= m < k ensures s[m].amount >= x.amount {
        assert s[m].amount >= s[k - 1].amount;
      }
    }
    InsertAt(s, x, k);
    Spliced(s, x, k, after);
  }

  /** A list that agrees with `s` before `k`, holds `x` at `k` and agrees
      with `s` shifted by one after `k` is `s` with `x` spliced in at `k`. */
  lemma Spliced(s: seq<Entry>, x: Entry, k: nat, after: seq<Entry>)
    requires k <= |s| && |after| == |s| + 1
    requires forall m | 0 <= m < k :: after[m] == s[m]
    requires after[k] == x
    requires forall m | k < m <= |s| :: after[m] == s[m - 1]
    ensures after == s[..k] + [x] + s[k..]
  {
    var spliced := s[..k] + [x] + s[k..];
    forall m | 0 <= m < |after| ensures after[m] == spliced[m] {
      if m > k {
        assert spliced[m] == s[k..][m - k - 1];
      }
    }
  }

  /** The state of the shifting loop of `InsertInPlace` over the array
      contents `cur`, which started as `orig`: the records before `j` are
      untouched, those of `orig[j..i]` have moved one place right and are
      all below the record `orig[i]` being inserted, and everything after
      `i` is untouched. */
  ghost predicate Shifting(cur: seq<Entry>, orig: seq<Entry>, i: nat, j: nat) {
    && |cur| == |orig|
    && j <= i < |orig|
    && (forall m | 0 <= m < j :: cur[m] == orig[m])
    && (forall m | j < m <= i :: cur[m] == orig[m - 1])
    && (forall m | j <= m < i :: orig[m].amount < orig[i].amount)
    && (forall m | i < m < |cur| :: cur[m] == orig[m])
  }

  /** One pass of the shifting loop: the record left of the gap is below
      the inserted one and moves right into the gap. */
  lemma ShiftStep(cur: seq<Entry>, orig: seq<Entry>, i: nat, j: nat)
    requires Shifting(cur, orig, i, j)
    requires 0 < j && cur[j - 1].amount < orig[i].amount
    ensures Shifting(cur[j := cur[j - 1]], orig, i, j - 1)
  {
    assert cur[j - 1] == orig[j - 1];
  }

  /** The end of the shifting loop: writing the inserted record into the gap
      gives the insertion of it into the sorted prefix, and the rest of the
      array is as before. */
  lemma ShiftDone(cur: seq<Entry>, orig: seq<Entry>, i: nat, j: nat, after: seq<Entry>)
    requires Shifting(cur, orig, i, j)
    requires NonIncreasing(orig[..i])
    requires j > 0 ==> cur[j - 1].amount >= orig[i].amount
    requires after == cur[j := orig[i]]
    ensures after[..i + 1] == Insert(orig[..i], orig[i])
    ensures after[i + 1..] == orig[i + 1..]
  {
    var sorted := orig[..i];
    forall m | 0 <= m < j ensures after[m] == sorted[m] {
      assert after[m] == cur[m];
    }
    forall m | j < m <= i ensures after[m] == sorted[m - 1] {
      assert after[m] == cur[m];
    }
    forall m | j <= m < i ensures sorted[m].amount < orig[i].amount {
      assert sorted[m] == orig[m];
    }
    if j > 0 {
      assert sorted[j - 1] == cur[j - 1];
    }
    ShiftedIsInsert(sorted, orig[i], j, after[..i + 1]);
    forall m | i < m < |after| ensures after[m] == orig[m] {
      assert after[m] == cur[m];
    }
  }

  /** One step of the in-place insertion sort: `a[i]` moves left past the
      records of `a[..i]` with a smaller amount, which shift right by one. */
  method InsertInPlace(a: array<Entry>, i: nat)
    requires i < a.Length
    requires NonIncreasing(a[..i])
    modifies a
    ensures a[..i + 1] == Insert(old(a[..i]), old(a[i]))
    ensures a[i + 1..] == old(a[i + 1..])
  {
    ghost var orig := a[..];
    var x := a[i];
    var j := i;
    while j > 0 && a[j - 1].amount < x.amount
      invariant Shifting(a[..], orig, i, j)
    {
      ghost var before := a[..];
      a[j] := a[j - 1];
      assert a[..] == before[j := before[j - 1]];
      ShiftStep(before, orig, i, j);
      j := j - 1;
    }
    ghost var before := a[..];
    a[j] := x;
    assert a[..] == before[j := orig[i]];
    assert orig[..i] == old(a[..i]);
    ShiftDone(before, orig, i, j, a[..]);
  }

  /** Sorting one more record of a list inserts it into the sorted prefix. */
  lemma SortDescStep(s: seq<Entry>, i: nat)
    requires i < |s|
    ensures SortDesc(s[..i + 1]) == Insert(SortDesc(s[..i]), s[i])
  {
    assert s[..i + 1][..i] == s[..i];
  }

  /** The in-place insertion sort: the array ends up holding `SortDesc` of
      what it held. */
  method SortByAmountDesc(a: array<Entry>)
    modifies a
    ensures a[..] == SortDesc(old(a[..]))
  {
    ghost var original := a[..];
    for i := 0 to a.Length
      invariant a[..i] == SortDesc(original[..i])
      invariant forall m | i <= m < a.Length :: a[m] == original[m]
    {
      InsertInPlace(a, i);
      SortDescStep(original, i);
    }
    assert a[..] == a[..a.Length];
    assert original == original[..a.Length];
  }

  /** Every record of the sorted list comes from the input. */
  lemma SortedFromInput(s: seq<Entry>, i: nat)
    requires i < |s|
    ensures SortDesc(s)[i] in s
  {
    assert SortDesc(s)[i] in multiset(SortDesc(s));
  }

  /** A record of the input that is not among the first `n` sorted ones is
      not above the `n`-th. */
  lemma BelowTheCut(s: seq<Entry>, sorted: seq<Entry>, n: nat, x: Entry)
    requires NonIncreasing(sorted) && multiset(sorted) == multiset(s)
    requires 0 < n <= |sorted|
    requires x in s && x !in sorted[..n]
    ensures x.amount <= sorted[n - 1].amount
  {
    assert x in multiset(sorted);
    forall m | 0 <= m < n ensures sorted[m] != x {
      assert sorted[..n][m] == sorted[m];
    }
    var k :| 0 <= k < |sorted| && sorted[k] == x;
  }

  /** The first `n` records of the sorted list are records of the input. */
  lemma SortedPrefixFromInput(s: seq<Entry>, n: nat)
    requires n <= |s|
    ensures forall i | 0 <= i < n :: SortDesc(s)[..n][i] in s
  {
    forall i | 0 <= i < n ensures SortDesc(s)[..n][i] in s {
      SortedFromInput(s, i);
    }
  }

  /** A prefix of a non-increasing list is non-increasing. */
  lemma PrefixKeepsOrder(s: seq<Entry>, n: nat)
    requires n <= |s| && NonIncreasing(s)
    ensures NonIncreasing(s[..n])
  {
    forall i, j | 0 <= i < j < n ensures s[..n][i].amount >= s[..n][j].amount {
      assert s[..n][i] == s[i] && s[..n][j] == s[j];
    }
  }

  /** A prefix of a list with distinct identifiers has distinct identifiers. */
  lemma PrefixKeepsDistinctCpfs(s: seq<Entry>, n: nat)
    requires n <= |s| && DistinctCpfs(s)
    ensures DistinctCpfs(s[..n])
  {
    forall i, j | 0 <= i < j < n ensures s[..n][i].cpf != s[..n][j].cpf {
      assert s[..n][i] == s[i] && s[..n][j] == s[j];
    }
  }

  /** `sort(...).slice(0, 3)`: the first three records of the stable sort,
      or all of them when there are fewer. */
  function Top(s: seq<Entry>): (t: seq<Entry>)
    ensures |t| == if |s| < TopCount then |s| else TopCount
    ensures NonIncreasing(t)
    ensures forall i | 0 <= i < |t| :: t[i] in s
    ensures forall x | x in s && x !in t :: t != [] && x.amount <= t[|t| - 1].amount
    ensures DistinctCpfs(s) ==> DistinctCpfs(t)
  {
    var n := if |s| < TopCount then |s| else TopCount;
    var t := SortDesc(s)[..n];
    SortedPrefixFacts(s, n, t);
    t
  }

  /** Which tied records survive the cut: for every amount, the kept
      records of that amount are the first ones of it in input order. */
  lemma TopKeepsTies(s: seq<Entry>, v: real)
    ensures exists rest :: WithAmount(s, v) == WithAmount(Top(s), v) + rest
  {
    var sorted := SortDesc(s);
    var n := if |s| < TopCount then |s| else TopCount;
    SortDescIsStable(s, v);
    assert Top(s) == sorted[..n];
    TiesOfPrefix(s, sorted, n, v);
    assert WithAmount(s, v) == WithAmount(Top(s), v) + WithAmount(sorted[n..], v);
  }

  /** Cutting a list whose records of amount `v` are those of `s`, in order,
      splits them into the ones kept and the ones cut off. */
  lemma TiesOfPrefix(s: seq<Entry>, sorted: seq<Entry>, n: nat, v: real)
    requires n <= |sorted|
    requires WithAmount(sorted, v) == WithAmount(s, v)
    ensures WithAmount(s, v) == WithAmount(sorted[..n], v) + WithAmount(sorted[n..], v)
  {
    assert sorted == sorted[..n] + sorted[n..];
    WithAmountConcat(sorted[..n], sorted[n..], v);
  }

  /** What the first `n` sorted records `t` promise: they are in order,
      come from the input, are no smaller than any record left out, and
      keep identifiers distinct. */
  lemma SortedPrefixFacts(s: seq<Entry>, n: nat, t: seq<Entry>)
    requires n <= |s|
    requires s != [] ==> n > 0
    requires t == SortDesc(s)[..n]
    ensures NonIncreasing(t)
    ensures forall i | 0 <= i < |t| :: t[i] in s
    ensures forall x | x in s && x !in t :: t != [] && x.amount <= t[|t| - 1].amount
    ensures DistinctCpfs(s) ==> DistinctCpfs(t)
  {
    SortedPrefixFromInput(s, n);
    forall x | x in s && x !in t ensures t != [] && x.amount <= t[|t| - 1].amount {
      BelowTheCut(s, SortDesc(s), n, x);
      assert t[|t| - 1] == SortDesc(s)[n - 1];
    }
    PrefixKeepsOrder(SortDesc(s), n);
    if DistinctCpfs(s) {
      SortDescKeepsDistinctCpfs(s);
      PrefixKeepsDistinctCpfs(SortDesc(s), n);
    }
  }

  /** The `.sort(...).slice(0, 3)` tail shared by both rankings: the
      records are copied into a fresh array, sorted there by descending
      amount, stably, and the first three are kept. */
  method RankTop(records: seq<Entry>) returns (top: seq<Entry>)
    ensures top == Top(records)
  {
    var a := new Entry[|records|](i requires 0 <= i < |records| => records[i]);
    assert a[..] == records;
    SortByAmountDesc(a);
    top := a[..if a.Length < TopCount then a.Length else TopCount];
  }
}

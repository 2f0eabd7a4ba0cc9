/** Ledger entries `{cpf, valor}` and the per-identifier quantities that
    the aggregations of service.js compute: the amounts of one identifier,
    their sum and count, the identifiers in order of first occurrence, the
    balance list and the average list. */
module Ledger {

  /** One ledger entry; the output records have the same shape. */
  datatype Entry = Entry(cpf: string, amount: real)

  /** Some entry carries the identifier `cpf`. */
  predicate Mentions(entries: seq<Entry>, cpf: string) {
    exists i | 0 <= i < |entries| :: entries[i].cpf == cpf
  }

  /** The sum of a list of amounts. */
  function Sum(s: seq<real>): real {
    if s == [] then 0.0 else Sum(s[..|s| - 1]) + s[|s| - 1]
  }

  /** The sum of the amounts of a list of records: `Sum` of their amounts,
      written over the records themselves so that appending a record
      unfolds it in one step. */
  function Total(records: seq<Entry>): real {
    if records == [] then 0.0 else Total(records[..|records| - 1]) + records[|records| - 1].amount
  }

  /** The amounts of the entries for `cpf`, in input order
      (`filter(lanc => lanc.cpf === cpf).map(lanc => lanc.valor)`). */
  function AmountsFor(entries: seq<Entry>, cpf: string): (amounts: seq<real>)
    ensures |amounts| <= |entries|
    ensures amounts == [] <==> !Mentions(entries, cpf)
  {
    if entries == [] then []
    else
      var last := entries[|entries| - 1];
      var prefix := entries[..|entries| - 1];
      assert entries == prefix + [last];
      AmountsFor(prefix, cpf) + (if last.cpf == cpf then [last.amount] else [])
  }

  /** The balance of one identifier: what `saldos[cpf]` (and `medias[cpf]`)
      accumulates. */
  function SumFor(entries: seq<Entry>, cpf: string): (total: real)
    ensures !Mentions(entries, cpf) ==> total == 0.0
  {
    Sum(AmountsFor(entries, cpf))
  }

  /** The number of entries of one identifier: what `contagens[cpf]`
      accumulates. */
  function CountFor(entries: seq<Entry>, cpf: string): (n: nat)
    ensures n <= |entries|
    ensures n == 0 <==> !Mentions(entries, cpf)
  {
    |AmountsFor(entries, cpf)|
  }

  /** No key occurs twice in a list of dictionary keys. `DistinctCpfs` below
      says the same of the identifiers of a list of records; it is stated
      over the records so that its quantifier triggers on their fields. */
  predicate Distinct(keys: seq<string>) {
    forall i, j | 0 <= i < j < |keys| :: keys[i] != keys[j]
  }

  /** No identifier occurs twice in a list of records. */
  predicate DistinctCpfs(s: seq<Entry>) {
    forall i, j | 0 <= i < j < |s| :: s[i].cpf != s[j].cpf
  }

  /** The identifiers of the entries, each once, in the order they first
      occur: the key order of an object filled by `obj[cpf] = ...` in input
      order. */
  function FirstSeen(entries: seq<Entry>): (keys: seq<string>)
    ensures Distinct(keys)
    ensures forall k :: k in keys <==> Mentions(entries, k)
  {
    if entries == [] then []
    else
      var prefix := entries[..|entries| - 1];
      var keys := FirstSeen(prefix);
      var c := entries[|entries| - 1].cpf;
      assert forall k :: Mentions(entries, k) <==> Mentions(prefix, k) || k == c;
      if c in keys then keys else keys + [c]
  }

  /** The position of the first entry of `cpf`. */
  function FirstIndex(entries: seq<Entry>, cpf: string): (i: nat)
    requires Mentions(entries, cpf)
    ensures i < |entries| && entries[i].cpf == cpf
    ensures forall j | 0 <= j < i :: entries[j].cpf != cpf
  {
    if entries[0].cpf == cpf then 0
    else
      var w :| 0 <= w < |entries| && entries[w].cpf == cpf;
      assert entries[1..][w - 1].cpf == cpf;
      1 + FirstIndex(entries[1..], cpf)
  }

  /** One record per identifier of `cpfs`, in that order, holding the
      identifier's balance. */
  function BalancesOf(entries: seq<Entry>, cpfs: seq<string>): (records: seq<Entry>)
    ensures |records| == |cpfs|
    ensures forall i {:trigger records[i]} | 0 <= i < |cpfs| :: records[i] == Entry(cpfs[i], SumFor(entries, cpfs[i]))
  {
    if cpfs == [] then []
    else
      var c := cpfs[|cpfs| - 1];
      BalancesOf(entries, cpfs[..|cpfs| - 1]) + [Entry(c, SumFor(entries, c))]
  }

  /** The balance list: one record per distinct identifier, in order of
      first occurrence. */
  function Balances(entries: seq<Entry>): (records: seq<Entry>)
    ensures |records| == |FirstSeen(entries)|
    ensures DistinctCpfs(records)
    ensures forall i | 0 <= i < |records| ::
              && records[i].cpf == FirstSeen(entries)[i]
              && Mentions(entries, records[i].cpf)
              && records[i].amount == SumFor(entries, records[i].cpf)
  {
    var keys := FirstSeen(entries);
    var records := BalancesOf(entries, keys);
    assert forall i | 0 <= i < |keys| :: keys[i] in keys;
    records
  }

  /** The average list: one record per distinct identifier, in order of
      first occurrence, holding the mean of its amounts. */
  function Averages(entries: seq<Entry>): (records: seq<Entry>)
    ensures |records| == |FirstSeen(entries)|
    ensures forall i | 0 <= i < |records| ::
              && records[i].cpf == FirstSeen(entries)[i]
              && CountFor(entries, records[i].cpf) >= 1
              && records[i].amount == SumFor(entries, records[i].cpf) / (CountFor(entries, records[i].cpf) as real)
  {
    var keys := FirstSeen(entries);
    seq(|keys|, i requires 0 <= i < |keys| =>
      assert keys[i] in keys;
      Entry(keys[i], SumFor(entries, keys[i]) / (CountFor(entries, keys[i]) as real)))
  }

  /** Appending an entry adds its amount to its own identifier's balance and
      to no other. */
  lemma SumForAppend(entries: seq<Entry>, x: Entry, cpf: string)
    ensures SumFor(entries + [x], cpf) == SumFor(entries, cpf) + (if x.cpf == cpf then x.amount else 0.0)
    ensures CountFor(entries + [x], cpf) == CountFor(entries, cpf) + (if x.cpf == cpf then 1 else 0)
  {
    assert (entries + [x])[..|entries|] == entries;
    var a := AmountsFor(entries, cpf);
    if x.cpf == cpf {
      assert (a + [x.amount])[..|a|] == a;
    } else {
      assert a + [] == a;
    }
  }

  lemma {:induction false} TotalOfBalancesOfAppend(entries: seq<Entry>, x: Entry, cpfs: seq<string>)
    requires Distinct(cpfs)
    ensures Total(BalancesOf(entries + [x], cpfs))
            == Total(BalancesOf(entries, cpfs)) + (if x.cpf in cpfs then x.amount else 0.0)
  {
    if cpfs != [] {
      var cs, c := cpfs[..|cpfs| - 1], cpfs[|cpfs| - 1];
      assert cpfs == cs + [c];
      TotalOfBalancesOfAppend(entries, x, cs);
      SumForAppend(entries, x, c);
      var before, after := BalancesOf(entries, cs), BalancesOf(entries + [x], cs);
      assert (before + [Entry(c, SumFor(entries, c))])[..|before|] == before;
      assert (after + [Entry(c, SumFor(entries + [x], c))])[..|after|] == after;
      assert x.cpf in cpfs <==> x.cpf in cs || x.cpf == c;
      assert x.cpf == c ==> x.cpf !in cs;
    }
  }

  /** Appending an entry of an identifier not seen before adds a record
      holding exactly that entry's amount. */
  lemma TotalOfBalancesWithNewKey(prefix: seq<Entry>, x: Entry)
    requires x.cpf !in FirstSeen(prefix)
    ensures Total(Balances(prefix + [x])) == Total(BalancesOf(prefix + [x], FirstSeen(prefix))) + x.amount
  {
    var entries := prefix + [x];
    var keys := FirstSeen(prefix);
    var all := keys + [x.cpf];
    assert FirstSeen(entries) == all by {
      assert entries[..|entries| - 1] == prefix;
    }
    assert SumFor(entries, x.cpf) == x.amount by {
      assert !Mentions(prefix, x.cpf) && SumFor(prefix, x.cpf) == 0.0;
      SumForAppend(prefix, x, x.cpf);
    }
    var rest := BalancesOf(entries, keys);
    assert Balances(entries) == BalancesOf(entries, all);
    assert BalancesOf(entries, all) == rest + [Entry(x.cpf, x.amount)] by {
      assert all[..|keys|] == keys;
    }
    TotalOfSnoc(rest, Entry(x.cpf, x.amount));
  }

  /** One more record adds its amount to the total. */
  lemma TotalOfSnoc(records: seq<Entry>, r: Entry)
    ensures Total(records + [r]) == Total(records) + r.amount
  {
    assert (records + [r])[..|records|] == records;
  }

  /** Grouping loses no money: the balances add up to the total of the
      entries. */
  lemma {:induction false} BalancesKeepTotal(entries: seq<Entry>)
    ensures Total(Balances(entries)) == Total(entries)
  {
    if entries != [] {
      var prefix, x := entries[..|entries| - 1], entries[|entries| - 1];
      assert entries == prefix + [x];
      assert Total(entries) == Total(prefix) + x.amount;
      BalancesKeepTotal(prefix);
      TotalOfBalancesStep(prefix, x);
    }
  }

  /** One more entry raises the total of the balances by its amount. */
  lemma TotalOfBalancesStep(prefix: seq<Entry>, x: Entry)
    ensures Total(Balances(prefix + [x])) == Total(Balances(prefix)) + x.amount
  {
    var keys := FirstSeen(prefix);
    TotalOfBalancesOfAppend(prefix, x, keys);
    if x.cpf !in keys {
      TotalOfBalancesWithNewKey(prefix, x);
    } else {
      assert (prefix + [x])[..|prefix|] == prefix;
      assert FirstSeen(prefix + [x]) == keys;
    }
  }

  /** Appending an entry does not move the first entry of an identifier
      already present. */
  lemma FirstIndexOfExtension(prefix: seq<Entry>, x: Entry, cpf: string)
    requires Mentions(prefix, cpf)
    ensures Mentions(prefix + [x], cpf)
    ensures FirstIndex(prefix + [x], cpf) == FirstIndex(prefix, cpf)
  {
    var p := FirstIndex(prefix, cpf);
    assert (prefix + [x])[p] == prefix[p];
  }

  lemma RemoveAt(b: seq<Entry>, j: nat)
    requires j < |b|
    ensures b == b[..j] + ([b[j]] + b[j + 1..])
    ensures multiset(b[..j] + b[j + 1..]) == multiset(b) - multiset{b[j]}
  {
    assert b == b[..j] + ([b[j]] + b[j + 1..]);
  }

  /** Every identifier of `keys` has entries, and an earlier identifier's
      first entry comes before a later one's. */
  predicate InFirstOccurrenceOrder(entries: seq<Entry>, keys: seq<string>) {
    && (forall i | 0 <= i < |keys| :: Mentions(entries, keys[i]))
    && forall i, j | 0 <= i < j < |keys| ::
         FirstIndex(entries, keys[i]) < FirstIndex(entries, keys[j])
  }

  /** The identifiers come out in the order of their first entries. */
  lemma {:induction false} FirstSeenIsInFirstOccurrenceOrder(entries: seq<Entry>)
    ensures InFirstOccurrenceOrder(entries, FirstSeen(entries))
  {
    if entries != [] {
      var prefix, x := entries[..|entries| - 1], entries[|entries| - 1];
      assert entries == prefix + [x];
      FirstSeenIsInFirstOccurrenceOrder(prefix);
      var keys := FirstSeen(prefix);
      if x.cpf in keys {
        assert FirstSeen(entries) == keys;
        forall i, j | 0 <= i < j < |keys|
          ensures FirstIndex(entries, keys[i]) < FirstIndex(entries, keys[j])
        {
          assert keys[i] in keys && keys[j] in keys;
          FirstIndexOfExtension(prefix, x, keys[i]);
          FirstIndexOfExtension(prefix, x, keys[j]);
          assert FirstIndex(prefix, keys[i]) < FirstIndex(prefix, keys[j]);
        }
      } else {
        var keys' := keys + [x.cpf];
        assert FirstSeen(entries) == keys';
        forall i, j | 0 <= i < j < |keys'|
          ensures FirstIndex(entries, keys'[i]) < FirstIndex(entries, keys'[j])
        {
          assert keys'[i] == keys[i] && keys[i] in keys;
          FirstIndexOfExtension(prefix, x, keys[i]);
          if j < |keys| {
            assert keys'[j] == keys[j] && keys[j] in keys;
            FirstIndexOfExtension(prefix, x, keys[j]);
          } else {
            assert keys'[j] == x.cpf;
            assert FirstIndex(entries, x.cpf) == |prefix|;
          }
        }
      }
    }
  }

  lemma {:induction false} AmountsForConcat(a: seq<Entry>, b: seq<Entry>, cpf: string)
    ensures AmountsFor(a + b, cpf) == AmountsFor(a, cpf) + AmountsFor(b, cpf)
  {
    if b == [] {
      assert a + b == a;
    } else {
      var b', y := b[..|b| - 1], b[|b| - 1];
      AmountsForConcat(a, b', cpf);
      assert b == b' + [y];
      AmountsForConcatStep(a, b', y, cpf);
    }
  }

  /** The inductive step of `AmountsForConcat`: one more entry at the end of
      the second part. */
  lemma AmountsForConcatStep(a: seq<Entry>, b: seq<Entry>, y: Entry, cpf: string)
    requires AmountsFor(a + b, cpf) == AmountsFor(a, cpf) + AmountsFor(b, cpf)
    ensures AmountsFor(a + (b + [y]), cpf) == AmountsFor(a, cpf) + AmountsFor(b + [y], cpf)
  {
    assert a + (b + [y]) == (a + b) + [y];
    AmountsForSnoc(a + b, y, cpf);
    AmountsForSnoc(b, y, cpf);
    AppendAssociates(AmountsFor(a, cpf), AmountsFor(b, cpf), if y.cpf == cpf then [y.amount] else []);
  }

  /** Concatenation of amount lists is associative. */
  lemma AppendAssociates(l: seq<real>, m: seq<real>, r: seq<real>)
    ensures (l + m) + r == l + (m + r)
  {
  }

  /** One more entry adds its amount to the selection when it carries the
      identifier. */
  lemma AmountsForSnoc(p: seq<Entry>, y: Entry, cpf: string)
    ensures AmountsFor(p + [y], cpf) == AmountsFor(p, cpf) + (if y.cpf == cpf then [y.amount] else [])
  {
    assert (p + [y])[..|p|] == p;
  }

  lemma {:induction false} SumConcat(s: seq<real>, t: seq<real>)
    ensures Sum(s + t) == Sum(s) + Sum(t)
  {
    if t == [] {
      assert s + t == s;
    } else {
      SumConcat(s, t[..|t| - 1]);
      assert (s + t)[..|s + t| - 1] == s + t[..|t| - 1];
    }
  }

  /** Taking one entry out of the middle of a list removes its amount from
      its identifier's balance, as taking it off the end does. */
  lemma SumForRemoveAt(b: seq<Entry>, j: nat, cpf: string)
    requires j < |b|
    ensures SumFor(b, cpf) == SumFor(b[..j] + b[j + 1..], cpf) + (if b[j].cpf == cpf then b[j].amount else 0.0)
    ensures CountFor(b, cpf) == CountFor(b[..j] + b[j + 1..], cpf) + (if b[j].cpf == cpf then 1 else 0)
  {
    var left, x, right := b[..j], b[j], b[j + 1..];
    RemoveAt(b, j);
    var l, m, r := AmountsFor(left, cpf), AmountsFor([x], cpf), AmountsFor(right, cpf);
    assert Sum(m) == (if x.cpf == cpf then x.amount else 0.0) && |m| == (if x.cpf == cpf then 1 else 0) by {
      SumForAppend([], x, cpf);
      assert [] + [x] == [x];
    }
    assert AmountsFor(b, cpf) == l + (m + r) by {
      AmountsForConcat(left, [x] + right, cpf);
      AmountsForConcat([x], right, cpf);
    }
    assert AmountsFor(left + right, cpf) == l + r by {
      AmountsForConcat(left, right, cpf);
    }
    SumConcat(l, m + r);
    SumConcat(m, r);
    SumConcat(l, r);
  }

  /** Taking the same record off two permutations of each other leaves two
      permutations of each other. */
  lemma RemoveMatching(a: seq<Entry>, x: Entry, b: seq<Entry>, j: nat)
    requires j < |b| && b[j] == x
    requires multiset(a + [x]) == multiset(b)
    ensures multiset(a) == multiset(b[..j] + b[j + 1..])
  {
    RemoveAt(b, j);
    assert multiset(a + [x]) == multiset(a) + multiset{x};
  }

  /** Reordering the entries changes no identifier's balance or count. */
  lemma {:induction false} SumAndCountIgnoreOrder(a: seq<Entry>, b: seq<Entry>, cpf: string)
    requires multiset(a) == multiset(b)
    ensures SumFor(a, cpf) == SumFor(b, cpf)
    ensures CountFor(a, cpf) == CountFor(b, cpf)
    decreases |a|
  {
    if a == [] {
      assert |multiset(b)| == 0;
    } else {
      var a', x := a[..|a| - 1], a[|a| - 1];
      assert a == a' + [x];
      assert x in multiset(b);
      var j :| 0 <= j < |b| && b[j] == x;
      var b' := b[..j] + b[j + 1..];
      RemoveMatching(a', x, b, j);
      SumAndCountIgnoreOrder(a', b', cpf);
      SumForAppend(a', x, cpf);
      SumForRemoveAt(b, j, cpf);
    }
  }

  /** A record is in the balance list exactly when its identifier has
      entries and its amount is that identifier's balance. */
  lemma InBalances(entries: seq<Entry>, r: Entry)
    ensures r in Balances(entries) <==> Mentions(entries, r.cpf) && r.amount == SumFor(entries, r.cpf)
  {
    var keys := FirstSeen(entries);
    if Mentions(entries, r.cpf) && r.amount == SumFor(entries, r.cpf) {
      var i :| 0 <= i < |keys| && keys[i] == r.cpf;
      assert Balances(entries)[i] == r;
    }
  }

  /** A record is in the average list exactly when its identifier has
      entries and its amount is their mean. */
  lemma InAverages(entries: seq<Entry>, r: Entry)
    ensures r in Averages(entries) <==>
              && Mentions(entries, r.cpf)
              && r.amount == SumFor(entries, r.cpf) / (CountFor(entries, r.cpf) as real)
  {
    var keys := FirstSeen(entries);
    if Mentions(entries, r.cpf) && r.amount == SumFor(entries, r.cpf) / (CountFor(entries, r.cpf) as real) {
      var i :| 0 <= i < |keys| && keys[i] == r.cpf;
      assert Averages(entries)[i] == r;
    }
  }

  /** Reordering the entries leaves the set of balance records and the set
      of average records unchanged; only their order follows the input. */
  lemma AggregatesIgnoreOrder(a: seq<Entry>, b: seq<Entry>)
    requires multiset(a) == multiset(b)
    ensures forall r :: r in Balances(a) <==> r in Balances(b)
    ensures forall r :: r in Averages(a) <==> r in Averages(b)
  {
    forall r: Entry
      ensures r in Balances(a) <==> r in Balances(b)
      ensures r in Averages(a) <==> r in Averages(b)
    {
      SumAndCountIgnoreOrder(a, b, r.cpf);
      InBalances(a, r);
      InBalances(b, r);
      InAverages(a, r);
      InAverages(b, r);
    }
  }

  /** A small aggregation: 5 and -3 for one
      identifier give one record of 2. */
  lemma BalanceExample()
    ensures Balances([Entry("X", 5.0), Entry("X", -3.0)]) == [Entry("X", 2.0)]
  {
    var e := [Entry("X", 5.0), Entry("X", -3.0)];
    assert e[..1] == [Entry("X", 5.0)];
    assert FirstSeen(e[..1]) == ["X"];
    assert FirstSeen(e) == ["X"];
    SumForAppend(e[..1], e[1], "X");
    assert e[..1][..0] == [];
    SumForAppend([], e[0], "X");
    assert [] + [e[0]] == e[..1];
  }
}

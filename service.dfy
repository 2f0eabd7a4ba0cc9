/** The aggregations of service.js over a batch of entries: balances per
    identifier, the three largest balances and the three largest averages.
    Each builds its dictionaries by updating them entry by entry, as the
    source's `forEach` loops do. */
module Service {
  import opened Ledger
  import opened Ranking

  /** `recuperarSaldosPorConta`: one record per distinct identifier, in
      order of first occurrence, holding the sum of its amounts. The
      dictionary `saldos` is the ordered key list `keys` with the map
      `sums`. */
  method BalancesByAccount(entries: seq<Entry>) returns (balances: seq<Entry>)
    ensures balances == Balances(entries)
    ensures DistinctCpfs(balances)
    ensures forall i | 0 <= i < |balances| ::
              Mentions(entries, balances[i].cpf) && balances[i].amount == SumFor(entries, balances[i].cpf)
    ensures forall cpf | Mentions(entries, cpf) :: exists i | 0 <= i < |balances| :: balances[i].cpf == cpf
    ensures forall i, j | 0 <= i < j < |balances| ::
              FirstIndex(entries, balances[i].cpf) < FirstIndex(entries, balances[j].cpf)
    ensures Total(balances) == Total(entries)
  {
    var keys: seq<string> := [];
    var sums: map<string, real> := map[];
    for n := 0 to |entries|
      invariant Summed(entries[..n], keys, sums)
    {
      var e := entries[n];
      assert entries[..n + 1] == entries[..n] + [e];
      SumStep(entries[..n], e, keys, sums);
      if e.cpf !in sums {
        keys := keys + [e.cpf];
      }
      sums := sums[e.cpf := (if e.cpf in sums then sums[e.cpf] else 0.0) + e.amount];
    }
    assert entries[..|entries|] == entries;
    balances := seq(|keys|, i requires 0 <= i < |keys| => Entry(keys[i], sums[keys[i]]));
    BalancesFromMap(entries, keys, sums, balances);
    BalancesFacts(entries);
  }

  /** A dictionary of sums after the entries `prefix`: its keys in order of
      first occurrence, and for each key the sum of its amounts. */
  ghost predicate Summed(prefix: seq<Entry>, keys: seq<string>, sums: map<string, real>) {
    && keys == FirstSeen(prefix)
    && (forall k :: k in sums <==> k in keys)
    && (forall k | k in sums :: sums[k] == SumFor(prefix, k))
  }

  /** A dictionary of counts after the entries `prefix`: for each key the
      number of its entries, never zero. */
  ghost predicate Counted(prefix: seq<Entry>, keys: seq<string>, counts: map<string, nat>) {
    && (forall k :: k in counts <==> k in keys)
    && (forall k | k in counts :: counts[k] == CountFor(prefix, k) && counts[k] >= 1)
  }

  /** One more entry: `saldos[cpf] = (saldos[cpf] || 0) + valor` keeps the
      dictionary of sums exact, and a new identifier joins the keys last. */
  lemma SumStep(prefix: seq<Entry>, e: Entry, keys: seq<string>, sums: map<string, real>)
    requires Summed(prefix, keys, sums)
    ensures Summed(prefix + [e],
                   if e.cpf in sums then keys else keys + [e.cpf],
                   sums[e.cpf := (if e.cpf in sums then sums[e.cpf] else 0.0) + e.amount])
  {
    var entries := prefix + [e];
    var sums' := sums[e.cpf := (if e.cpf in sums then sums[e.cpf] else 0.0) + e.amount];
    assert entries[..|entries| - 1] == prefix;
    assert FirstSeen(entries) == if e.cpf in keys then keys else keys + [e.cpf];
    forall k | k in sums' ensures sums'[k] == SumFor(entries, k) {
      SumForAppend(prefix, e, k);
    }
  }

  /** One more entry: `contagens[cpf] = (contagens[cpf] || 0) + 1` keeps
      the dictionary of counts exact. */
  lemma CountStep(prefix: seq<Entry>, e: Entry, keys: seq<string>, counts: map<string, nat>)
    requires keys == FirstSeen(prefix)
    requires Counted(prefix, keys, counts)
    ensures Counted(prefix + [e],
                    if e.cpf in counts then keys else keys + [e.cpf],
                    counts[e.cpf := (if e.cpf in counts then counts[e.cpf] else 0) + 1])
  {
    var entries := prefix + [e];
    var counts' := counts[e.cpf := (if e.cpf in counts then counts[e.cpf] else 0) + 1];
    forall k | k in counts' ensures counts'[k] == CountFor(entries, k) {
      SumForAppend(prefix, e, k);
    }
  }

  /** Reading the finished dictionary key by key gives the balance list. */
  lemma BalancesFromMap(entries: seq<Entry>, keys: seq<string>, sums: map<string, real>, balances: seq<Entry>)
    requires Summed(entries, keys, sums)
    requires |balances| == |keys|
    requires forall i | 0 <= i < |keys| :: balances[i] == Entry(keys[i], sums[keys[i]])
    ensures balances == Balances(entries)
  {
    var expected := Balances(entries);
    forall i | 0 <= i < |keys| ensures balances[i] == expected[i] {
      assert keys[i] in keys;
    }
  }

  /** What the balance list promises, from the lemmas about its parts. */
  lemma BalancesFacts(entries: seq<Entry>)
    ensures var balances := Balances(entries);
      && DistinctCpfs(balances)
      && (forall i | 0 <= i < |balances| ::
            Mentions(entries, balances[i].cpf) && balances[i].amount == SumFor(entries, balances[i].cpf))
      && (forall cpf | Mentions(entries, cpf) :: exists i | 0 <= i < |balances| :: balances[i].cpf == cpf)
      && (forall i, j | 0 <= i < j < |balances| ::
            FirstIndex(entries, balances[i].cpf) < FirstIndex(entries, balances[j].cpf))
      && Total(balances) == Total(entries)
  {
    BalancesAreSums(entries);
    BalancesCoverEveryCpf(entries);
    BalancesInFirstOccurrenceOrder(entries);
    BalancesKeepTotal(entries);
  }

  /** Each balance record belongs to an identifier that occurs, carries its
      sum, and no identifier has two records. */
  lemma BalancesAreSums(entries: seq<Entry>)
    ensures var balances := Balances(entries);
      && DistinctCpfs(balances)
      && (forall i | 0 <= i < |balances| ::
            Mentions(entries, balances[i].cpf) && balances[i].amount == SumFor(entries, balances[i].cpf))
  {
    var keys := FirstSeen(entries);
    var balances := Balances(entries);
    forall i | 0 <= i < |balances|
      ensures balances[i].cpf == keys[i] && Mentions(entries, keys[i])
    {
      assert keys[i] in keys;
    }
  }

  /** Every identifier that occurs has a balance record. */
  lemma BalancesCoverEveryCpf(entries: seq<Entry>)
    ensures var balances := Balances(entries);
      forall cpf | Mentions(entries, cpf) :: exists i | 0 <= i < |balances| :: balances[i].cpf == cpf
  {
    var keys := FirstSeen(entries);
    var balances := Balances(entries);
    forall cpf | Mentions(entries, cpf)
      ensures exists i | 0 <= i < |balances| :: balances[i].cpf == cpf
    {
      var i :| 0 <= i < |keys| && keys[i] == cpf;
      assert balances[i].cpf == cpf;
    }
  }

  /** The balance records are in order of first occurrence. */
  lemma BalancesInFirstOccurrenceOrder(entries: seq<Entry>)
    ensures var balances := Balances(entries);
      forall i, j | 0 <= i < j < |balances| ::
        FirstIndex(entries, balances[i].cpf) < FirstIndex(entries, balances[j].cpf)
  {
    var keys := FirstSeen(entries);
    var balances := Balances(entries);
    FirstSeenIsInFirstOccurrenceOrder(entries);
    assert forall i | 0 <= i < |balances| :: balances[i].cpf == keys[i];
  }

  /** How many records a ranking of `entries` returns: three, or the number
      of distinct identifiers when there are fewer. */
  function RankedCount(entries: seq<Entry>): nat {
    var n := |FirstSeen(entries)|;
    if n < TopCount then n else TopCount
  }

  /** `recuperarMaioresSaldos`: the balance list sorted by descending
      balance, stably, and cut to its first three records. */
  method TopBalances(entries: seq<Entry>) returns (top: seq<Entry>)
    ensures top == Top(Balances(entries))
    ensures |top| == RankedCount(entries)
    ensures NonIncreasing(top)
    ensures DistinctCpfs(top)
    ensures forall i | 0 <= i < |top| ::
              Mentions(entries, top[i].cpf) && top[i].amount == SumFor(entries, top[i].cpf)
    ensures forall cpf | Mentions(entries, cpf) && (forall i | 0 <= i < |top| :: top[i].cpf != cpf) ::
              |top| > 0 && SumFor(entries, cpf) <= top[|top| - 1].amount
  {
    var balances := BalancesByAccount(entries);
    top := RankTop(balances);
    TopBalancesFacts(entries);
  }

  /** What the three largest balances promise, from `Top` and the balance
      list. */
  lemma TopBalancesFacts(entries: seq<Entry>)
    ensures var top := Top(Balances(entries));
      && |top| == RankedCount(entries)
      && DistinctCpfs(top)
      && (forall i | 0 <= i < |top| ::
            Mentions(entries, top[i].cpf) && top[i].amount == SumFor(entries, top[i].cpf))
      && (forall cpf | Mentions(entries, cpf) && (forall i | 0 <= i < |top| :: top[i].cpf != cpf) ::
            |top| > 0 && SumFor(entries, cpf) <= top[|top| - 1].amount)
  {
    BalancesAreSums(entries);
    TopBalancesMembers(entries);
    TopBalancesCut(entries);
  }

  /** No identifier left out of the three largest balances has a larger
      balance than the last one kept. */
  lemma TopBalancesCut(entries: seq<Entry>)
    ensures var top := Top(Balances(entries));
      forall cpf | Mentions(entries, cpf) && (forall i | 0 <= i < |top| :: top[i].cpf != cpf) ::
        |top| > 0 && SumFor(entries, cpf) <= top[|top| - 1].amount
  {
    var top := Top(Balances(entries));
    forall cpf | Mentions(entries, cpf) && (forall i | 0 <= i < |top| :: top[i].cpf != cpf)
      ensures |top| > 0 && SumFor(entries, cpf) <= top[|top| - 1].amount
    {
      var r := Entry(cpf, SumFor(entries, cpf));
      InBalances(entries, r);
      assert r !in top;
    }
  }

  /** Every record among the three largest balances is the sum of its
      identifier's entries. */
  lemma TopBalancesMembers(entries: seq<Entry>)
    ensures var top := Top(Balances(entries));
      forall i | 0 <= i < |top| ::
        Mentions(entries, top[i].cpf) && top[i].amount == SumFor(entries, top[i].cpf)
  {
    var top := Top(Balances(entries));
    forall i | 0 <= i < |top|
      ensures Mentions(entries, top[i].cpf) && top[i].amount == SumFor(entries, top[i].cpf)
    {
      InBalances(entries, top[i]);
    }
  }

  /** The first half of `recuperarMaioresMedias`: the sums (`medias`) and
      counts (`contagens`) per identifier are built entry by entry, and
      each identifier's mean becomes one record, in order of first
      occurrence. */
  method AveragesByAccount(entries: seq<Entry>) returns (averages: seq<Entry>)
    ensures averages == Averages(entries)
  {
    var keys: seq<string> := [];
    var sums: map<string, real> := map[];
    var counts: map<string, nat> := map[];
    for n := 0 to |entries|
      invariant Summed(entries[..n], keys, sums)
      invariant Counted(entries[..n], keys, counts)
    {
      var e := entries[n];
      assert entries[..n + 1] == entries[..n] + [e];
      SumStep(entries[..n], e, keys, sums);
      CountStep(entries[..n], e, keys, counts);
      if e.cpf !in sums {
        keys := keys + [e.cpf];
      }
      sums := sums[e.cpf := (if e.cpf in sums then sums[e.cpf] else 0.0) + e.amount];
      counts := counts[e.cpf := (if e.cpf in counts then counts[e.cpf] else 0) + 1];
    }
    assert entries[..|entries|] == entries;
    averages := seq(|keys|, i requires 0 <= i < |keys| =>
      Entry(keys[i], sums[keys[i]] / (counts[keys[i]] as real)));
    AveragesFromMaps(entries, keys, sums, counts, averages);
  }

  /** Reading the finished dictionaries key by key gives the average list. */
  lemma AveragesFromMaps(entries: seq<Entry>, keys: seq<string>, sums: map<string, real>,
                         counts: map<string, nat>, averages: seq<Entry>)
    requires Summed(entries, keys, sums)
    requires Counted(entries, keys, counts)
    requires |averages| == |keys|
    requires forall i | 0 <= i < |keys| ::
               averages[i] == Entry(keys[i], sums[keys[i]] / (counts[keys[i]] as real))
    ensures averages == Averages(entries)
  {
    var expected := Averages(entries);
    forall i | 0 <= i < |keys| ensures averages[i] == expected[i] {
      assert keys[i] in keys;
    }
  }

  /** `recuperarMaioresMedias`: the average list sorted by descending mean,
      stably, and cut to its first three records. */
  method TopAverages(entries: seq<Entry>) returns (top: seq<Entry>)
    ensures top == Top(Averages(entries))
    ensures |top| == RankedCount(entries)
    ensures NonIncreasing(top)
    ensures DistinctCpfs(top)
    ensures forall i | 0 <= i < |top| ::
              && CountFor(entries, top[i].cpf) >= 1
              && top[i].amount == SumFor(entries, top[i].cpf) / (CountFor(entries, top[i].cpf) as real)
    ensures forall cpf | Mentions(entries, cpf) && (forall i | 0 <= i < |top| :: top[i].cpf != cpf) ::
              && |top| > 0
              && SumFor(entries, cpf) / (CountFor(entries, cpf) as real) <= top[|top| - 1].amount
  {
    var averages := AveragesByAccount(entries);
    top := RankTop(averages);
    TopAveragesFacts(entries);
  }

  /** The average list holds one record per identifier. */
  lemma AveragesHaveDistinctCpfs(entries: seq<Entry>)
    ensures DistinctCpfs(Averages(entries))
  {
    var averages := Averages(entries);
    var keys := FirstSeen(entries);
    forall i, j | 0 <= i < j < |averages| ensures averages[i].cpf != averages[j].cpf {
      assert averages[i].cpf == keys[i] && averages[j].cpf == keys[j];
    }
  }

  /** What the three largest averages promise, from `Top` and the average
      list. */
  lemma TopAveragesFacts(entries: seq<Entry>)
    ensures var top := Top(Averages(entries));
      && |top| == RankedCount(entries)
      && DistinctCpfs(top)
      && (forall i | 0 <= i < |top| ::
            && CountFor(entries, top[i].cpf) >= 1
            && top[i].amount == SumFor(entries, top[i].cpf) / (CountFor(entries, top[i].cpf) as real))
      && (forall cpf | Mentions(entries, cpf) && (forall i | 0 <= i < |top| :: top[i].cpf != cpf) ::
            && |top| > 0
            && SumFor(entries, cpf) / (CountFor(entries, cpf) as real) <= top[|top| - 1].amount)
  {
    var top := Top(Averages(entries));
    AveragesHaveDistinctCpfs(entries);
    TopAveragesMembers(entries);
    forall cpf | Mentions(entries, cpf) && (forall i | 0 <= i < |top| :: top[i].cpf != cpf)
      ensures |top| > 0
      ensures SumFor(entries, cpf) / (CountFor(entries, cpf) as real) <= top[|top| - 1].amount
    {
      var r := Entry(cpf, SumFor(entries, cpf) / (CountFor(entries, cpf) as real));
      InAverages(entries, r);
      assert r !in top;
    }
  }

  /** Every record among the three largest averages is the mean of its
      identifier's entries. */
  lemma TopAveragesMembers(entries: seq<Entry>)
    ensures var top := Top(Averages(entries));
      forall i | 0 <= i < |top| ::
        && CountFor(entries, top[i].cpf) >= 1
        && top[i].amount == SumFor(entries, top[i].cpf) / (CountFor(entries, top[i].cpf) as real)
  {
    var averages := Averages(entries);
    var top := Top(averages);
    forall i | 0 <= i < |top|
      ensures CountFor(entries, top[i].cpf) >= 1
      ensures top[i].amount == SumFor(entries, top[i].cpf) / (CountFor(entries, top[i].cpf) as real)
    {
      assert top[i] in averages;
      var j :| 0 <= j < |averages| && averages[j] == top[i];
    }
  }
}

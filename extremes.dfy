/** The lowest and highest entry of one identifier (service.js,
    `recuperarMaiorMenorLancamentos`). */
module Extremes {
  import opened Ledger

  /** `Math.min(...values)` of a non-empty list. */
  function Minimum(values: seq<real>): (m: real)
    requires values != []
    ensures m in values
    ensures forall v | v in values :: m <= v
  {
    if |values| == 1 then values[0]
    else
      var rest := Minimum(values[1..]);
      assert values == [values[0]] + values[1..];
      if values[0] <= rest then values[0] else rest
  }

  /** `Math.max(...values)` of a non-empty list. */
  function Maximum(values: seq<real>): (m: real)
    requires values != []
    ensures m in values
    ensures forall v | v in values :: v <= m
  {
    if |values| == 1 then values[0]
    else
      var rest := Maximum(values[1..]);
      assert values == [values[0]] + values[1..];
      if values[0] >= rest then values[0] else rest
  }

  /** The amounts selected for an identifier are exactly the amounts of its
      entries. */
  lemma {:induction false} InAmountsFor(entries: seq<Entry>, cpf: string, v: real)
    ensures v in AmountsFor(entries, cpf) <==> Entry(cpf, v) in entries
  {
    if entries != [] {
      var prefix, x := entries[..|entries| - 1], entries[|entries| - 1];
      assert entries == prefix + [x];
      InAmountsFor(prefix, cpf, v);
    }
  }

  /** `recuperarMaiorMenorLancamentos(cpf, entries)`: nothing when the
      identifier has no entries, one record when its lowest and highest
      amounts coincide, otherwise the lowest record followed by the highest. */
  function ExtremeEntries(cpf: string, entries: seq<Entry>): (r: seq<Entry>)
    ensures r == [] <==> !Mentions(entries, cpf)
    ensures |r| <= 2
    ensures forall i | 0 <= i < |r| :: r[i].cpf == cpf && Entry(cpf, r[i].amount) in entries
    ensures forall e | e in entries && e.cpf == cpf ::
              r != [] && r[0].amount <= e.amount <= r[|r| - 1].amount
    ensures |r| == 2 ==> r[0].amount < r[1].amount
  {
    var amounts := AmountsFor(entries, cpf);
    if amounts == [] then []
    else
      var low, high := Minimum(amounts), Maximum(amounts);
      InAmountsFor(entries, cpf, low);
      InAmountsFor(entries, cpf, high);
      assert forall e | e in entries && e.cpf == cpf :: e.amount in amounts by {
        forall e | e in entries && e.cpf == cpf ensures e.amount in amounts {
          InAmountsFor(entries, cpf, e.amount);
        }
      }
      if low == high then [Entry(cpf, low)] else [Entry(cpf, low), Entry(cpf, high)]
  }

  /** One record comes back exactly when the identifier has entries and they
      all carry the same amount. */
  lemma SingleRecordIffAllEqual(cpf: string, entries: seq<Entry>)
    ensures |ExtremeEntries(cpf, entries)| == 1 <==>
              && Mentions(entries, cpf)
              && forall e, f | e in entries && f in entries && e.cpf == cpf && f.cpf == cpf ::
                   e.amount == f.amount
  {
    var r := ExtremeEntries(cpf, entries);
    if |r| == 2 {
      var lo :| lo in entries && lo == Entry(cpf, r[0].amount);
      var hi :| hi in entries && hi == Entry(cpf, r[1].amount);
      assert lo.amount != hi.amount;
    }
  }

  /** Small cases: no entries give nothing, one
      entry gives itself, and two equal entries give a single record. */
  lemma ExtremesExamples()
    ensures ExtremeEntries("X", []) == []
    ensures ExtremeEntries("X", [Entry("X", 5.0)]) == [Entry("X", 5.0)]
    ensures ExtremeEntries("X", [Entry("X", 5.0), Entry("X", 5.0)]) == [Entry("X", 5.0)]
  {
    var one := [Entry("X", 5.0)];
    assert one[0].cpf == "X";
    var two := [Entry("X", 5.0), Entry("X", 5.0)];
    assert two[0].cpf == "X";
    SingleRecordIffAllEqual("X", two);
    SingleRecordIffAllEqual("X", one);
  }
}

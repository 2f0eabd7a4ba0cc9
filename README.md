# Ledger service with CPF validation, in Dafny

This project models `service.js`, a small ledger-analytics module. It works
on entries `{cpf, valor}`: a Brazilian taxpayer identifier (CPF) and an
amount. It has six parts:

- `validarCPF` (with its inner `calcularDigito`) checks the two
  modulus-11 check digits of an eleven-digit identifier.
  Modelled in module `CpfCheck`.
- `validarEntradaDeDados` is the admission gate for one entry. It runs five
  checks in a fixed order and returns the message of the first that fails,
  or `null`. Modelled in module `EntryValidation`; `null` is `None`.
- `recuperarSaldosPorConta` sums the amounts per identifier. It returns one
  record per identifier, in order of first occurrence.
- `recuperarMaiorMenorLancamentos` returns the lowest and the highest entry
  of one identifier, merged into one record when they are equal.
  Modelled in module `Extremes`.
- `recuperarMaioresSaldos` returns the three largest balances.
- `recuperarMaioresMedias` returns the three largest per-identifier means.

The specification functions over entry lists live in module `Ledger`:
per-identifier sums and counts, first-seen key order, and the balance and
average lists. The stable descending sort and the top-three cut live in
module `Ranking`. The sort exists both as the function `SortDesc` and as the
in-place array method `SortByAmountDesc`, which is proved equal to it.

The three aggregators build their dictionaries (`saldos`, `medias`,
`contagens`) by updating them inside a loop over the entries. Module
`Service` models them as methods with a `for` loop. Each dictionary is an
ordered key list plus a `map`, and the loop invariants tie both to the
specification functions over the entries seen so far. The rankings copy the
records into a fresh array, sort it in place and keep the first three.
The input entry list is a `seq` value, so it is never mutated.

Amounts are `real`, so sums and means are exact. The result of
`parseFloat(valor)` is an `Option<real>` given by the caller: `None` stands
for `NaN`.

The code has no rule against repeated digits: every identifier made of one
repeated digit passes both check digits, so `11111111111` is admitted.
`CpfCheck.RepeatedDigitIsAccepted` proves this for all ten such
identifiers, and `EntryValidation.ValidationScenarios` proves that the gate
admits `11111111111`.

## Model

| member | source | states |
|---|---|---|
| CpfCheck.DigitValue | service.js:38 | `Number(c)` of a digit character lies in 0..9 |
| CpfCheck.IsWellFormed | service.js:7 | `/^\d{11}$/` holds iff the string has exactly eleven characters, each one of the ten digit characters `0`-`9` |
| CpfCheck.Digits | service.js:38 | a well-formed identifier splits into eleven values, each in 0..9 |
| CpfCheck.WeightedSum | service.js:43-45 | the `reduce` over digits weighed from `weight` downwards is never negative when there are at most `weight` digits, so JavaScript's `%` and Dafny's agree on it |
| CpfCheck.CheckDigit | service.js:41-52 | `calcularDigito(f)` is always a single digit 0..9; a remainder of 10 maps to 0 |
| CpfCheck.CheckDigitIsStandard | service.js:41-52 | `(10·sum) mod 11`, with 10 read as 0, equals the textbook rule: 0 when `sum mod 11 < 2`, else `11 - sum mod 11` |
| CpfCheck.IsValid | service.js:36-56 | `validarCPF` holds iff digit 10 and digit 11 both follow the textbook rule over the digits before them |
| CpfCheck.TenTimesModEleven | service.js:46-51 | for any sum, `(10·sum) mod 11` with 10 read as 0 equals 0 when `sum mod 11 < 2` and `11 - sum mod 11` otherwise |
| CpfCheck.WeightedSumOfRepeat | service.js:43-45 | a run of one repeated digit `k` has `k` times the weighted sum of a run of ones |
| CpfCheck.RepeatedDigitIsAccepted | service.js:41-55 | every identifier made of one repeated digit is well formed and passes both check digits |
| CpfCheck.WeightsOfOnes | service.js:43-45 | a run of ones weighs 54 under the first digit's weights and 65 under the second's |
| CpfCheck.KnownIdentifiers | service.js:36-56 | 52998224725 passes the check digits; 52998224726 fails them |
| CpfCheck.KnownValidIdentifier | service.js:36-56 | 52998224725 is well formed and both of its check digits match |
| CpfCheck.KnownInvalidIdentifier | service.js:36-56 | 52998224726 is well formed and its second check digit does not match |
| CpfCheck.ExampleCheckDigits | service.js:41-55 | any identifier starting 5299822472 has computed check digits 2 and 5 |
| CpfCheck.ExampleDigits | service.js:38 | the two example strings are well formed and split into their digit values |
| CpfCheck.ExampleSums | service.js:43-45 | the weighted sums behind the example check digits are 295 and 347 |
| EntryValidation.ValidateEntry | service.js:2-33 | `None` iff the identifier is eleven digits, passes its check digits, and the amount is numeric within [-2000, 15000], both ends included; each error is returned iff its check is the first in the order format, checksum, numeric, upper bound, lower bound to fail |
| EntryValidation.Message | service.js:8-29 | each of the five texts is returned for its own error and for no other |
| EntryValidation.MessagesAreDistinct | service.js:8-29 | the five error texts are pairwise different |
| EntryValidation.ValidationScenarios | service.js:2-33 | a bad format wins over a non-numeric amount; 11111111111 is admitted; each amount error is reported for a valid identifier; 15000 and -2000 are admitted |
| Ledger.AmountsFor | service.js:74 | the amounts selected for an identifier are empty iff it has no entries |
| Ledger.SumFor | service.js:64 | the accumulated `saldos[cpf]`: 0 for an identifier without entries |
| Ledger.CountFor | service.js:106-107 | the accumulated `contagens[cpf]`: at most the number of entries, and 0 iff the identifier has no entries |
| Ledger.FirstSeen | service.js:60-65 | the keys of the per-identifier dictionary are distinct and are exactly the identifiers that occur |
| Ledger.FirstIndex | service.js:60-65 | the position of an identifier's first entry: it holds that identifier and no earlier entry does |
| Ledger.BalancesOf | service.js:68 | one record per given key, carrying that key and the sum of its amounts |
| Ledger.Balances | service.js:59-69 | `recuperarSaldosPorConta`: one record per identifier in first-occurrence order, identifiers distinct, each identifier occurring in the entries and carrying its sum |
| Ledger.Averages | service.js:111-114 | one record per identifier in first-seen order; its count is at least 1 and its amount is its sum divided by its count |
| Ledger.SumForAppend | service.js:64 | one more entry adds its amount to its own identifier's sum and count and changes no other |
| Ledger.TotalOfBalancesOfAppend | service.js:64 | over distinct keys, one more entry raises the balances' total by its amount when its identifier is a key |
| Ledger.TotalOfBalancesWithNewKey | service.js:64 | an entry with a new identifier raises the balances' total by its amount |
| Ledger.TotalOfSnoc | service.js:64 | step of `TotalOfBalancesWithNewKey`: one more record adds its amount to the total |
| Ledger.BalancesKeepTotal | service.js:59-69 | the balances sum to the total of all entries |
| Ledger.TotalOfBalancesStep | service.js:62-65 | one more entry raises the total of the balances by its amount |
| Ledger.FirstIndexOfExtension | service.js:62-65 | appending an entry does not move an identifier's first occurrence |
| Ledger.FirstSeenIsInFirstOccurrenceOrder | service.js:60-68 | the dictionary's keys are ordered by their first occurrence in the entries |
| Ledger.RemoveAt | service.js:62 | step of `SumForRemoveAt`: removing one entry removes exactly that entry from the multiset |
| Ledger.AmountsForConcat | service.js:74-80 | the amounts of a concatenation are the amounts of each part, in order |
| Ledger.AmountsForSnoc | service.js:74 | step of `AmountsForConcat`: one more entry adds its amount to the selection iff it carries the identifier |
| Ledger.AmountsForConcatStep | service.js:74 | step of `AmountsForConcat`: the concatenation property survives one more entry at the end |
| Ledger.SumConcat | service.js:64 | the sum of a concatenation is the sum of the sums |
| Ledger.SumForRemoveAt | service.js:64 | removing one entry takes its amount and one count off its own identifier |
| Ledger.RemoveMatching | service.js:104-108 | step of `SumAndCountIgnoreOrder`: taking the same record off two permutations of each other leaves permutations of each other |
| Ledger.SumAndCountIgnoreOrder | service.js:104-108 | any reordering of the entries gives each identifier the same sum and count |
| Ledger.InBalances | service.js:59-69 | a record is a balance iff its identifier occurs and its amount is that identifier's sum |
| Ledger.InAverages | service.js:100-114 | a record is an average iff its identifier occurs and its amount is that identifier's sum divided by its count |
| Ledger.AggregatesIgnoreOrder | service.js:59-69 | reordering the entries leaves the sets of balance and average records unchanged |
| Ledger.BalanceExample | service.js:59-69 | 5 and -3 for one identifier give a single record of 2 |
| Extremes.Minimum | service.js:81 | `Math.min` of a non-empty list is in the list and bounds it from below |
| Extremes.Maximum | service.js:82 | `Math.max` of a non-empty list is in the list and bounds it from above |
| Extremes.InAmountsFor | service.js:74-80 | an amount is selected for an identifier iff an entry of that identifier carries it |
| Extremes.ExtremeEntries | service.js:72-88 | empty iff the identifier has no entries; at most two records, all of this identifier with amounts that occur among its entries; the first bounds every entry from below and the last from above; two records are strictly increasing |
| Extremes.SingleRecordIffAllEqual | service.js:85-87 | one record comes back iff the identifier has entries and they all carry the same amount |
| Extremes.ExtremesExamples | service.js:72-88 | no entries give nothing; one entry gives itself; two equal entries give one record |
| Ranking.Insert | service.js:96 | inserting a record adds exactly that record to the multiset |
| Ranking.InsertKeepsOrder | service.js:96 | inserting into a non-increasing list keeps it non-increasing |
| Ranking.SortDesc | service.js:96 | the sort result is non-increasing by amount and a permutation of its input |
| Ranking.WithAmountConcat | service.js:96 | selecting the records with one amount distributes over concatenation |
| Ranking.WithAmountOfLower | service.js:96 | a non-increasing list whose head is below `v` holds no record with amount `v` |
| Ranking.InsertKeepsTies | service.js:96 | an inserted record goes after every record with its amount |
| Ranking.TiesBehindHead | service.js:96 | putting the same record in front of both sides keeps the records of one amount in the same order |
| Ranking.WithAmountCons | service.js:96 | step of `InsertKeepsTies`: the records of amount `v` in `[y] + t` are `y` (when it has amount `v`) followed by those of `t` |
| Ranking.TiesInFront | service.js:96 | a record placed in front of a list that is all below it comes after every record of its own amount |
| Ranking.SortDescIsStable | service.js:96 | the sort is stable: records with equal amounts keep their input order |
| Ranking.TopKeepsTies | service.js:96 | for every amount, the records of that amount kept by `slice(0, 3)` are the first ones of that amount in input order |
| Ranking.TiesOfPrefix | service.js:96 | step of `TopKeepsTies`: cutting a list splits its records of one amount into those kept and those cut off, in order |
| Ranking.InsertKeepsDistinctCpfs | service.js:96 | inserting a record with a new identifier keeps identifiers distinct |
| Ranking.InInsert | service.js:96 | every record of an insertion is the inserted one or a record of the list |
| Ranking.ConsKeepsDistinctCpfs | service.js:96 | a record with a new identifier in front of a list with distinct identifiers keeps them distinct |
| Ranking.SortDescKeepsDistinctCpfs | service.js:96 | sorting keeps identifiers distinct |
| Ranking.InsertAt | service.js:96 | insertion places the record after the records at least as large and before the smaller ones |
| Ranking.TailBounds | service.js:96 | step of `InsertAt`: the bounds that place an insertion after `k` records hold for the tail after `k - 1` records |
| Ranking.ConsSplit | service.js:96 | step of `InsertAt`: splitting the tail at `k - 1` and putting the head back splits the list at `k` |
| Ranking.ShiftedIsInsert | service.js:96 | shifting the smaller records one place right and writing the record into the gap is the insertion |
| Ranking.Spliced | service.js:96 | step of `ShiftedIsInsert`: a list agreeing with `s` before `k`, holding `x` at `k` and `s` shifted after it is `s` with `x` spliced in at `k` |
| Ranking.ShiftStep | service.js:96 | moving the record left of the gap one place right keeps the shifting invariant with the gap one place further left |
| Ranking.ShiftDone | service.js:96 | when the shifting stops, writing the record into the gap yields the insertion into the sorted prefix and leaves the rest unchanged |
| Ranking.InsertInPlace | service.js:96 | one in-place insertion step turns the sorted prefix plus the next record into `Insert` of them and leaves the rest of the array unchanged |
| Ranking.SortDescStep | service.js:96 | sorting one more record is inserting it into the sorted prefix |
| Ranking.SortByAmountDesc | service.js:96 | the in-place array sort leaves exactly the stable descending sort of the array's old contents |
| Ranking.SortedFromInput | service.js:96 | every sorted record comes from the input |
| Ranking.BelowTheCut | service.js:96 | in a non-increasing permutation of the input, a record cut off the first `n` is no larger than the `n`-th |
| Ranking.SortedPrefixFromInput | service.js:96 | the first `n` sorted records come from the input |
| Ranking.PrefixKeepsOrder | service.js:96 | step of `SortedPrefixFacts`: a prefix of a non-increasing list is non-increasing |
| Ranking.PrefixKeepsDistinctCpfs | service.js:96 | step of `SortedPrefixFacts`: a prefix of a list with distinct identifiers has distinct identifiers |
| Ranking.Top | service.js:96 | `sort(...).slice(0, 3)` keeps `min(3, n)` records, non-increasing, all from the input, none smaller than an omitted record, and with distinct identifiers when the input has them |
| Ranking.SortedPrefixFacts | service.js:96 | the first `n` sorted records are non-increasing, come from the input, are no smaller than an omitted record, and keep identifiers distinct |
| Ranking.RankTop | service.js:96 | sorting a fresh array copy and keeping three records gives `Top` of the records |
| Service.BalancesByAccount | service.js:59-69 | the loop over `saldos` yields the balance list: one record per identifier that occurs, distinct, in first-occurrence order, each carrying its identifier's sum; the total is preserved |
| Service.SumStep | service.js:62-65 | adding an entry to `saldos`, with a missing key read as 0, keeps the dictionary equal to the per-identifier sums of the entries seen so far, with a new identifier joining the keys last |
| Service.CountStep | service.js:104-108 | adding an entry to `contagens`, with a missing key read as 0, keeps the dictionary equal to the per-identifier counts of the entries seen so far, each at least 1 |
| Service.BalancesFromMap | service.js:68 | reading the finished dictionary key by key gives the balance list |
| Service.BalancesFacts | service.js:59-69 | the balance list has distinct identifiers, covers every identifier that occurs with its sum, is in first-occurrence order and keeps the total |
| Service.BalancesAreSums | service.js:59-69 | each balance carries an identifier that occurs and its sum |
| Service.BalancesCoverEveryCpf | service.js:59-69 | every identifier that occurs has a balance |
| Service.BalancesInFirstOccurrenceOrder | service.js:59-69 | balances are ordered by their identifier's first occurrence |
| Service.TopBalances | service.js:91-97 | `min(3, #identifiers)` balances, non-increasing, distinct, each the sum of its identifier; no omitted identifier's balance exceeds the last one returned |
| Service.TopBalancesFacts | service.js:91-97 | the facts above, for `Top` of the balance list |
| Service.TopBalancesCut | service.js:91-97 | an identifier left out of the top balances has a sum no larger than the last one returned |
| Service.TopBalancesMembers | service.js:91-97 | each returned balance carries an identifier that occurs and its sum |
| Service.AveragesByAccount | service.js:100-114 | the loop over `medias` and `contagens` yields the average list |
| Service.AveragesFromMaps | service.js:111-114 | dividing each finished sum by its count, key by key, gives the average list |
| Service.TopAverages | service.js:100-117 | `min(3, #identifiers)` means, non-increasing, distinct, each its identifier's sum divided by a count of at least 1; no omitted identifier's mean exceeds the last one returned |
| Service.AveragesHaveDistinctCpfs | service.js:111-114 | the average list has one record per identifier |
| Service.TopAveragesFacts | service.js:100-117 | the facts above, for `Top` of the average list |
| Service.TopAveragesMembers | service.js:111-116 | every kept mean is its identifier's sum over a count of at least 1 |

## Left out

- `parseFloat` (service.js:17) is not modelled: prefix parsing such as `"12abc"`, whitespace, and `"Infinity"` belong to the JavaScript library. The caller supplies its result as `Option<real>`.
- The amount reaching the aggregators is a number: the source does not validate there, and a string `valor` would be concatenated by `+` and would make the sort comparator return `NaN`. Entries hold a `real` amount.
- IEEE double rounding in sums and in `soma / contagens[cpf]` is not modelled: amounts are exact reals.
- `(saldos[cpf] || 0)` reads a running sum of 0 as 0, which changes nothing for numbers; only `NaN` would differ, and it is excluded with non-numeric amounts.
- JavaScript enumerates integer-like object keys (canonical numerals below 2^32 - 1) before the others. An eleven-digit identifier is never such a key, but the aggregators do not validate identifiers. The model keeps insertion order for every key, and keys named like `Object.prototype` members are not treated specially.
- `Math.min(...valores)` and `Math.max(...valores)` fail on very long argument lists in a real engine; the model has no such limit.
- CpfCheck.IsValid: requires a well-formed identifier. `validarCPF` is only called after the format check, so other strings never reach it.
- Identifiers that are not strings (the regular expression converts them to strings first) are not modelled; identifiers are strings.

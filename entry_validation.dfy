/** The admission gate for one ledger entry (service.js,
    `validarEntradaDeDados`): five checks applied in a fixed order, the
    first that fails deciding the answer. */
module EntryValidation {
  import opened Wrappers
  import CpfCheck

  /** The closed range an admitted amount must lie in. */
  const UpperBound: real := 15000.0
  const LowerBound: real := -2000.0

  /** What the gate reports; `None` stands for the source's `null`. */
  datatype ValidationError =
    | BadFormat        // the identifier is not exactly eleven ASCII digits
    | BadChecksum      // the identifier fails its check digits
    | NotNumeric       // the amount did not parse to a number
    | AboveUpperBound  // the amount exceeds 15000
    | BelowLowerBound  // the amount is below -2000

  /** The five texts the source returns. */
  const BadFormatText := "CPF deve conter exatamente 11 caracteres numéricos."
  const BadChecksumText := "CPF inválido."
  const NotNumericText := "O valor deve ser numérico."
  const AboveUpperBoundText := "O valor não pode ser superior a 15000,00."
  const BelowLowerBoundText := "O valor não pode ser inferior a -2000,00."

  /** The text the source returns for each error: each text goes with its
      own error and with no other. */
  function Message(e: ValidationError): (r: string)
    ensures r == BadFormatText <==> e.BadFormat?
    ensures r == BadChecksumText <==> e.BadChecksum?
    ensures r == NotNumericText <==> e.NotNumeric?
    ensures r == AboveUpperBoundText <==> e.AboveUpperBound?
    ensures r == BelowLowerBoundText <==> e.BelowLowerBound?
  {
    match e
    case BadFormat => BadFormatText
    case BadChecksum => BadChecksumText
    case NotNumeric => NotNumericText
    case AboveUpperBound => AboveUpperBoundText
    case BelowLowerBound => BelowLowerBoundText
  }

  /** The identifier passes both the format and the checksum check. */
  predicate IsAcceptedCpf(cpf: string) {
    CpfCheck.IsWellFormed(cpf) && CpfCheck.IsValid(cpf)
  }

  /** An entry the gate admits: an accepted identifier and a numeric amount
      inside [-2000, 15000], both ends included. */
  predicate Admissible(cpf: string, amount: Option<real>) {
    IsAcceptedCpf(cpf) && amount.Some? && LowerBound <= amount.value <= UpperBound
  }

  /** `validarEntradaDeDados({cpf, valor})`, where `amount` is the result of
      `parseFloat(valor)`: `None` when it is `NaN`. */
  function ValidateEntry(cpf: string, amount: Option<real>): (r: Option<ValidationError>)
    ensures r == None <==> Admissible(cpf, amount)
    ensures r == Some(BadFormat) <==> !CpfCheck.IsWellFormed(cpf)
    ensures r == Some(BadChecksum) <==> CpfCheck.IsWellFormed(cpf) && !CpfCheck.IsValid(cpf)
    ensures r == Some(NotNumeric) <==> IsAcceptedCpf(cpf) && amount.None?
    ensures r == Some(AboveUpperBound) <==>
              IsAcceptedCpf(cpf) && amount.Some? && amount.value > UpperBound
    ensures r == Some(BelowLowerBound) <==>
              IsAcceptedCpf(cpf) && amount.Some? && amount.value < LowerBound
  {
    if !CpfCheck.IsWellFormed(cpf) then Some(BadFormat)
    else if !CpfCheck.IsValid(cpf) then Some(BadChecksum)
    else if amount.None? then Some(NotNumeric)
    else if amount.value > UpperBound then Some(AboveUpperBound)
    else if amount.value < LowerBound then Some(BelowLowerBound)
    else None
  }

  /** Distinct errors have distinct texts, so reporting the error kind loses
      nothing against reporting the text. */
  lemma MessagesAreDistinct(e1: ValidationError, e2: ValidationError)
    requires Message(e1) == Message(e2)
    ensures e1 == e2
  {
  }

  /** Representative entries, decided by the gate as
      written: a ten-digit identifier fails the format check even when the
      amount is not numeric, the repeated-digit identifier 11111111111 is
      admitted (the code has no repeated-digit rule), and a valid
      identifier meets the amount checks in order, both bounds included. */
  lemma ValidationScenarios()
    ensures ValidateEntry("1234567890", Some(10.0)) == Some(BadFormat)
    ensures ValidateEntry("1234567890", None) == Some(BadFormat)
    ensures ValidateEntry("11111111111", Some(10.0)) == None
    ensures ValidateEntry("52998224726", Some(100.0)) == Some(BadChecksum)
    ensures ValidateEntry("52998224725", Some(20000.0)) == Some(AboveUpperBound)
    ensures ValidateEntry("52998224725", Some(-3000.0)) == Some(BelowLowerBound)
    ensures ValidateEntry("52998224725", None) == Some(NotNumeric)
    ensures ValidateEntry("52998224725", Some(100.0)) == None
    ensures ValidateEntry("52998224725", Some(15000.0)) == None
    ensures ValidateEntry("52998224725", Some(-2000.0)) == None
  {
    CpfCheck.RepeatedDigitIsAccepted('1');
    assert seq(11, _ => '1') == "11111111111";
    CpfCheck.KnownIdentifiers();
  }
}

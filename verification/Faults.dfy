/** What is wrong with a text that is no filter: the first thing that could not be read, and how much was left then. */
module Faults {
  import opened Text
  import opened Filter
  import opened Grammar

  datatype Message =
    | EofInEscape | MissingTermination | ExpectingValue | InvalidValue | MissingValue
    | EofInsteadOfOperator | UnknownField | InvalidValueOperator | NoValue | InvalidMatch
    | ExpectingExpression | MissingCloseBrace | UnexpectedCloseBrace | InvalidOperator
    | ExpectingSecondExpression | JunkAtEnd

  /** The first message, and the number of characters that were unread when it came up. */
  datatype Fault = Fault(why: Message, left: nat)

  /** A string that is not closed; its last character may be a backslash that escapes nothing. */
  function BodyFault(s: string): Fault
    requires ReadBody(s).None?
  {
    if s == "" then Fault(MissingTermination, 0)
    else if s == "\\" then Fault(EofInEscape, 0)
    else BodyFault(s[|ItemText(FirstItem(s))|..])
  }

  function ValueFault(s: string): Fault
    requires ReadValue(s).None?
  {
    if s == "" then Fault(ExpectingValue, 0)
    else if s[0] == '"' then BodyFault(s[1..])
    else Fault(InvalidValue, |s|)
  }

  function ItemsFault(s: string): Fault
    requires Trimmed(s) && ReadItems(s).None?
    decreases |s|
  {
    match ReadValue(Trim(s[1..]))
    case None => ValueFault(Trim(s[1..]))
    case Some((_, rest)) => ItemsFault(rest)
  }

  function OperandFault(list: bool, s: string): Fault
    requires ReadOperand(list, s).None?
  {
    match ReadValue(s)
    case None => ValueFault(s)
    case Some((_, rest)) => ItemsFault(rest)
  }

  /** Without an operator; after an i the next character is gone, too. */
  function OpFault(s: string): Fault
    requires OpLen(s) == 0
  {
    if s == "" then Fault(EofInsteadOfOperator, 0)
    else if s[0] == 'i' || s[0] == 'I' then Fault(EofInsteadOfOperator, if |s| > 1 then |s| - 2 else 0)
    else Fault(InvalidValueOperator, |s|)
  }

  /** Blanks behind a single string have not been read yet. */
  function Unread(v: CValue, rest: string): nat { if v.CStr? then |v.gap| + |rest| else |rest| }

  function TestFault(s: string): Fault
    requires ReadTest(s).None?
  {
    var s1 := s[NameLen(s)..];
    var s2 := Trim(s1);
    if FieldOf(LowerAll(s[..NameLen(s)])).None? then Fault(UnknownField, |s1|)
    else if OpLen(s2) == 0 then OpFault(s2)
    else
      var list, s3 := OpOf(s2[..OpLen(s2)]) == In, Trim(s2[OpLen(s2)..]);
      match ReadOperand(list, s3)
      case None => OperandFault(list, s3)
      case Some((v, rest)) => Fault(InvalidMatch, if v.Scalar? then Unread(v.val, rest) else |rest|)
  }

  function OneFault(s: string): Fault
    requires ReadOne(s).None?
    decreases |s|, 0
  {
    if s == "" then TestFault(s)
    else if s[0] == ')' then Fault(UnexpectedCloseBrace, |s| - 1)
    else if s[0] == '(' then
      match ReadExpr(Trim(s[1..]))
      case None => ExprFault(Trim(s[1..]))
      case Some((_, rest)) => Fault(MissingCloseBrace, if rest == "" then 0 else |rest| - 1)
    else if s[0] == '!' then OneFault(Trim(s[1..]))
    else TestFault(s)
  }

  function ExprFault(s: string): Fault
    requires ReadExpr(s).None?
    decreases |s|, 1
  {
    match ReadOne(s)
    case None => OneFault(s)
    case Some((_, rest)) =>
      if rest[0] != '|' && rest[0] != '&' then Fault(InvalidOperator, |rest|) else OneFault(Trim(rest[1..]))
  }

  function ParseFault(s: string): Fault
    requires Parse(s).None?
  {
    match ReadExpr(Trim(s))
    case None => ExprFault(Trim(s))
    case Some((_, rest)) => Fault(JunkAtEnd, |rest| - 1)
  }
}

/** Concrete lookups in CSOM response lists, as lemmas about the model. */
module CsomResponseExamples {
  import opened CsomResponseHelper

  function Raw(t: Token): Token { t }

  function Id(n: Int64): Token { Num(IntegerLiteral(n)) }

  /** The first of two equal identifiers wins, so its successor is the second one. */
  lemma RepeatedIdentifierReturnsSecond()
    ensures ProcessResponse([Id(5), Id(5), Str("x")], 5, Raw) == Found(Id(5))
  {
  }

  /** With duplicate identifiers, the value of the first pairing is read. */
  lemma FirstPairingWins()
    ensures ProcessResponse([Id(1), Str("a"), Id(1), Str("b")], 1, Raw) == Found(Str("a"))
  {
  }

  /** A missing identifier gives the default value rather than an error. */
  lemma MissingIdentifierIsAbsent()
    ensures ProcessResponse([Id(7), Str("a")], 9, Raw) == Absent
  {
  }

  /** An identifier in the last position has no successor to read. */
  lemma TrailingIdentifierIsOutOfRange()
    ensures ProcessResponse([Id(1), Str("a"), Id(2)], 2, Raw) == OutOfRange
  {
  }

  /**
   * The search does not know which positions hold identifiers: a value that
   * equals the identifier is matched too, and the token after it is read.
   */
  lemma ValueEqualToIdentifierIsMatched()
    ensures ProcessResponse([Id(1), Id(2), Id(2), Str("b")], 2, Raw) == Found(Id(2))
  {
  }

  /** Numbers written with a fraction, and integers beyond 64 bits, are never identifiers. */
  lemma NonIntegralNumbersNeverMatch(id: Int64)
    ensures !CompareIdElement(Num(FractionOrExponent(5.0)), id)
    ensures !CompareIdElement(Num(IntegerLiteral(0x8000_0000_0000_0000)), id)
    ensures !CompareIdElement(Str("5"), id)
  {
  }
}

/**
 * The correlation lookup of a CSOM response: the response is a flat array of
 * JSON tokens in which a bare integer token (a property identifier) names the
 * token that follows it.  `ProcessResponse` finds the first token equal to the
 * requested identifier and decodes its successor.
 */
module CsomResponseHelper {

  /** A signed 64-bit integer, the type of the property identifier. */
  type Int64 = x: int | -0x8000_0000_0000_0000 <= x <= 0x7FFF_FFFF_FFFF_FFFF

  /**
   * The text of a JSON number: an integer literal (digits only, with an
   * optional minus sign) or a literal with a fraction or an exponent part.
   */
  datatype NumberLiteral = IntegerLiteral(digits: int) | FractionOrExponent(approx: real)

  /** A parsed JSON value, as the serializer hands out its elements. */
  datatype Token =
    | Num(literal: NumberLiteral)
    | Str(s: string)
    | Bool(b: bool)
    | Null
    | Arr(elements: seq<Token>)
    | Obj(members: seq<(string, Token)>)

  datatype TryResult = Parsed(value: Int64) | NotParsed

  /**
   * The JSON number reading as a 64-bit integer: it succeeds only for an
   * integer literal that fits, so "5.0", "5e0" and 2^63 are all refused.
   */
  function TryGetInt64(n: NumberLiteral): (r: TryResult)
    ensures r.Parsed? <==> n.IntegerLiteral? && -0x8000_0000_0000_0000 <= n.digits <= 0x7FFF_FFFF_FFFF_FFFF
    ensures r.Parsed? ==> r.value == n.digits
  {
    match n
    case IntegerLiteral(d) =>
      if -0x8000_0000_0000_0000 <= d <= 0x7FFF_FFFF_FFFF_FFFF then Parsed(d) else NotParsed
    case FractionOrExponent(_) => NotParsed
  }

  /** Whether `element` is a number token that reads as the 64-bit integer `id`. */
  function CompareIdElement(element: Token, id: Int64): (b: bool)
    ensures b <==> element == Num(IntegerLiteral(id))
  {
    if element.Num? && TryGetInt64(element.literal).Parsed? then
      TryGetInt64(element.literal).value == id
    else
      false
  }

  /** `i` is the lowest index of `results` holding the identifier `id`. */
  predicate IsFirstMatch(results: seq<Token>, id: Int64, i: int) {
    0 <= i < |results| && CompareIdElement(results[i], id) &&
    forall j :: 0 <= j < i ==> !CompareIdElement(results[j], id)
  }

  /** No token of `results` holds the identifier `id`. */
  predicate NoMatch(results: seq<Token>, id: Int64) {
    forall j :: 0 <= j < |results| ==> !CompareIdElement(results[j], id)
  }

  /**
   * `List.FindIndex` with `CompareIdElement` as the predicate: the lowest
   * matching index, or -1 when no token matches.
   */
  function FindIndex(results: seq<Token>, id: Int64): (r: int)
    ensures -1 <= r < |results|
    ensures r >= 0 ==> IsFirstMatch(results, id, r)
    ensures r == -1 <==> NoMatch(results, id)
  {
    if results == [] then -1
    else if CompareIdElement(results[0], id) then 0
    else
      var k := FindIndex(results[1..], id);
      assert k >= 0 ==> results[1..][k] == results[k + 1];
      if k == -1 then -1 else k + 1
  }

  /**
   * The outcome of a lookup: the decoded successor of the identifier,
   * `default(T)` when the identifier is absent, or the failure of reading
   * past the end of the list when the identifier is its last token.
   */
  datatype Lookup<T> = Absent | Found(value: T) | OutOfRange

  /**
   * The lookup of `id` in the deserialized response list `results`;
   * `deserialize` stands for decoding a token's raw text into `T`.
   */
  function ProcessResponse<T>(results: seq<Token>, id: Int64, deserialize: Token -> T): (r: Lookup<T>)
    ensures r.Absent? <==> NoMatch(results, id)
    ensures forall i :: IsFirstMatch(results, id, i) && i + 1 < |results| ==> r == Found(deserialize(results[i + 1]))
    ensures forall i :: IsFirstMatch(results, id, i) && i + 1 == |results| ==> r.OutOfRange?
  {
    var idIndex := FindIndex(results, id);
    if idIndex >= 0 then
      if idIndex + 1 < |results| then Found(deserialize(results[idIndex + 1])) else OutOfRange
    else
      Absent
  }

  /** Tokens that do not hold the identifier can be put in front without changing the lookup. */
  lemma {:induction false} SkipNonMatchingPrefix<T>(prefix: seq<Token>, results: seq<Token>, id: Int64, deserialize: Token -> T)
    requires NoMatch(prefix, id)
    ensures ProcessResponse(prefix + results, id, deserialize) == ProcessResponse(results, id, deserialize)
  {
    var all := prefix + results;
    if NoMatch(results, id) {
      assert NoMatch(all, id) by {
        forall j | 0 <= j < |all|
          ensures !CompareIdElement(all[j], id)
        {
          if j >= |prefix| {
            assert all[j] == results[j - |prefix|];
          }
        }
      }
    } else {
      var i := FindIndex(results, id);
      assert IsFirstMatch(all, id, i + |prefix|) by {
        assert all[i + |prefix|] == results[i];
        forall j | 0 <= j < i + |prefix|
          ensures !CompareIdElement(all[j], id)
        {
          if j >= |prefix| {
            assert all[j] == results[j - |prefix|];
          }
        }
      }
      if i + 1 < |results| {
        assert all[i + |prefix| + 1] == results[i + 1];
      }
    }
  }

  /** Tokens after the successor of the first match are never looked at. */
  lemma IgnoresTokensAfterSuccessor<T>(results: seq<Token>, rest: seq<Token>, id: Int64, i: nat, deserialize: Token -> T)
    requires IsFirstMatch(results, id, i) && i + 1 < |results|
    ensures ProcessResponse(results + rest, id, deserialize) == ProcessResponse(results, id, deserialize)
  {
    var all := results + rest;
    assert all[i] == results[i] && all[i + 1] == results[i + 1];
    assert IsFirstMatch(all, id, i) by {
      forall j | 0 <= j < i
        ensures !CompareIdElement(all[j], id)
      {
        assert all[j] == results[j];
      }
    }
  }

  /**
   * When the identifier is missing the lookup is absent, and once it is
   * appended last the lookup fails instead.
   */
  lemma AppendedIdentifierIsOutOfRange<T>(results: seq<Token>, id: Int64, deserialize: Token -> T)
    requires NoMatch(results, id)
    ensures ProcessResponse(results, id, deserialize) == Absent
    ensures ProcessResponse(results + [Num(IntegerLiteral(id))], id, deserialize) == OutOfRange
  {
    var all := results + [Num(IntegerLiteral(id))];
    assert IsFirstMatch(all, id, |results|) by {
      forall j | 0 <= j < |results|
        ensures !CompareIdElement(all[j], id)
      {
        assert all[j] == results[j];
      }
    }
  }
}

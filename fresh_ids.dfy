/**
 * Generated identifiers. The hub draws callback ids from `randomUUIDv7`, the
 * validator from `randomUUID`, and the database names new validators with generated
 * ids. The protocol relies only on each draw being new, so an identifier is modelled
 * as the serial number of its draw from a counter. Where an identifier is spliced
 * into a signed text it is written in decimal; `ParseId` reads that text back,
 * which is what makes the rendering injective.
 */
module FreshIds {
  import opened Wrappers

  /** An identifier: the serial number of its draw. */
  type Id = nat

  /** Every identifier in `ids` was drawn before the `n`-th draw. */
  ghost predicate IssuedBefore(ids: set<Id>, n: nat) {
    forall id :: id in ids ==> id < n
  }

  predicate IsDigit(c: char) {
    '0' <= c <= '9'
  }

  function DigitChar(d: nat): (c: char)
    requires d < 10
    ensures IsDigit(c) && (c as int) - ('0' as int) == d
  {
    (('0' as int) + d) as char
  }

  /** The decimal text of an identifier. */
  function IdText(n: Id): (s: string)
    ensures |s| >= 1
    ensures forall i :: 0 <= i < |s| ==> IsDigit(s[i])
  {
    if n < 10 then [DigitChar(n)] else IdText(n / 10) + [DigitChar(n % 10)]
  }

  /** Reads a decimal text back; `None` for an empty text or a non-digit. */
  function ParseId(s: string): Option<Id>
    decreases |s|
  {
    if |s| == 0 || !IsDigit(s[|s| - 1]) then None
    else
      var d := (s[|s| - 1] as int) - ('0' as int);
      if |s| == 1 then Some(d)
      else match ParseId(s[..|s| - 1])
        case None => None
        case Some(p) => Some(p * 10 + d)
  }

  /** Reading the text of an identifier gives the identifier back. */
  lemma {:induction false} ParseIdText(n: Id)
    ensures ParseId(IdText(n)) == Some(n)
  {
    if n >= 10 {
      var s := IdText(n);
      assert s[..|s| - 1] == IdText(n / 10);
      ParseIdText(n / 10);
    }
  }

  /** Distinct identifiers have distinct texts. */
  lemma IdTextInjective(a: Id, b: Id)
    ensures IdText(a) == IdText(b) ==> a == b
  {
    ParseIdText(a);
    ParseIdText(b);
  }

  /** An identifier's text never contains a comma, which keeps the signup text unambiguous. */
  lemma IdTextHasNoComma(n: Id)
    ensures ',' !in IdText(n)
  {
  }
}

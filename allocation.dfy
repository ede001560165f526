/** The identifier allocator of the transactional-bundle generator (`uid` in
    bin/fhir.py). The Python code keeps its counter in the module global `base`;
    here it is the field of an `Allocator` object, so a fresh object is a reset. */
module Allocation {
  import opened Wrappers
  import opened Text

  /** The token `uid(kind)` returns once the counter has reached `n`, kept
      as the pair it is printed from. */
  datatype Token = Token(kind: Option<string>, n: nat)

  /** The text of a token: `str(n)` without a kind, `"<kind>/<n>"` with one. */
  function Render(t: Token): string {
    match t.kind
    case None => NatToString(t.n)
    case Some(k) => k + "/" + NatToString(t.n)
  }

  /** The counter value a token carries: the digits after its last `/`. */
  function SequenceNumber(token: string): Option<nat> {
    ParseNat(LastSegment(token, '/'))
  }

  /** `SequenceNumber` reads back the counter value a token's text was
      printed from, whatever the kind. */
  lemma RenderSequenceNumber(t: Token)
    ensures SequenceNumber(Render(t)) == Some(t.n)
  {
    var d := NatToString(t.n);
    DigitsExclude(d, '/');
    match t.kind {
      case None =>
        LastSegmentWhole(d, '/');
      case Some(k) =>
        assert k + "/" + d == k + ['/'] + d;
        LastSegmentAfter(k, '/', d);
    }
    ParseNatToString(t.n);
  }

  /** Tokens drawn at different counter values differ, whatever their kinds:
      no token repeats within one run. */
  lemma TokensDistinct(t1: Token, t2: Token)
    requires t1.n != t2.n
    ensures Render(t1) != Render(t2)
  {
    RenderSequenceNumber(t1);
    RenderSequenceNumber(t2);
  }

  class Allocator {
    /** The shared counter: the number of tokens issued so far. */
    var base: nat

    constructor ()
      ensures base == 0
    {
      base := 0;
    }

    /** `uid(resource_type)`: advance the one counter shared by every kind,
        then render it. */
    method Uid(kind: Option<string>) returns (token: Token)
      modifies this
      ensures base == old(base) + 1
      ensures token == Token(kind, base)
    {
      base := base + 1;
      token := Token(kind, base);
    }
  }
}

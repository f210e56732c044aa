/** A member's control grants: a 16-bit mask on disk, a list of enumeration values on the wire. */
module Permissions {
  const SEEK := 1
  const PAUSE_PLAY := 2
  const SWITCH_QUEUE := 3
  const ADD_QUEUE := 4
  const REMOVE_QUEUE := 5

  predicate Known(v: int)
  {
    SEEK <= v <= REMOVE_QUEUE
  }

  /** The bit of a wire value; none for an unknown one. */
  function Bit(v: int): bv16
  {
    if v == SEEK then 1
    else if v == PAUSE_PLAY then 2
    else if v == SWITCH_QUEUE then 4
    else if v == ADD_QUEUE then 8
    else if v == REMOVE_QUEUE then 16
    else 0
  }

  predicate Has(p: bv16, want: bv16)
  {
    p & want == want
  }

  function Mask(values: seq<int>): bv16
  {
    if values == [] then 0 else Mask(values[..|values| - 1]) | Bit(values[|values| - 1])
  }

  lemma BitUnion(p: bv16, v: int, w: int)
    requires Known(v)
    ensures (p | Bit(w)) & Bit(v) != 0 <==> p & Bit(v) != 0 || v == w
  {
    assert v == w ==> (p | Bit(v)) & Bit(v) == Bit(v);
  }

  /** The mask of a list has exactly the bits of its known values and no other bit. */
  lemma {:induction false} MaskHolds(values: seq<int>, v: int)
    requires Known(v)
    ensures Mask(values) & Bit(v) != 0 <==> v in values
    ensures Mask(values) & 0xFFE0 == 0
  {
    if values != [] {
      var n := |values| - 1;
      MaskHolds(values[..n], v);
      BitUnion(Mask(values[..n]), v, values[n]);
      assert values == values[..n] + [values[n]];
    }
  }

  /** Value v is stored as bit v - 1. */
  lemma {:induction false} MaskIsBits(values: seq<int>)
    ensures Mask(values) == (if 1 in values then 1 else 0) | (if 2 in values then 2 else 0)
                          | (if 3 in values then 4 else 0) | (if 4 in values then 8 else 0)
                          | (if 5 in values then 16 else 0)
  {
    if values != [] {
      var n := |values| - 1;
      MaskIsBits(values[..n]);
      assert forall v :: v in values <==> v in values[..n] || v == values[n];
    }
  }

  method FromProto(values: seq<int>) returns (p: bv16)
    ensures p == Mask(values)
    ensures forall v | Known(v) :: Has(p, Bit(v)) <==> v in values
  {
    p := 0;
    for i := 0 to |values|
      invariant p == Mask(values[..i])
    {
      p := p | Bit(values[i]);
      assert values[..i + 1][..i] == values[..i];
    }
    assert values[..|values|] == values;
    forall v | Known(v)
      ensures Has(p, Bit(v)) <==> v in values
    {
      MaskHolds(values, v);
      OneBit(p, v);
    }
  }

  lemma OneBit(p: bv16, v: int)
    ensures Has(p, Bit(v)) <==> Bit(v) == 0 || p & Bit(v) != 0
  {
  }

  function Listed(p: bv16, upTo: nat): seq<int>
  {
    if upTo == 0 then []
    else Listed(p, upTo - 1) + if p & Bit(upTo) != 0 then [upTo] else []
  }

  function Values(p: bv16): seq<int>
  {
    Listed(p, REMOVE_QUEUE)
  }

  lemma {:induction false} ListedHas(p: bv16, upTo: nat, v: int)
    ensures v in Listed(p, upTo) <==> 1 <= v <= upTo && p & Bit(v) != 0
  {
    if upTo > 0 {
      ListedHas(p, upTo - 1, v);
      AppendHas(Listed(p, upTo - 1), upTo, p & Bit(upTo) != 0, v);
    }
  }

  lemma AppendHas(xs: seq<int>, x: int, add: bool, v: int)
    ensures v in xs + (if add then [x] else []) <==> v in xs || (add && v == x)
  {
  }

  predicate Ascends(xs: seq<int>, top: int)
  {
    (forall i | 0 <= i < |xs| :: xs[i] <= top) && forall i, j | 0 <= i < j < |xs| :: xs[i] < xs[j]
  }

  lemma AppendAscends(xs: seq<int>, x: int, add: bool)
    requires Ascends(xs, x - 1)
    ensures Ascends(xs + if add then [x] else [], x)
  {
  }

  lemma {:induction false} ListedAscends(p: bv16, upTo: nat)
    ensures Ascends(Listed(p, upTo), upTo)
  {
    if upTo > 0 {
      ListedAscends(p, upTo - 1);
      AppendAscends(Listed(p, upTo - 1), upTo, p & Bit(upTo) != 0);
    }
  }

  method ToProto(p: bv16) returns (values: seq<int>)
    ensures values == Values(p)
    ensures forall v :: v in values <==> Known(v) && p & Bit(v) != 0
    ensures forall i, j | 0 <= i < j < |values| :: values[i] < values[j]
  {
    values := [];
    for v := 1 to REMOVE_QUEUE + 1
      invariant values == Listed(p, v - 1)
    {
      if p & Bit(v) != 0 {
        values := values + [v];
      }
    }
    ListedAscends(p, REMOVE_QUEUE);
    forall v: int
      ensures v in values <==> Known(v) && p & Bit(v) != 0
    {
      ListedHas(p, REMOVE_QUEUE, v);
    }
  }

  /** List to mask to list: the known values, each once, in enumeration order. */
  lemma ListRoundTrip(values: seq<int>, v: int)
    ensures v in Values(Mask(values)) <==> Known(v) && v in values
  {
    ListedHas(Mask(values), REMOVE_QUEUE, v);
    if Known(v) {
      MaskHolds(values, v);
    }
  }

  lemma NothingListed(v: int)
    ensures v !in Values(0)
  {
    ListedHas(0, REMOVE_QUEUE, v);
  }

  lemma BitsDetermine(p: bv16, q: bv16)
    requires p & 0xFFE0 == 0 && q & 0xFFE0 == 0
    requires p & 1 == q & 1 && p & 2 == q & 2 && p & 4 == q & 4 && p & 8 == q & 8 && p & 16 == q & 16
    ensures p == q
  {
    assert p == (p & 1) | (p & 2) | (p & 4) | (p & 8) | (p & 16);
  }

  lemma BitsEqual(p: bv16, q: bv16, v: int)
    requires Known(v) && (p & Bit(v) != 0 <==> q & Bit(v) != 0)
    ensures p & Bit(v) == q & Bit(v)
  {
    OneBit(p, v);
    OneBit(q, v);
  }

  lemma ListedBit(p: bv16, v: int)
    requires Known(v)
    ensures p & Bit(v) == Mask(Values(p)) & Bit(v)
  {
    ListedHas(p, REMOVE_QUEUE, v);
    MaskHolds(Values(p), v);
    BitsEqual(p, Mask(Values(p)), v);
  }

  lemma NoUnknownBits(values: seq<int>)
    ensures Mask(values) & 0xFFE0 == 0
  {
    MaskHolds(values, SEEK);
  }

  lemma KnownBitsReturn(p: bv16)
    requires p & 0xFFE0 == 0
    ensures Mask(Values(p)) == p
  {
    NoUnknownBits(Values(p));
    ListedBit(p, 1);
    ListedBit(p, 2);
    ListedBit(p, 3);
    ListedBit(p, 4);
    ListedBit(p, 5);
    BitsDetermine(p, Mask(Values(p)));
  }

  /** Mask to list to mask: exactly when no bit outside the five known ones is set. */
  lemma MaskRoundTripIff(p: bv16)
    ensures Mask(Values(p)) == p <==> p & 0xFFE0 == 0
  {
    NoUnknownBits(Values(p));
    if p & 0xFFE0 == 0 {
      KnownBitsReturn(p);
    }
  }
}

/**
 Serial arithmetic on the 22-bit sequence numbers of the protocol, beside the
 unbounded numbering it stands for.

 `Numbering` selects between the two: `Wrapping` is what the program computes
 on, `Unbounded` is the same protocol on integers that never wrap. All step
 functions of the model take a `Numbering`, so one text describes both.
 */
module SeqNum {

  const MAX_SEQ_NUM := 0x3F_FFFF
  const HALF_MAX_SEQ_NUM := 0x20_0000

  /** The residue that the 22-bit field of a frame header carries. */
  function Wrap(x: int): int {
    x % 0x40_0000
  }

  function Sign(d: int): int {
    if d == 0 then 0 else if d > 0 then 1 else -1
  }

  /** The program's comparison: sign of the shorter way round the circle. */
  function Cmp(a: int, b: int): int {
    var diff := a - b;
    if diff == 0 then 0
    else if diff > 0 then
      if diff < HALF_MAX_SEQ_NUM then 1 else -1
    else
      if -diff < HALF_MAX_SEQ_NUM then -1 else 1
  }

  function Prev(s: int): int {
    if s - 1 < 0 then MAX_SEQ_NUM else s - 1
  }

  function Next(s: int): int {
    (s + 1) % 0x40_0000
  }

  /** The ack number that an endpoint prints, after another one has come in. */
  function Newer(acked: int, ack: int): int {
    if Cmp(ack, acked) > 0 then ack else acked
  }

  datatype Numbering = Unbounded | Wrapping {
    function Compare(a: int, b: int): int {
      if Wrapping? then Cmp(a, b) else Sign(a - b)
    }

    function Succ(s: int): int {
      if Wrapping? then Next(s) else s + 1
    }

    function Pred(s: int): int {
      if Wrapping? then Prev(s) else s - 1
    }
  }

  /** What a caller can check of a distance `d > 0`, and of which of the two
      residues is the larger number, to know that the comparison is right. */
  predicate Unambiguous(d: int, aheadIsSmaller: bool) {
    0 < Wrap(d) < HALF_MAX_SEQ_NUM || (Wrap(d) == HALF_MAX_SEQ_NUM && aheadIsSmaller)
  }

  /** For all pairs: the wrapped comparison agrees with the true order exactly
      when the distance is unambiguous. */
  lemma CmpExactIff(a: int, b: int)
    ensures Cmp(Wrap(a), Wrap(b)) == Sign(a - b)
      <==> (a == b
            || (a > b && Unambiguous(a - b, Wrap(a) < Wrap(b)))
            || (a < b && Unambiguous(b - a, Wrap(b) < Wrap(a))))
  {
    var qa, qb := a / 0x40_0000, b / 0x40_0000;
    assert a == qa * 0x40_0000 + Wrap(a) && b == qb * 0x40_0000 + Wrap(b);
    WrapOfDifference(a, b);
    WrapOfDifference(b, a);
  }

  lemma WrapOfDifference(a: int, b: int)
    ensures Wrap(a - b) == if Wrap(a) >= Wrap(b) then Wrap(a) - Wrap(b) else Wrap(a) - Wrap(b) + 0x40_0000
  {
  }

  /** Numbers less than half the circle apart are always ordered correctly, so
      every arc shorter than that is strictly ordered across the wrap. */
  lemma CmpExact(a: int, b: int)
    requires -HALF_MAX_SEQ_NUM < a - b < HALF_MAX_SEQ_NUM
    ensures Cmp(Wrap(a), Wrap(b)) == Sign(a - b)
  {
    CmpExactIff(a, b);
  }

  /** Antisymmetry holds on every pair, the half-way pair included. */
  lemma CmpAntisymmetric(a: int, b: int)
    ensures Cmp(a, b) == -Cmp(b, a)
  {
  }

  /** Succ and Pred commute with wrapping and undo each other across the wrap. */
  lemma NextPrevWrap(x: int)
    ensures Next(Wrap(x)) == Wrap(x + 1)
    ensures Prev(Wrap(x)) == Wrap(x - 1)
    ensures Prev(Next(Wrap(x))) == Wrap(x) == Next(Prev(Wrap(x)))
  {
  }

  lemma WrapPlus(x: int, d: int)
    ensures Wrap(Wrap(x) + d) == Wrap(x + d)
  {
  }
}

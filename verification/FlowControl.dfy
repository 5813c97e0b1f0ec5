/**
 Per-channel credits: `credits` is what an endpoint may still spend, and
 `txFlowCredits` what it owes its peer. Owed credits travel as powers of two.
 */
module FlowControl {
  import opened TileLinkMsg

  const CREDIT_INIT := 7
  const CREDIT_DEFAULT := 10

  /** One counter a channel, channel 0 included. */
  type Counters = c: seq<nat> | |c| == CHANNEL_NUM witness [0, 0, 0, 0, 0, 0]

  type Channel = c: nat | c < CHANNEL_NUM

  function Sum(c: Counters): nat {
    c[0] + c[1] + c[2] + c[3] + c[4] + c[5]
  }

  // ---------- the greedy choice of what to return ----------

  /** First channel with the largest pool among the first `k`. */
  function MaxChannel(pools: Counters, k: nat): (c: nat)
    requires 1 <= k <= CHANNEL_NUM
    ensures c < k
    ensures forall i :: 0 <= i < k ==> pools[i] <= pools[c]
    ensures forall i :: 0 <= i < c ==> pools[i] < pools[c]
    ensures c != 0 ==> pools[0] < pools[c]
  {
    if k == 1 then 0
    else
      var c := MaxChannel(pools, k - 1);
      if pools[k - 1] <= pools[c] then c else k - 1
  }

  /** Exponent of the largest power of two that is at most `v`, the place of the
      highest one bit. */
  function LargestPow(v: nat): (e: nat)
    requires v > 0
    ensures Pow2(e) <= v < Pow2(e + 1)
  {
    if v == 1 then 0 else 1 + LargestPow(v / 2)
  }

  lemma LargestPowBound(v: nat, e: nat)
    requires 0 < v < Pow2(e)
    ensures LargestPow(v) < e
  {
    if e <= LargestPow(v) {
      Pow2Monotone(e, LargestPow(v));
    }
  }

  /** The exponents sent when a pool of `n` is drained, one frame after another. */
  function Drain(n: nat): (es: seq<nat>)
    decreases n
  {
    if n == 0 then [] else [LargestPow(n)] + Drain(n - Pow2(LargestPow(n)))
  }

  function OneBits(n: nat): nat {
    if n == 0 then 0 else n % 2 + OneBits(n / 2)
  }

  function SumOfPowers(es: seq<nat>): nat {
    if es == [] then 0 else Pow2(es[0]) + SumOfPowers(es[1..])
  }

  ghost predicate StrictlyDecreasing(es: seq<nat>) {
    forall i, j :: 0 <= i < j < |es| ==> es[i] > es[j]
  }

  lemma {:induction false} OneBitsOfDouble(q: nat, r: nat)
    requires r < 2
    ensures OneBits(2 * q + r) == r + OneBits(q)
  {
    var n := 2 * q + r;
    if n > 0 {
      assert n / 2 == q && n % 2 == r;
    }
  }

  lemma {:induction false} RemoveTopBit(n: nat)
    requires n > 0
    ensures OneBits(n) == 1 + OneBits(n - Pow2(LargestPow(n)))
    ensures n < 2 * Pow2(LargestPow(n))
  {
    var half, low := n / 2, n % 2;
    assert n == 2 * half + low;
    if half == 0 {
      assert OneBits(1) == 1 + OneBits(0);
    } else {
      RemoveTopBit(half);
      TopBitOfDouble(n, half, low, Pow2(LargestPow(half)));
    }
  }

  lemma {:induction false} TopBitOfDouble(n: nat, half: nat, low: nat, top: nat)
    requires low < 2 && top <= half && n == 2 * half + low
    requires OneBits(half) == 1 + OneBits(half - top)
    ensures OneBits(n) == 1 + OneBits(n - 2 * top)
  {
    OneBitsOfDouble(half, low);
    OneBitsOfDouble(half - top, low);
    assert 2 * half + low - 2 * top == 2 * (half - top) + low;
  }

  /** Greedy return is the binary expansion: one frame for each one bit, exponents
      strictly decreasing, and nothing lost or invented. */
  lemma {:induction false} DrainIsBinaryExpansion(n: nat)
    ensures SumOfPowers(Drain(n)) == n
    ensures |Drain(n)| == OneBits(n)
    ensures StrictlyDecreasing(Drain(n))
    ensures n > 0 ==> Drain(n)[0] == LargestPow(n)
    decreases n
  {
    if n > 0 {
      var rest := n - Pow2(LargestPow(n));
      RemoveTopBit(n);
      DrainIsBinaryExpansion(rest);
      if rest > 0 {
        LargestPowBound(rest, LargestPow(n));
      }
      assert Drain(n)[1..] == Drain(rest);
    }
  }

  /** The selection is sound for a pool array whose channel 0 is empty: it is 0
      only when nothing is owed, and an exponent below 1024 * 1024 fits the field. */
  lemma SelectionSound(pools: Counters)
    requires pools[0] == 0
    ensures MaxChannel(pools, CHANNEL_NUM) == 0 <==> Sum(pools) == 0
    ensures var c := MaxChannel(pools, CHANNEL_NUM);
            c != 0 ==> pools[c] > 0 && (pools[c] <= 1024 ==> LargestPow(pools[c]) <= CREDIT_DEFAULT)
  {
    var c := MaxChannel(pools, CHANNEL_NUM);
    if c != 0 && pools[c] <= 1024 {
      assert Pow2(11) == 2048;
      LargestPowBound(pools[c], 11);
    }
  }

  // ---------- what one frame does to the counters ----------

  predicate CanPay(credits: Counters, h: TlHeader)
    requires h.chan < CHANNEL_NUM
  {
    h.chan != 0 && credits[h.chan] >= Flits(h)
  }

  function Pay(credits: Counters, h: TlHeader): (c: Counters)
    requires h.chan < CHANNEL_NUM && CanPay(credits, h)
  {
    credits[h.chan := credits[h.chan] - Flits(h)]
  }

  function Gain(credits: Counters, chan: Channel, exponent: nat): (c: Counters) {
    if chan == 0 then credits else credits[chan := credits[chan] + Pow2(exponent)]
  }

  function Owe(owed: Counters, chan: Channel, flits: nat): (c: Counters) {
    owed[chan := owed[chan] + flits]
  }

  function Return(owed: Counters, chan: Channel): (c: Counters)
    requires chan != 0 ==> owed[chan] > 0
  {
    if chan == 0 then owed else owed[chan := owed[chan] - Pow2(LargestPow(owed[chan]))]
  }

  class FlowControl {
    const credits: array<nat>
    const txFlowCredits: array<nat>

    ghost predicate Valid()
      reads this
    {
      credits != txFlowCredits && credits.Length == txFlowCredits.Length == CHANNEL_NUM
    }

    ghost function Credits(): Counters
      requires Valid()
      reads this, credits
    {
      credits[..]
    }

    ghost function Owed(): Counters
      requires Valid()
      reads this, txFlowCredits
    {
      txFlowCredits[..]
    }

    constructor ()
      ensures Valid() && fresh(credits) && fresh(txFlowCredits)
      ensures Credits() == [128, 128, 128, 128, 128, 128] && Owed() == [0, 0, 0, 0, 0, 0]
    {
      credits := new nat[CHANNEL_NUM];
      txFlowCredits := new nat[CHANNEL_NUM];
      new;
      assert Pow2(CREDIT_INIT) == 128;
      for i := 0 to CHANNEL_NUM
        invariant credits != txFlowCredits && credits.Length == txFlowCredits.Length == CHANNEL_NUM
        invariant forall k :: 0 <= k < i ==> credits[k] == 128 && txFlowCredits[k] == 0
      {
        SetCredit(i, CREDIT_INIT);
      }
    }

    method SetCredit(channel: Channel, credit: nat)
      requires Valid()
      modifies credits, txFlowCredits
      ensures Credits() == old(Credits())[channel := Pow2(credit)]
      ensures Owed() == old(Owed())[channel := 0]
    {
      credits[channel] := Pow2(credit);
      txFlowCredits[channel] := 0;
    }

    method CheckAllChannels() returns (filled: bool)
      requires Valid()
      ensures filled <==> forall c :: 1 <= c < CHANNEL_NUM ==> Credits()[c] > Pow2(CREDIT_INIT)
    {
      var init := Pow2(CREDIT_INIT);
      filled := credits[CHANNEL_A] > init && credits[CHANNEL_B] > init && credits[CHANNEL_C] > init
                && credits[CHANNEL_D] > init && credits[CHANNEL_E] > init;
      ghost var c := Credits();
      assert c[1] == credits[1] && c[2] == credits[2] && c[3] == credits[3] && c[4] == credits[4] && c[5] == credits[5];
    }

    method CreditInc(chan: Channel, exponent: nat)
      requires Valid()
      modifies credits
      ensures Credits() == Gain(old(Credits()), chan, exponent)
      ensures forall c :: 0 <= c < CHANNEL_NUM ==>
                Credits()[c] == old(Credits())[c] + if c == chan && c != 0 then Pow2(exponent) else 0
    {
      if chan != 0 {
        credits[chan] := credits[chan] + Pow2(exponent);
      }
    }

    /** Charges a message; -1 and no change when the channel cannot pay. */
    method CreditDec(h: TlHeader) returns (paid: int)
      requires Valid() && h.chan < CHANNEL_NUM
      modifies credits
      ensures CanPay(old(Credits()), h) ==> paid == Flits(h) && Credits() == Pay(old(Credits()), h)
      ensures !CanPay(old(Credits()), h) ==> paid == -1 && Credits() == old(Credits())
      ensures paid != -1 <==> h.chan != 0 && Flits(h) <= old(Credits())[h.chan]
      ensures forall c :: 0 <= c < CHANNEL_NUM ==>
                Credits()[c] == old(Credits())[c] - if c == h.chan && paid != -1 then Flits(h) else 0
    {
      paid := -1;
      if h.chan != 0 {
        var cost := Flits(h);
        if credits[h.chan] >= cost {
          credits[h.chan] := credits[h.chan] - cost;
          paid := cost;
        }
      }
    }

    method AddChannelFlowCredits(chan: Channel, flits: nat)
      requires Valid()
      modifies txFlowCredits
      ensures Owed() == Owe(old(Owed()), chan, flits)
    {
      txFlowCredits[chan] := txFlowCredits[chan] + flits;
    }

    method GetOutgoingCredits(chan: Channel) returns (exponent: nat)
      requires Valid() && chan != 0 && Owed()[chan] > 0
      modifies txFlowCredits
      ensures exponent == LargestPow(old(Owed())[chan])
      ensures Owed() == Return(old(Owed()), chan)
    {
      exponent := LargestPow(txFlowCredits[chan]);
      txFlowCredits[chan] := txFlowCredits[chan] - Pow2(exponent);
    }

    method SelectMaxCreditChannel() returns (chan: Channel)
      requires Valid()
      ensures chan == MaxChannel(Owed(), CHANNEL_NUM)
    {
      var max := txFlowCredits[0];
      chan := 0;
      for i := 1 to CHANNEL_NUM
        invariant chan == MaxChannel(Owed(), i)
        invariant max == Owed()[chan]
      {
        if txFlowCredits[i] <= max {
          continue;
        }
        max := txFlowCredits[i];
        chan := i;
      }
    }
  }
}

// pkg/cli/create_docker.go (findTailIPs): the last addresses of an IPv4 subnet, in 32-bit arithmetic.
module TailIPs {
  const TWO32: nat := 0x1_0000_0000

  function Pow2(n: nat): (p: nat)
    ensures p > 0
  {
    if n == 0 then 1 else 2 * Pow2(n - 1)
  }

  // Bitwise or.
  function Or(a: nat, b: nat): nat {
    if a == 0 then b else if b == 0 then a
    else 2 * Or(a / 2, b / 2) + if a % 2 == 0 && b % 2 == 0 then 0 else 1
  }

  /** Bit by bit. */
  lemma {:induction false} OrBits(a: nat, b: nat)
    ensures Or(a, b) % 2 == (if a % 2 == 1 || b % 2 == 1 then 1 else 0) && Or(a, b) / 2 == Or(a / 2, b / 2)
  {
  }

  // Unsigned subtraction; the right operand is converted to 32 bits first.
  function Sub32(a: nat, b: nat): (d: nat)
    requires a < TWO32
    ensures b <= a ==> d == a - b
    ensures a < b < TWO32 ==> d == TWO32 + a - b
    ensures b == TWO32 ==> d == a
  {
    (a - b % TWO32) % TWO32
  }

  function Not32(a: nat): nat
    requires a < TWO32
  {
    TWO32 - 1 - a
  }

  // An IPv4 subnet as net.ParseCIDR returns it: the network address has no host bits.
  datatype Subnet = Subnet(network: nat, hostBits: nat) {
    predicate Valid() {
      hostBits <= 32 && network % Pow2(hostBits) == 0 && network + Pow2(hostBits) <= TWO32
    }

    function Mask(): nat
      requires Valid()
    {
      TWO32 - Pow2(hostBits)
    }

    // The last address, all host bits set.
    function Broadcast(): nat
      requires Valid()
    {
      network + Pow2(hostBits) - 1
    }
  }

  lemma {:induction false} OrShifted(a: nat, b: nat)
    ensures Or(2 * a, 2 * b + 1) == 2 * Or(a, b) + 1
  {
    assert 2 * a / 2 == a && 2 * a % 2 == 0;
    assert (2 * b + 1) / 2 == b && (2 * b + 1) % 2 == 1;
  }

  lemma {:induction false} Doubled(k: nat, n: nat)
    ensures k * (2 * n) == 2 * (k * n)
  {
  }

  lemma {:induction false} OrSetsHostBits(k: nat, h: nat)
    ensures Or(k * Pow2(h), Pow2(h) - 1) == k * Pow2(h) + Pow2(h) - 1
  {
    if h > 0 {
      var low := Pow2(h - 1);
      OrSetsHostBits(k, h - 1);
      OrShifted(k * low, low - 1);
      Doubled(k, low);
    }
  }

  /** Or-ing in the inverted mask gives the last address. */
  lemma {:induction false} BroadcastIsOr(s: Subnet)
    requires s.Valid()
    ensures s.Mask() < TWO32 && Or(s.network, Not32(s.Mask())) == s.Broadcast()
  {
    var k := s.network / Pow2(s.hostBits);
    assert s.network == k * Pow2(s.hostBits);
    OrSetsHostBits(k, s.hostBits);
  }

  function Min(a: int, b: int): int {
    if a < b then a else b
  }

  function Max(a: int, b: int): int {
    if a < b then b else a
  }

  // One past the first candidate; the only subnet whose first subtraction wraps is 0.0.0.0/32.
  function Top(s: Subnet): nat
    requires s.Valid()
  {
    if s.network == 0 && s.hostBits == 0 then TWO32 else s.Broadcast()
  }

  function Count(s: Subnet, tailSize: int): nat
    requires s.Valid()
  {
    Max(0, Min(tailSize, Top(s) - s.network - 1))
  }

  method FindTailIPs(s: Subnet, tailSize: int) returns (ips: seq<nat>)
    requires s.Valid()
    ensures |ips| == Count(s, tailSize)
    ensures forall k :: 0 <= k < |ips| ==> ips[k] == Top(s) - 1 - k
    ensures |ips| == 0 || |ips| <= tailSize
    ensures forall k :: 0 <= k < |ips| ==> ips[k] == Sub32(s.Broadcast(), k + 1) && ips[k] > s.network
    ensures |ips| < tailSize ==> Sub32(s.Broadcast(), |ips| + 1) <= s.network
  {
    BroadcastIsOr(s);
    var broadcast := Or(s.network, Not32(s.Mask()));
    ips := [];
    var i := 1;
    while i <= tailSize
      invariant 1 <= i && |ips| == i - 1 && i - 1 <= Max(0, tailSize)
      invariant i > 1 ==> i - 1 <= Top(s) - s.network - 1
      invariant forall k :: 0 <= k < |ips| ==> ips[k] == Top(s) - 1 - k
      invariant forall k :: 0 <= k < |ips| ==> ips[k] == Sub32(broadcast, k + 1) && ips[k] > s.network
      decreases tailSize - i
    {
      Wraps(s, broadcast, i);
      var candidate := Sub32(broadcast, i);
      if candidate <= s.network {
        break;
      }
      ips := ips + [candidate];
      i := i + 1;
    }
  }

  // The 32-bit difference, as long as the loop has not passed the network address.
  lemma {:induction false} Wraps(s: Subnet, broadcast: nat, i: nat)
    requires s.Valid() && broadcast == s.Broadcast()
    requires 1 <= i && (i > 1 ==> i - 1 <= Top(s) - s.network - 1)
    ensures var candidate := Sub32(broadcast, i);
            (candidate <= s.network <==> Top(s) - i <= s.network) && (candidate > s.network ==> candidate == Top(s) - i)
  {
    if s.hostBits > 0 {
      assert Pow2(s.hostBits) == 2 * Pow2(s.hostBits - 1);
    }
  }

  /** Every returned address lies strictly between the network address and the last address, for every subnet and size
      but the single subnet 0.0.0.0/32 with a positive size. */
  lemma {:induction false} TailIsInsideIff(s: Subnet, tailSize: int, ips: seq<nat>)
    requires s.Valid() && |ips| == Count(s, tailSize)
    requires forall k :: 0 <= k < |ips| ==> ips[k] == Top(s) - 1 - k
    ensures (forall k :: 0 <= k < |ips| ==> s.network < ips[k] < s.Broadcast()) <==>
              !(s.network == 0 && s.hostBits == 0 && tailSize > 0)
    ensures forall j, k :: 0 <= j < k < |ips| ==> ips[j] > ips[k]
  {
    if s.network == 0 && s.hostBits == 0 && tailSize > 0 {
      assert s.Broadcast() == 0 && |ips| > 0 && ips[0] == TWO32 - 1;
    }
  }
}

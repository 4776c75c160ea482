/** Options, written numbers, fixed-width unsigned integers, and the wrapping counter that skips zero. */
module Words {
  const TWO32: int := 0x1_0000_0000
  /** How many values a nonzero 32-bit counter takes before it repeats. */
  const CYCLE: int := 0xFFFF_FFFF

  datatype Option<+T> = None | Some(value: T)

  type u8 = x: int | 0 <= x < 0x100
  type u32 = x: int | 0 <= x < 0x1_0000_0000
  type u64 = x: int | 0 <= x < 0x1_0000_0000_0000_0000

  /** A number as it is written, most significant digit first. */
  function Written(n: nat): string {
    (if n < 10 then [] else Written(n / 10)) + ["0123456789"[n % 10]]
  }

  /** The byte is the hexadecimal digit of `v`, in either case. */
  predicate IsDigitOf(b: u8, v: nat)
    requires v < 16
  {
    b == "0123456789abcdef"[v] as int || b == "0123456789ABCDEF"[v] as int
  }

  /** The hexadecimal digits write the number, most significant first, perhaps with zeros in front. */
  predicate Spells(s: seq<u8>, n: nat)
    decreases |s|
  {
    s != [] && IsDigitOf(s[|s| - 1], n % 16) && if |s| == 1 then n < 16 else Spells(s[..|s| - 1], n / 16)
  }

  /** Increment a 32-bit counter; if it wrapped to the reserved zero, increment once more. */
  function Bump(c: u32): (r: u32)
    ensures r != 0
  {
    var n := if c == TWO32 - 1 then 0 else c + 1;
    if n == 0 then n + 1 else n
  }

  /** The counter after `n` increments. */
  function Bumps(c: u32, n: nat): u32 {
    if n == 0 then c else Bump(Bumps(c, n - 1))
  }

  /** From a nonzero value the counter walks a cycle of length 2^32-1. */
  lemma {:induction false} BumpsAhead(c: u32, i: nat, k: nat)
    requires i >= 1 && k < CYCLE
    ensures Bumps(c, i + k) == var x := Bumps(c, i); if x + k <= CYCLE then x + k else x + k - CYCLE
  {
    if k > 0 {
      BumpsAhead(c, i, k - 1);
      assert Bumps(c, i + k) == Bump(Bumps(c, i + (k - 1)));
    }
    assert Bumps(c, i) != 0;
  }

  /** Any 2^32-1 consecutive values are nonzero and pairwise distinct. */
  lemma BumpsDistinct(c: u32, i: nat, j: nat)
    requires 1 <= i < j < i + CYCLE
    ensures Bumps(c, i) != 0 && Bumps(c, j) != 0 && Bumps(c, i) != Bumps(c, j)
  {
    BumpsAhead(c, i, j - i);
  }
}

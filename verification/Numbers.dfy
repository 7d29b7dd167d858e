/** What the repository's integers are: stamps are safe integers of its language, and a
    peer's clock may run a minute ahead. */
module Numbers {

  const MAX_SAFE_INTEGER := 0x1f_ffff_ffff_ffff
  const CLOCK_SLACK := 60_000

  predicate SafeInteger(n: int) { -MAX_SAFE_INTEGER <= n <= MAX_SAFE_INTEGER }

  function Max(a: int, b: int): int { if a > b then a else b }

  function Smaller(n: nat, m: nat): nat { if n < m then n else m }
}

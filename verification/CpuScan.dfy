/** The set-bit searches of `lib/bitops.h` on CPU sets: what the word scans compute. */
module CpuScan {
  import opened Topology

  /** The least CPU of `x` at or after `i`, or -1: `cpuset_find_first_set` for 0, `cpuset_find_next_set` for
      `pos + 1`. */
  function FindFrom(x: set<nat>, i: nat): (r: int)
    ensures r == -1 || (i <= r < CPU_SETSIZE && r in x)
    ensures forall c | c in x && i <= c < CPU_SETSIZE :: 0 <= r <= c
    decreases CPU_SETSIZE - i
  {
    if i >= CPU_SETSIZE then -1 else if i in x then i else FindFrom(x, i + 1)
  }

  /** The greatest CPU of `x` below `i`, or -1. */
  function FindBelow(x: set<nat>, i: nat): (r: int)
    ensures r == -1 || (0 <= r < i && r in x)
    ensures forall c | c in x && c < i :: c <= r
  {
    if i == 0 then -1 else if i - 1 in x then i - 1 else FindBelow(x, i - 1)
  }

  /** `cpuset_find_last_set`. */
  function FindLast(x: set<nat>): (r: int) { FindBelow(x, CPU_SETSIZE) }
}

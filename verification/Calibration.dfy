/** The calibration loop that can be resumed (`wayca_calibration.py`): which pair each data line belongs to. */
module Calibration {
  import opened CpuSet
  import opened Balance

  /** The temporary file: how many header lines it has, and the initiator-target pair of each data line. */
  datatype File = File(header: nat, data: seq<(nat, nat)>)

  const EMPTY := File(0, [])

  function HeaderLines(cnt: nat): nat { cnt + 3 }

  /** Data line `k` holds pair (k div cnt, k mod cnt), and data follows a complete header only. */
  ghost predicate InOrder(f: File, cnt: nat)
    requires cnt > 0
  {
    && f.header <= HeaderLines(cnt) && (f.header < HeaderLines(cnt) ==> f.data == [])
    && |f.data| <= cnt * cnt
    && forall k: nat | k < |f.data| :: f.data[k] == (k / cnt, k % cnt)
  }

  function Min(a: nat, b: nat): nat { if a < b then a else b }

  /** `get_dis_breakpoint`: a new header, or the cell after the last line. */
  method Breakpoint(f: File, cnt: nat) returns (f': File, ini: nat, tgt: nat)
    requires cnt > 0 && InOrder(f, cnt)
    ensures InOrder(f', cnt) && f'.header == HeaderLines(cnt) && f'.data == f.data
    ensures tgt < cnt && ini * cnt + tgt == |f.data|
  {
    var lines: int := f.header + |f.data| - (cnt + 3);
    if lines < 0 { return File(HeaderLines(cnt), []), 0, 0; }
    f', ini, tgt := f, lines / cnt, lines % cnt;
  }

  /** One row of `__test_cache`, from `tgt` on, killed after `budget` cells. */
  method Row(f: File, cnt: nat, i: nat, tgt: nat, budget: nat) returns (f': File, left: nat)
    requires i < cnt && tgt < cnt && InOrder(f, cnt) && f.header == HeaderLines(cnt) && |f.data| == i * cnt + tgt
    ensures InOrder(f', cnt) && f'.header == HeaderLines(cnt)
    ensures |f'.data| == |f.data| + (budget - left) && left <= budget && |f'.data| <= i * cnt + cnt
    ensures left > 0 ==> |f'.data| == i * cnt + cnt
  {
    f', left := f, budget;
    MulApart(i, cnt, cnt);
    var j := tgt;
    while j < cnt && left > 0
      invariant j <= cnt && left <= budget && InOrder(f', cnt) && f'.header == HeaderLines(cnt)
      invariant |f'.data| == i * cnt + j == |f.data| + (budget - left)
      decreases cnt - j
    {
      DivModUnique(i * cnt + j, cnt, i, j);
      f' := f'.(data := f'.data + [(i, j)]);
      j, left := j + 1, left - 1;
    }
  }

  /** `__test_cache` from the breakpoint on, killed after `budget` cells: the lines it leaves are in order, and
      it stops early only because it was killed. */
  method Attempt(f: File, cnt: nat, budget: nat) returns (f': File)
    requires cnt > 0 && InOrder(f, cnt)
    ensures InOrder(f', cnt) && f'.header == HeaderLines(cnt)
    ensures |f'.data| == Min(|f.data| + budget, cnt * cnt)
  {
    var i: nat, tgt: nat;
    f', i, tgt := Breakpoint(f, cnt);
    var left: nat := budget;
    MulApart(i, cnt, cnt);
    while i < cnt && left > 0
      invariant i <= cnt && left <= budget && tgt < cnt && InOrder(f', cnt) && f'.header == HeaderLines(cnt)
      invariant |f'.data| == |f.data| + (budget - left) && (left > 0 ==> |f'.data| == i * cnt + tgt)
      invariant i == cnt ==> |f'.data| == cnt * cnt || left == 0
      decreases cnt - i
    {
      f', left := Row(f', cnt, i, tgt, left);
      MulSucc(cnt, i);
      i, tgt := i + 1, 0;
    }
    Finished(|f'.data|, |f.data|, budget, left, cnt * cnt);
  }

  lemma Finished(now: nat, before: nat, budget: nat, left: nat, all: nat)
    requires left <= budget && now == before + (budget - left) && now <= all && (left > 0 ==> now == all)
    ensures now == Min(before + budget, all)
  {
  }

  function Total(budgets: seq<nat>): nat {
    if budgets == [] then 0 else Total(budgets[..|budgets| - 1]) + budgets[|budgets| - 1]
  }

  /** However often it is killed, and wherever, the calibration leaves exactly the first cells in order; once the
      attempts add up to all cells the table is complete. */
  method Calibrate(cnt: nat, budgets: seq<nat>) returns (f: File)
    requires cnt > 0
    ensures InOrder(f, cnt) && |f.data| == Min(Total(budgets), cnt * cnt)
  {
    f := EMPTY;
    for n := 0 to |budgets|
      invariant InOrder(f, cnt) && |f.data| == Min(Total(budgets[..n]), cnt * cnt)
    {
      f := Attempt(f, cnt, budgets[n]);
      assert budgets[..n + 1][..n] == budgets[..n];
    }
    assert budgets[..|budgets|] == budgets;
  }
}

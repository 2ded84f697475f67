/** Group selection in the voice supervisor (`IOManager.play`,
    pippi/__init__.py:269-271): before each render cycle, a generator that
    declares `groups` hands voice number `voice_index` the group at
    `voice_index % len(groups)`, so voices take the groups round-robin. */
module Voices {
  import opened Python

  /** `voice_index % count` with Python's `%`, which takes the sign of the
      divisor; for the positive divisor used here it agrees with Dafny's `%`,
      negative voice indices included. */
  function GroupIndex(voiceIndex: int, count: int): (k: int)
    requires count > 0
    ensures 0 <= k < count
    ensures voiceIndex == (voiceIndex / count) * count + k
  {
    voiceIndex % count
  }

  /** The group a voice renders with: None when the generator declares no
      groups, ZeroDivisionError when it declares an empty sequence. */
  function SelectGroup<G>(groups: Option<seq<G>>, voiceIndex: int): (r: Result<Option<G>>)
    ensures groups.None? ==> r == Ok(None)
    ensures groups == Some([]) ==> r == Raised(ZeroDivisionError)
    ensures groups.Some? && |groups.value| > 0 ==>
              r.Ok? && r.value.Some? && r.value.value in groups.value
  {
    match groups
    case None => Ok(None)
    case Some(gs) =>
      if |gs| == 0 then Raised(ZeroDivisionError)
      else Ok(Some(gs[GroupIndex(voiceIndex, |gs|)]))
  }

  /** Voices whose indices differ by a multiple of the number of groups
      share a group. */
  lemma SelectGroupPeriodic<G>(groups: seq<G>, voiceIndex: int, laps: int)
    requires |groups| > 0
    ensures SelectGroup(Some(groups), voiceIndex + laps * |groups|) == SelectGroup(Some(groups), voiceIndex)
  {
    var n := |groups|;
    var k := GroupIndex(voiceIndex, n);
    var q := voiceIndex / n;
    assert voiceIndex + laps * n == (q + laps) * n + k;
    DivModUnique(voiceIndex + laps * n, n, q + laps, k);
  }

  /** Euclidean division is unique: `x == q * n + r` with `0 <= r < n` fixes
      the quotient and the remainder. */
  lemma DivModUnique(x: int, n: int, q: int, r: int)
    requires n > 0 && 0 <= r < n && x == q * n + r
    ensures x % n == r && x / n == q
  {
    var d, m := x / n, x % n;
    assert x == d * n + m;
    assert (q - d) * n == m - r;
    if q > d {
      MulAtLeast(q - d, n);
    } else if q < d {
      MulAtLeast(d - q, n);
    }
  }

  /** A positive multiple of `n` is at least `n`. */
  lemma {:induction false} MulAtLeast(a: int, n: int)
    requires a >= 1 && n > 0
    ensures a * n >= n
    decreases a
  {
    if a > 1 {
      MulAtLeast(a - 1, n);
      assert a * n == (a - 1) * n + n;
    }
  }

  /** Among any `len(groups)` consecutive voices no two share a group index,
      so each group is used exactly once per lap. */
  lemma SelectGroupRoundRobin<G>(groups: seq<G>, first: int, i: int, j: int)
    requires |groups| > 0
    requires first <= i < first + |groups| && first <= j < first + |groups| && i != j
    ensures GroupIndex(i, |groups|) != GroupIndex(j, |groups|)
  {
    var n := |groups|;
    var qi, qj := i / n, j / n;
    var ki, kj := GroupIndex(i, n), GroupIndex(j, n);
    if ki == kj {
      assert (qi - qj) * n == i - j;
      if qi > qj {
        MulAtLeast(qi - qj, n);
      } else if qi < qj {
        MulAtLeast(qj - qi, n);
      }
    }
  }

  /** The first voices take the groups in declaration order. */
  lemma SelectGroupFirstLap<G>(groups: seq<G>, voiceIndex: int)
    requires 0 <= voiceIndex < |groups|
    ensures SelectGroup(Some(groups), voiceIndex) == Ok(Some(groups[voiceIndex]))
  {
  }

  /** Python's `%` example: voice -1 of three groups gets the last group. */
  lemma SelectGroupNegativeIndex<G>(groups: seq<G>)
    requires |groups| == 3
    ensures SelectGroup(Some(groups), -1) == Ok(Some(groups[2]))
  {
  }
}

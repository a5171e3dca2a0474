/** orderMoves of src/ChessAI.py: score every candidate move, sort stably by descending score,
    keep the best 40% ("exploit") and append a random sample of 20% of the rest ("explore").
    The sample is drawn from explicit random numbers `draws` instead of Python's random module.
    All results are positions into the candidate list. */
module MoveOrdering {
  import opened ChessTypes

  /** What orderMoves looks at in a move: the capture and promotion flags, and whether the move
      gives check (the engine's make / inCheck / undo probe, taken as given). */
  datatype MoveFlags = MoveFlags(isCapture: bool, isPawnPromotion: bool, givesCheck: bool)

  /** The ordering score: 10 for a capture, 8 for a promotion, 5 for a check. */
  function OrderingScore(f: MoveFlags): int
  {
    (if f.isCapture then 10 else 0) + (if f.isPawnPromotion then 8 else 0) + (if f.givesCheck then 5 else 0)
  }

  /** Reads the flags back out of an ordering score (the sums 0, 5, 8, 10, 13, 15, 18, 23 are distinct). */
  function FlagsOfScore(s: int): MoveFlags
  {
    var capture := s >= 10 && s != 13;
    var rest := if capture then s - 10 else s;
    var promotion := rest >= 8;
    MoveFlags(capture, promotion, (if promotion then rest - 8 else rest) == 5)
  }

  /** The score lies in 0..23, and the three weights never collide: the score determines the flags. */
  lemma OrderingScoreDecodes(f: MoveFlags)
    ensures 0 <= OrderingScore(f) <= 23
    ensures FlagsOfScore(OrderingScore(f)) == f
  {
  }

  // ---------------------------------------------------------------------------
  // Stable descending sort (Python's sorted(..., key=score, reverse=True))

  /** Position i comes before position j in the sorted output: a higher score, or an equal score
      and an earlier position (stability). */
  predicate Before(keys: seq<int>, i: nat, j: nat)
    requires i < |keys| && j < |keys|
  {
    keys[i] > keys[j] || (keys[i] == keys[j] && i < j)
  }

  predicate InBounds(s: seq<nat>, n: nat)
  {
    forall i :: 0 <= i < |s| ==> s[i] < n
  }

  /** Every earlier element of `s` comes Before every later one (so no element occurs twice). */
  predicate SortedBy(keys: seq<int>, s: seq<nat>)
  {
    InBounds(s, |keys|) &&
    forall i, j :: 0 <= i < j < |s| ==> Before(keys, s[i], s[j])
  }

  predicate Distinct<T(==)>(s: seq<T>)
  {
    forall i, j :: 0 <= i < j < |s| ==> s[i] != s[j]
  }

  function Insert(keys: seq<int>, x: nat, s: seq<nat>): (r: seq<nat>)
    requires x < |keys| && InBounds(s, |keys|)
    ensures |r| == |s| + 1
    ensures forall y :: y in r <==> y == x || y in s
  {
    if s == [] then [x]
    else if Before(keys, x, s[0]) then [x] + s
    else
      var rest := Insert(keys, x, s[1..]);
      assert forall y :: y in s <==> y == s[0] || y in s[1..];
      [s[0]] + rest
  }

  lemma {:induction false} InsertSorted(keys: seq<int>, x: nat, s: seq<nat>)
    requires x < |keys| && SortedBy(keys, s) && x !in s
    ensures SortedBy(keys, Insert(keys, x, s))
  {
    if s != [] && !Before(keys, x, s[0]) {
      var rest := Insert(keys, x, s[1..]);
      InsertSorted(keys, x, s[1..]);
      forall i | 0 <= i < |rest|
        ensures Before(keys, s[0], rest[i])
      {
        assert rest[i] in rest;
        if rest[i] != x {
          var j :| 0 <= j < |s[1..]| && s[1..][j] == rest[i];
          assert s[1 + j] == rest[i];
        }
      }
      var r := [s[0]] + rest;
      forall i, j | 0 <= i < j < |r|
        ensures Before(keys, r[i], r[j])
      {
        if i > 0 {
          assert r[i] == rest[i - 1] && r[j] == rest[j - 1];
        }
      }
    }
  }

  /** Positions 0 .. n-1 inserted one after another. */
  function SortPrefix(keys: seq<int>, n: nat): (r: seq<nat>)
    requires n <= |keys|
    ensures |r| == n
    ensures InBounds(r, n)
    ensures forall y :: y in r <==> 0 <= y < n
  {
    if n == 0 then [] else
      var s := SortPrefix(keys, n - 1);
      var r := Insert(keys, n - 1, s);
      assert forall i :: 0 <= i < |r| ==> r[i] in r;
      r
  }

  /** The sorted positions of a score list. */
  function StableSortDesc(keys: seq<int>): seq<nat>
  {
    SortPrefix(keys, |keys|)
  }

  lemma {:induction false} SortPrefixSorted(keys: seq<int>, n: nat)
    requires n <= |keys|
    ensures SortedBy(keys, SortPrefix(keys, n))
  {
    if n > 0 {
      var s := SortPrefix(keys, n - 1);
      SortPrefixSorted(keys, n - 1);
      assert n - 1 !in s;
      InsertSorted(keys, n - 1, s);
    }
  }

  /** sorted(reverse=True) on the scores: the result is a permutation of the positions 0 .. n-1
      (each exactly once), in descending score order, with equal scores kept in input order. */
  lemma StableSortDescCorrect(keys: seq<int>)
    ensures |StableSortDesc(keys)| == |keys| && InBounds(StableSortDesc(keys), |keys|)
    ensures Distinct(StableSortDesc(keys))
    ensures forall p :: 0 <= p < |keys| ==> p in StableSortDesc(keys)
    ensures forall i, j :: 0 <= i < j < |keys| ==> keys[StableSortDesc(keys)[i]] >= keys[StableSortDesc(keys)[j]]
    ensures forall i, j :: 0 <= i < j < |keys| && keys[StableSortDesc(keys)[i]] == keys[StableSortDesc(keys)[j]]
              ==> StableSortDesc(keys)[i] < StableSortDesc(keys)[j]
  {
    SortPrefixSorted(keys, |keys|);
  }

  // ---------------------------------------------------------------------------
  // Sampling without replacement (random.sample with explicit random numbers)

  /** The list without its element at position j. */
  function RemoveAt(s: seq<nat>, j: nat): (r: seq<nat>)
    requires j < |s|
    ensures |r| == |s| - 1
    ensures forall a :: 0 <= a < |r| ==> r[a] == s[if a < j then a else a + 1]
  {
    s[..j] + s[j + 1..]
  }

  lemma RemoveAtMembers(s: seq<nat>, j: nat)
    requires j < |s|
    ensures forall y :: y in RemoveAt(s, j) ==> y in s
    ensures forall y :: y in s && y != s[j] ==> y in RemoveAt(s, j)
  {
    var r := RemoveAt(s, j);
    forall y | y in r ensures y in s {
      var a :| 0 <= a < |r| && r[a] == y;
      assert s[if a < j then a else a + 1] == y;
    }
    forall y | y in s && y != s[j] ensures y in r {
      var i :| 0 <= i < |s| && s[i] == y;
      if i < j { assert r[i] == y; } else { assert r[i - 1] == y; }
    }
  }

  lemma RemoveAtDistinct(s: seq<nat>, j: nat)
    requires j < |s| && Distinct(s)
    ensures Distinct(RemoveAt(s, j)) && s[j] !in RemoveAt(s, j)
  {
    var r := RemoveAt(s, j);
    forall a, b | 0 <= a < b < |r| ensures r[a] != r[b] {
      assert r[a] == s[if a < j then a else a + 1];
      assert r[b] == s[if b < j then b else b + 1];
    }
    forall a | 0 <= a < |r| ensures r[a] != s[j] {
      assert r[a] == s[if a < j then a else a + 1];
    }
  }

  /** Draws k elements of `pool` without replacement: the next random number, taken modulo the
      size of what is left, picks the next element (a missing number counts as 0). */
  function Sample(pool: seq<nat>, k: nat, draws: seq<nat>): (r: seq<nat>)
    ensures |r| == Min(k, |pool|)
    ensures forall y :: y in r ==> y in pool
    decreases k
  {
    if k == 0 || pool == [] then []
    else
      var j := (if draws == [] then 0 else draws[0]) % |pool|;
      var tail := Sample(RemoveAt(pool, j), k - 1, if draws == [] then [] else draws[1..]);
      RemoveAtMembers(pool, j);
      [pool[j]] + tail
  }

  lemma {:induction false} SampleDistinct(pool: seq<nat>, k: nat, draws: seq<nat>)
    requires Distinct(pool)
    ensures Distinct(Sample(pool, k, draws))
    decreases k
  {
    if k != 0 && pool != [] {
      var j := (if draws == [] then 0 else draws[0]) % |pool|;
      var rest := RemoveAt(pool, j);
      var more := if draws == [] then [] else draws[1..];
      RemoveAtDistinct(pool, j);
      SampleDistinct(rest, k - 1, more);
      var tail := Sample(rest, k - 1, more);
      var r := [pool[j]] + tail;
      assert r == Sample(pool, k, draws);
      forall a, b | 0 <= a < b < |r| ensures r[a] != r[b] {
        if a == 0 {
          assert r[b] in tail;
        } else {
          assert r[a] == tail[a - 1] && r[b] == tail[b - 1];
        }
      }
    }
  }

  function IndexOf(s: seq<nat>, x: nat): (i: nat)
    requires x in s
    ensures i < |s| && s[i] == x
  {
    if s[0] == x then 0 else 1 + IndexOf(s[1..], x)
  }

  /** The random numbers under which Sample draws exactly `chosen`. */
  function DrawsFor(pool: seq<nat>, chosen: seq<nat>): seq<nat>
    requires forall y :: y in chosen ==> y in pool
    requires Distinct(chosen)
    decreases |chosen|
  {
    if chosen == [] then []
    else
      var j := IndexOf(pool, chosen[0]);
      RemoveAtMembers(pool, j);
      assert forall y :: y in chosen[1..] ==> y in chosen && y != chosen[0];
      [j] + DrawsFor(RemoveAt(pool, j), chosen[1..])
  }

  lemma ModOfSmall(j: nat, n: nat)
    requires j < n
    ensures j % n == j
  {
  }

  lemma SampleCons(pool: seq<nat>, k: nat, j: nat, more: seq<nat>)
    requires k > 0 && j < |pool|
    ensures Sample(pool, k, [j] + more) == [pool[j]] + Sample(RemoveAt(pool, j), k - 1, more)
  {
    var draws := [j] + more;
    assert draws[0] == j && draws[1..] == more;
    ModOfSmall(j, |pool|);
  }

  /** What is left to choose after the first pick is a duplicate-free choice from what is left. */
  lemma ChosenTail(pool: seq<nat>, chosen: seq<nat>)
    requires Distinct(chosen) && chosen != []
    requires forall y :: y in chosen ==> y in pool
    ensures Distinct(chosen[1..])
    ensures forall y :: y in chosen[1..] ==> y in RemoveAt(pool, IndexOf(pool, chosen[0]))
  {
    var j := IndexOf(pool, chosen[0]);
    RemoveAtMembers(pool, j);
    var others := chosen[1..];
    forall a, b | 0 <= a < b < |others| ensures others[a] != others[b] {
      assert others[a] == chosen[a + 1] && others[b] == chosen[b + 1];
    }
    forall y | y in others ensures y in RemoveAt(pool, j) {
      var a :| 0 <= a < |others| && others[a] == y;
      assert chosen[a + 1] == y && chosen[0] != y;
      assert y in chosen;
    }
  }

  /** After the first pick, the rest of a valid choice is a valid choice from what is left. */
  lemma ChoiceTail(pool: seq<nat>, k: nat, chosen: seq<nat>, j: nat)
    requires Distinct(chosen) && |chosen| == Min(k, |pool|)
    requires forall y :: y in chosen ==> y in pool
    requires chosen != [] && j == IndexOf(pool, chosen[0])
    ensures Distinct(chosen[1..])
    ensures |chosen[1..]| == Min(k - 1, |RemoveAt(pool, j)|)
    ensures forall y :: y in chosen[1..] ==> y in RemoveAt(pool, j)
  {
    ChosenTail(pool, chosen);
  }

  /** Drawing position j first, then numbers that draw `chosen`'s tail from what is left, draws
      `chosen` when position j holds its first element. */
  lemma SamplePicksFirst(pool: seq<nat>, k: nat, chosen: seq<nat>, j: nat, more: seq<nat>,
                    draws: seq<nat>)
    requires k > 0 && chosen != [] && j < |pool| && pool[j] == chosen[0]
    requires Sample(RemoveAt(pool, j), k - 1, more) == chosen[1..]
    requires draws == [j] + more
    ensures Sample(pool, k, draws) == chosen
  {
    SampleCons(pool, k, j, more);
    assert chosen == [chosen[0]] + chosen[1..];
  }

  /** The draws for `chosen` draw it, once those for its tail draw the tail from what is left. */
  lemma SampleFirst(pool: seq<nat>, k: nat, chosen: seq<nat>, j: nat)
    requires Distinct(chosen)
    requires forall y :: y in chosen ==> y in pool
    requires k > 0
    requires chosen != []
    requires j == IndexOf(pool, chosen[0])
    requires forall y :: y in chosen[1..] ==> y in RemoveAt(pool, j)
    requires Sample(RemoveAt(pool, j), k - 1, DrawsFor(RemoveAt(pool, j), chosen[1..])) == chosen[1..]
    ensures Sample(pool, k, DrawsFor(pool, chosen)) == chosen
  {
    DrawsForCons(pool, chosen, j);
    SamplePicksFirst(pool, k, chosen, j, DrawsFor(RemoveAt(pool, j), chosen[1..]), DrawsFor(pool, chosen));
  }

  /** The draws for `chosen` start with the position of its first element. */
  lemma DrawsForCons(pool: seq<nat>, chosen: seq<nat>, j: nat)
    requires Distinct(chosen)
    requires forall y :: y in chosen ==> y in pool
    requires chosen != []
    requires j == IndexOf(pool, chosen[0])
    requires forall y :: y in chosen[1..] ==> y in RemoveAt(pool, j)
    ensures Distinct(chosen[1..])
    ensures DrawsFor(pool, chosen) == [j] + DrawsFor(RemoveAt(pool, j), chosen[1..])
  {
    ChosenTail(pool, chosen);
  }

  /** Nothing random.sample can return is lost: every duplicate-free choice of the right size from
      the pool is what Sample draws for some random numbers. */
  lemma {:induction false} SampleComplete(pool: seq<nat>, k: nat, chosen: seq<nat>)
    requires Distinct(chosen) && |chosen| == Min(k, |pool|)
    requires forall y :: y in chosen ==> y in pool
    ensures Sample(pool, k, DrawsFor(pool, chosen)) == chosen
    decreases k
  {
    if k != 0 && pool != [] {
      assert chosen[0] in chosen;
      var j := IndexOf(pool, chosen[0]);
      ChoiceTail(pool, k, chosen, j);
      SampleComplete(RemoveAt(pool, j), k - 1, chosen[1..]);
      SampleFirst(pool, k, chosen, j);
    }
  }

  // ---------------------------------------------------------------------------
  // orderMoves

  /** move_scores: the ordering score of every candidate. */
  function Keys(flags: seq<MoveFlags>): (keys: seq<int>)
    ensures |keys| == |flags|
  {
    seq(|flags|, i requires 0 <= i < |flags| => OrderingScore(flags[i]))
  }

  /** num_exploit = max(1, int(0.4 * n)). */
  function NumExploit(n: nat): (e: nat)
    ensures 1 <= e && (n > 0 ==> e <= n)
  {
    Max(1, (2 * n) / 5)
  }

  /** num_explore = max(1, int(0.2 * n)) if anything remains, else 0. */
  function NumExplore(n: nat, remaining: nat): (e: nat)
    ensures e == 0 <==> remaining == 0
  {
    if remaining > 0 then Max(1, n / 5) else 0
  }

  /** Where the sorted list is cut: Python's slice clamps num_exploit to the length. */
  function Cut(n: nat): nat { Min(NumExploit(n), n) }

  /** exploit_moves. */
  function Exploit(flags: seq<MoveFlags>): (exploit: seq<nat>)
    ensures |exploit| == Min(NumExploit(|flags|), |flags|)
    ensures InBounds(exploit, |flags|)
  {
    StableSortDesc(Keys(flags))[..Cut(|flags|)]
  }

  /** remaining_moves. */
  function Remaining(flags: seq<MoveFlags>): seq<nat>
  {
    StableSortDesc(Keys(flags))[Cut(|flags|)..]
  }

  /** explore_moves: the sample drawn from what the exploit prefix left. */
  function Explore(flags: seq<MoveFlags>, draws: seq<nat>): (explore: seq<nat>)
    ensures forall y :: y in explore ==> y in Remaining(flags)
  {
    var remaining := Remaining(flags);
    Sample(remaining, Min(NumExplore(|flags|, |remaining|), |remaining|), draws)
  }

  /** orderMoves, as positions into the candidate list. */
  function OrderPositions(flags: seq<MoveFlags>, draws: seq<nat>): seq<nat>
  {
    Exploit(flags) + Explore(flags, draws)
  }

  lemma SplitFacts(flags: seq<MoveFlags>)
    ensures StableSortDesc(Keys(flags)) == Exploit(flags) + Remaining(flags)
    ensures Distinct(Exploit(flags) + Remaining(flags))
    ensures InBounds(Exploit(flags) + Remaining(flags), |flags|)
    ensures forall p :: 0 <= p < |flags| ==> p in Exploit(flags) + Remaining(flags)
  {
    StableSortDescCorrect(Keys(flags));
  }

  lemma ConcatDistinct(a: seq<nat>, b: seq<nat>)
    requires Distinct(a) && Distinct(b)
    requires forall y :: y in b ==> y !in a
    ensures Distinct(a + b)
  {
    var r := a + b;
    forall i, j | 0 <= i < j < |r| ensures r[i] != r[j] {
      if j >= |a| && i < |a| {
        assert r[j] == b[j - |a|] && r[j] in b;
        assert r[i] == a[i] && r[i] in a;
      } else if i >= |a| {
        assert r[i] == b[i - |a|] && r[j] == b[j - |a|];
      } else {
        assert r[i] == a[i] && r[j] == a[j];
      }
    }
  }

  lemma SplitDistinct(a: seq<nat>, b: seq<nat>)
    requires Distinct(a + b)
    ensures Distinct(a) && Distinct(b)
    ensures forall y :: y in b ==> y !in a
  {
    var r := a + b;
    forall i, j | 0 <= i < j < |b| ensures b[i] != b[j] {
      assert b[i] == r[|a| + i] && b[j] == r[|a| + j];
    }
    forall i, j | 0 <= i < j < |a| ensures a[i] != a[j] {
      assert a[i] == r[i] && a[j] == r[j];
    }
    forall y | y in b ensures y !in a {
      var j :| 0 <= j < |b| && b[j] == y;
      assert r[|a| + j] == y;
      forall i | 0 <= i < |a| ensures a[i] != y {
        assert r[i] == a[i];
      }
    }
  }

  lemma SubsetInBounds(a: seq<nat>, b: seq<nat>, n: nat)
    requires InBounds(b, n) && forall y :: y in a ==> y in b
    ensures InBounds(a, n)
  {
    forall i | 0 <= i < |a| ensures a[i] < n {
      assert a[i] in b;
    }
  }

  /** orderMoves returns only input moves, none of them twice. */
  lemma OrderPositionsDistinct(flags: seq<MoveFlags>, draws: seq<nat>)
    ensures InBounds(OrderPositions(flags, draws), |flags|)
    ensures Distinct(OrderPositions(flags, draws))
  {
    SplitFacts(flags);
    var e, rem := Exploit(flags), Remaining(flags);
    SplitDistinct(e, rem);
    var sample := Explore(flags, draws);
    SampleDistinct(rem, Min(NumExplore(|flags|, |rem|), |rem|), draws);
    assert forall y :: y in sample ==> y in rem;
    ConcatDistinct(e, sample);
    assert OrderPositions(flags, draws) == e + sample;
    SubsetInBounds(e + sample, e + rem, |flags|);
  }

  lemma OrderPositionsInBounds(flags: seq<MoveFlags>, draws: seq<nat>)
    ensures InBounds(OrderPositions(flags, draws), |flags|)
  {
    OrderPositionsDistinct(flags, draws);
  }

  /** orderMoves is empty exactly when its input is; otherwise it holds max(1, 0.4n) exploit moves
      followed by min(max(1, 0.2n), n - exploit) explore moves (none when nothing remains). */
  lemma OrderPositionsLength(flags: seq<MoveFlags>, draws: seq<nat>)
    ensures OrderPositions(flags, draws) == [] <==> flags == []
    ensures var n := |flags|;
      n > 0 ==> |Exploit(flags)| == NumExploit(n) &&
                |Explore(flags, draws)| == Min(Max(1, n / 5), n - NumExploit(n))
  {
  }

  /** The exploit prefix is in stable descending score order, and no move left out of it
      scores higher than any move in it. */
  lemma ExploitIsBest(flags: seq<MoveFlags>)
    ensures SortedBy(Keys(flags), Exploit(flags))
    ensures forall i, p :: 0 <= i < |Exploit(flags)| && 0 <= p < |flags| && p !in Exploit(flags)
              ==> OrderingScore(flags[Exploit(flags)[i]]) >= OrderingScore(flags[p])
  {
    var keys := Keys(flags);
    var sorted := StableSortDesc(keys);
    SortPrefixSorted(keys, |keys|);
    SplitFacts(flags);
    var e := Exploit(flags);
    forall i, p | 0 <= i < |e| && 0 <= p < |flags| && p !in e
      ensures OrderingScore(flags[e[i]]) >= OrderingScore(flags[p])
    {
      assert p in sorted;
      var m :| 0 <= m < |sorted| && sorted[m] == p;
      assert m >= |e|;
      assert Before(keys, sorted[i], sorted[m]);
    }
  }

  /** orderMoves: the loop that appends each move's score, then the sort and the two slices. */
  method OrderMoves(flags: seq<MoveFlags>, draws: seq<nat>) returns (ordered: seq<nat>)
    ensures ordered == OrderPositions(flags, draws)
  {
    var moveScores: seq<int> := [];
    var i := 0;
    while i < |flags|
      invariant 0 <= i <= |flags|
      invariant moveScores == Keys(flags)[..i]
    {
      var moveScore := 0;
      if flags[i].isCapture {
        moveScore := moveScore + 10;
      }
      if flags[i].isPawnPromotion {
        moveScore := moveScore + 8;
      }
      if flags[i].givesCheck {
        moveScore := moveScore + 5;
      }
      moveScores := moveScores + [moveScore];
      i := i + 1;
    }
    assert moveScores == Keys(flags);
    var sortedMoves := StableSortDesc(moveScores);
    var numExploit := NumExploit(|sortedMoves|);
    var cut := Min(numExploit, |sortedMoves|);
    var exploitMoves := sortedMoves[..cut];
    var remainingMoves := sortedMoves[cut..];
    var numExplore := if |remainingMoves| > 0 then Max(1, |sortedMoves| / 5) else 0;
    var exploreMoves := Sample(remainingMoves, Min(numExplore, |remainingMoves|), draws);
    ordered := exploitMoves + exploreMoves;
  }
}

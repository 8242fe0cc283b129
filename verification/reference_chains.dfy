/** Reference tables, the chains they form, and the levels in which a cascading gather reaches them. */
module ReferenceChains {
  import opened Options
  import opened Graphs

  /**
   * The sources reached in round `k`. Round 0 holds the targets that are not sources themselves; only sources in
   * `live` are looked at.
   */
  ghost function Level(refs: map<nat, nat>, live: set<nat>, k: nat): set<nat> {
    if k == 0 then refs.Values - refs.Keys
    else set s | s in refs && s in live && refs[s] in Level(refs, live, k - 1)
  }

  /** The chain of `x` leaves the sources after `k` steps. */
  predicate Ends(refs: map<nat, nat>, x: nat, k: nat)
    decreases k
  {
    if k == 0 then x !in refs else x in refs && Ends(refs, refs[x], k - 1)
  }

  lemma {:induction false} LevelEnds(refs: map<nat, nat>, live: set<nat>, s: nat, k: nat)
    requires s in Level(refs, live, k)
    ensures Ends(refs, s, k)
    decreases k
  {
    if k > 0 { LevelEnds(refs, live, refs[s], k - 1); }
  }

  /** When every source is live, round `k` reaches exactly the sources whose chain ends after `k` steps. */
  lemma {:induction false} LevelExact(refs: map<nat, nat>, live: set<nat>, s: nat, k: nat)
    requires refs.Keys <= live && s in refs
    ensures s in Level(refs, live, k) <==> k > 0 && Ends(refs, s, k)
    decreases k
  {
    if k > 0 && refs[s] in refs {
      LevelExact(refs, live, refs[s], k - 1);
    } else if k > 1 {
      assert !Ends(refs, s, k);
      if s in Level(refs, live, k) { LevelEnds(refs, live, s, k); }
    }
  }

  lemma {:induction false} EndsOnce(refs: map<nat, nat>, x: nat, j: nat, k: nat)
    requires Ends(refs, x, j) && Ends(refs, x, k)
    ensures j == k
    decreases j
  {
    if j > 0 && k > 0 { EndsOnce(refs, refs[x], j - 1, k - 1); }
  }

  lemma LevelsDisjoint(refs: map<nat, nat>, live: set<nat>, s: nat, j: nat, k: nat)
    requires s in Level(refs, live, j) && s in Level(refs, live, k)
    ensures j == k
  {
    LevelEnds(refs, live, s, j);
    LevelEnds(refs, live, s, k);
    EndsOnce(refs, s, j, k);
  }

  lemma {:induction false} EndsWithout(refs: map<nat, nat>, x: nat, k: nat, y: nat, j: nat)
    requires Ends(refs, x, k) && Ends(refs, y, j) && j < k
    ensures Ends(refs - {x}, y, j)
    decreases j
  {
    if j > 0 {
      if y == x { EndsOnce(refs, x, j, k); }
      EndsWithout(refs, x, k, refs[y], j - 1);
    }
  }

  /** A chain that ends has no more steps than there are sources. */
  lemma {:induction false} EndsBound(refs: map<nat, nat>, x: nat, k: nat)
    requires Ends(refs, x, k)
    ensures k <= |refs|
    decreases k
  {
    if k > 0 {
      EndsWithout(refs, x, k, refs[x], k - 1);
      EndsBound(refs - {x}, refs[x], k - 1);
      assert (refs - {x}).Keys == refs.Keys - {x};
    }
  }

  lemma LevelBound(refs: map<nat, nat>, live: set<nat>, k: nat)
    requires Level(refs, live, k) != {}
    ensures k <= |refs|
  {
    var s :| s in Level(refs, live, k);
    LevelEnds(refs, live, s, k);
    EndsBound(refs, s, k);
  }

  lemma {:induction false} EmptyStaysEmpty(refs: map<nat, nat>, live: set<nat>, j: nat, k: nat)
    requires Level(refs, live, j) == {} && j <= k
    ensures Level(refs, live, k) == {}
    decreases k
  {
    if j < k { EmptyStaysEmpty(refs, live, j, k - 1); }
  }

  // ---- cycles

  /** Where the chain of `x` is after `k` steps; nowhere once it left the sources. */
  function Follow(refs: map<nat, nat>, x: nat, k: nat): Option<nat>
    decreases k
  {
    if k == 0 then Some(x) else if x in refs then Follow(refs, refs[x], k - 1) else None
  }

  /** The first `k` entities on the chain of `x` are in `live`. */
  ghost predicate ChainIn(refs: map<nat, nat>, live: set<nat>, x: nat, k: nat) {
    forall i: nat :: i < k ==> Follow(refs, x, i).Some? && Follow(refs, x, i).value in live
  }

  /** Round `k` reaches the sources whose chain ends after `k` steps and is looked at all the way. */
  lemma {:induction false} LevelChain(refs: map<nat, nat>, live: set<nat>, s: nat, k: nat)
    requires s in refs
    ensures s in Level(refs, live, k) <==> k > 0 && Ends(refs, s, k) && ChainIn(refs, live, s, k)
    decreases k
  {
    if k > 0 {
      assert Follow(refs, s, 0) == Some(s);
      forall i: nat ensures Follow(refs, s, i + 1) == Follow(refs, refs[s], i) { }
      if refs[s] in refs {
        LevelChain(refs, live, refs[s], k - 1);
        ChainFrom(refs, live, s, k);
      } else if k > 1 {
        assert !Ends(refs, s, k);
        if s in Level(refs, live, k) { LevelEnds(refs, live, s, k); }
      } else {
        ChainFrom(refs, live, s, k);
      }
    }
  }

  lemma ChainFrom(refs: map<nat, nat>, live: set<nat>, s: nat, k: nat)
    requires s in refs && k > 0
    ensures ChainIn(refs, live, s, k) <==> s in live && ChainIn(refs, live, refs[s], k - 1)
  {
    if s in live && ChainIn(refs, live, refs[s], k - 1) {
      forall i: nat | i < k ensures Follow(refs, s, i).Some? && Follow(refs, s, i).value in live {
        if i > 0 { assert Follow(refs, s, i) == Follow(refs, refs[s], i - 1); }
      }
    }
    if ChainIn(refs, live, s, k) {
      assert Follow(refs, s, 0) == Some(s);
      forall i: nat | i < k - 1 ensures Follow(refs, refs[s], i).Some? && Follow(refs, refs[s], i).value in live {
        assert Follow(refs, s, i + 1) == Follow(refs, refs[s], i);
      }
    }
  }

  ghost predicate LeadsToCycle(refs: map<nat, nat>, x: nat) {
    exists i: nat, j: nat :: i < j && Follow(refs, x, i).Some? && Follow(refs, x, i) == Follow(refs, x, j)
  }

  lemma {:induction false} FollowEnds(refs: map<nat, nat>, x: nat, k: nat, i: nat)
    requires Ends(refs, x, k)
    ensures Follow(refs, x, i).Some? <==> i <= k
    ensures i <= k ==> Ends(refs, Follow(refs, x, i).value, k - i)
    decreases i
  {
    if i > 0 && k > 0 { FollowEnds(refs, refs[x], k - 1, i - 1); }
  }

  lemma {:induction false} FollowInside(refs: map<nat, nat>, x: nat, n: nat, i: nat)
    requires i <= n && forall k: nat :: k <= n ==> !Ends(refs, x, k)
    ensures Follow(refs, x, i).Some? && Follow(refs, x, i).value in refs
    decreases i
  {
    assert !Ends(refs, x, 0);
    if i > 0 {
      forall k: nat | k <= n - 1 ensures !Ends(refs, refs[x], k) { assert !Ends(refs, x, k + 1); }
      FollowInside(refs, refs[x], n - 1, i - 1);
    }
  }

  /** A chain ends exactly when it never returns to an entity it has passed. */
  lemma EndsOrCycles(refs: map<nat, nat>, x: nat)
    ensures (exists k: nat :: Ends(refs, x, k)) <==> !LeadsToCycle(refs, x)
  {
    if k: nat :| Ends(refs, x, k) {
      forall i: nat, j: nat {:trigger Follow(refs, x, i), Follow(refs, x, j)} | i < j && Follow(refs, x, i).Some?
        ensures Follow(refs, x, i) != Follow(refs, x, j)
      {
        EndingDoesNotReturn(refs, x, k, i, j);
      }
      assert !LeadsToCycle(refs, x);
      assert exists k: nat :: Ends(refs, x, k);
    } else {
      assert !exists k: nat :: Ends(refs, x, k);
      var n := |refs|;
      forall i: nat | i <= n ensures Follow(refs, x, i).Some? && Follow(refs, x, i).value in refs {
        FollowInside(refs, x, n, i);
      }
      var walk := seq(n + 1, (i: nat) requires i <= n && Follow(refs, x, i).Some? => Follow(refs, x, i).value);
      var i, j := Repeats(walk, refs.Keys);
      assert walk[i] == Follow(refs, x, i).value && walk[j] == Follow(refs, x, j).value;
      assert Follow(refs, x, i) == Follow(refs, x, j);
      assert LeadsToCycle(refs, x);
    }
  }

  lemma EndingDoesNotReturn(refs: map<nat, nat>, x: nat, k: nat, i: nat, j: nat)
    requires Ends(refs, x, k) && i < j && Follow(refs, x, i).Some?
    ensures Follow(refs, x, i) != Follow(refs, x, j)
  {
    FollowEnds(refs, x, k, i);
    FollowEnds(refs, x, k, j);
    if Follow(refs, x, j).Some? && Follow(refs, x, i) == Follow(refs, x, j) {
      EndsOnce(refs, Follow(refs, x, i).value, k - i, k - j);
    }
  }
}

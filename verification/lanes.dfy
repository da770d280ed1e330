/**
 Bookkeeping of spawn lanes across an enemy list: which enemies hold a lane through their
 destruction callback, that no two hold the same lane, and that every lane a live enemy holds is
 recorded as used. These are the facts that make the allocator's promise (a new enemy never
 shares a lane with a live one) hold for the whole life of a level.
 */
module Lanes {
  import opened Slots
  import opened Actors
  import opened Collisions

  /** The actor's callback frees one of the five palette lanes. */
  predicate HoldsLane(a: Actor)
  {
    a.onDestroyed.FreeSlot? && a.onDestroyed.slot.Lane?
  }

  /** No two entries hold the same lane. */
  ghost predicate LanesDistinct(xs: seq<Actor>)
  {
    forall i, j :: 0 <= i < j < |xs| && HoldsLane(xs[i]) ==> xs[i].onDestroyed != xs[j].onDestroyed
  }

  /** Every lane held by a live entry is recorded in `used`. */
  ghost predicate LanesHeld(xs: seq<Actor>, used: set<Slot>)
  {
    forall i :: 0 <= i < |xs| && !xs[i].destroyed && HoldsLane(xs[i]) ==> xs[i].onDestroyed.slot in used
  }

  /** No entry has a destruction callback (the user, projectiles, meteors, the Boss). */
  ghost predicate NoCallbacks(xs: seq<Actor>)
  {
    forall i :: 0 <= i < |xs| ==> xs[i].onDestroyed == NoCallback
  }

  ghost predicate AllLive(xs: seq<Actor>)
  {
    forall i :: 0 <= i < |xs| ==> !xs[i].destroyed
  }

  /** Some live entry's callback frees `s`. */
  ghost predicate LiveHolder(xs: seq<Actor>, s: Slot)
  {
    exists i :: 0 <= i < |xs| && !xs[i].destroyed && xs[i].onDestroyed == FreeSlot(s)
  }

  /** Every lane recorded as used is held by a live entry: a lane goes back to the pool when its enemy dies. */
  ghost predicate NoLeak(xs: seq<Actor>, used: set<Slot>)
  {
    forall s :: s in used && s.Lane? ==> LiveHolder(xs, s)
  }

  /** Every entry that died between `xs` and `ys` no longer has the slot its callback frees recorded in `used`. */
  ghost predicate DeadFreed(ys: seq<Actor>, xs: seq<Actor>, used: set<Slot>)
  {
    |ys| == |xs|
    && forall k :: 0 <= k < |xs| && ys[k].destroyed && !xs[k].destroyed && xs[k].onDestroyed.FreeSlot? ==>
         xs[k].onDestroyed.slot !in used
  }

  /** Freeing the slots a pass released frees the slot of every entry the pass killed. */
  lemma FreeingFreesDead(released: seq<Slot>, ys: seq<Actor>, xs: seq<Actor>, used: set<Slot>)
    requires AllFreed(released, ys, xs)
    ensures DeadFreed(ys, xs, FreeAll(used, released))
  {
    forall k | 0 <= k < |xs| && ys[k].destroyed && !xs[k].destroyed && xs[k].onDestroyed.FreeSlot?
      ensures xs[k].onDestroyed.slot !in FreeAll(used, released)
    {
      assert Freed(released, ys[k], xs[k]);
    }
  }

  /**
   A damage pass that only frees slots, and frees those of the entries it killed, leaves every
   remaining used lane with a live holder.
   */
  lemma DamageKeepsNoLeak(xs: seq<Actor>, ys: seq<Actor>, used: set<Slot>, after: set<Slot>)
    requires AllDamagedFrom(ys, xs) && NoLeak(xs, used)
    requires after <= used && DeadFreed(ys, xs, after)
    ensures NoLeak(ys, after)
  {
    forall s | s in after && s.Lane?
      ensures LiveHolder(ys, s)
    {
      var i :| 0 <= i < |xs| && !xs[i].destroyed && xs[i].onDestroyed == FreeSlot(s);
      assert DamagedFrom(ys[i], xs[i]);
    }
  }

  /** Purging drops only destroyed entries, so every live holder stays. */
  lemma PurgeKeepsNoLeak(xs: seq<Actor>, used: set<Slot>)
    requires NoLeak(xs, used)
    ensures NoLeak(Purge(xs), used)
  {
    var r := Purge(xs);
    forall s | s in used && s.Lane?
      ensures LiveHolder(r, s)
    {
      var i :| 0 <= i < |xs| && !xs[i].destroyed && xs[i].onDestroyed == FreeSlot(s);
      assert xs[i] in r;
      var j :| 0 <= j < |r| && r[j] == xs[i];
    }
  }

  /** Position-wise, the same destroyed flags and callbacks: what moving and acting keep. */
  ghost predicate SameTags(ys: seq<Actor>, xs: seq<Actor>)
  {
    |ys| == |xs| && forall k :: 0 <= k < |xs| ==> ys[k].destroyed == xs[k].destroyed && ys[k].onDestroyed == xs[k].onDestroyed
  }

  /** Everything this module tracks depends only on flags and callbacks, so lists with the same tags agree on it. */
  lemma SameTagsKeep(ys: seq<Actor>, xs: seq<Actor>, used: set<Slot>)
    requires SameTags(ys, xs)
    ensures LanesDistinct(xs) ==> LanesDistinct(ys)
    ensures LanesHeld(xs, used) ==> LanesHeld(ys, used)
    ensures NoCallbacks(xs) ==> NoCallbacks(ys)
    ensures AllLive(xs) ==> AllLive(ys)
    ensures NoLeak(xs, used) ==> NoLeak(ys, used)
  {
    if NoLeak(xs, used) {
      forall s | s in used && s.Lane?
        ensures LiveHolder(ys, s)
      {
        var i :| 0 <= i < |xs| && !xs[i].destroyed && xs[i].onDestroyed == FreeSlot(s);
        assert ys[i].destroyed == xs[i].destroyed;
      }
    }
  }

  /** A lane not recorded as used is held by no live entry. */
  lemma FreeLaneUnheld(xs: seq<Actor>, used: set<Slot>, s: Slot, i: int)
    requires LanesHeld(xs, used) && s !in used
    requires 0 <= i < |xs| && !xs[i].destroyed
    ensures xs[i].onDestroyed != FreeSlot(s) || !s.Lane?
  {
  }

  /** Callbacks that died with their holders in a list whose other parts have no callbacks died in the middle part. */
  lemma DiedHoldingAmong(front: seq<Actor>, ys: seq<Actor>, back: seq<Actor>, s: Slot)
    requires NoCallbacks(front) && NoCallbacks(back)
    requires DiedHolding(front + ys + back, s)
    ensures DiedHolding(ys, s)
  {
    var all := front + ys + back;
    assert forall i :: 0 <= i < |front| ==> all[i].onDestroyed == NoCallback;
    assert forall i :: |front| + |ys| <= i < |all| ==> all[i].onDestroyed == NoCallback;
    var k :| 0 <= k < |all| && all[k].destroyed && all[k].onDestroyed == FreeSlot(s);
    assert all[k] == ys[k - |front|];
  }

  /**
   Freeing what a pass over actors without callbacks released never frees a lane a live enemy
   holds: such a pass releases nothing.
   */
  lemma ReleaseElsewhereKeepsHeld(others: seq<Actor>, xs: seq<Actor>, used: set<Slot>, released: seq<Slot>)
    requires NoCallbacks(others) && ReleasedBy(released, others)
    requires LanesHeld(xs, used)
    ensures LanesHeld(xs, FreeAll(used, released))
  {
    forall i | 0 <= i < |xs| && !xs[i].destroyed && HoldsLane(xs[i])
      ensures xs[i].onDestroyed.slot in FreeAll(used, released)
    {
      var s := xs[i].onDestroyed.slot;
      assert s in used;
      assert forall k :: 0 <= k < |others| ==> others[k].onDestroyed != FreeSlot(s);
    }
  }

  /** Damage keeps callbacks, so it keeps lanes distinct and keeps having no callbacks. */
  lemma DamageKeepsCallbacks(ys: seq<Actor>, xs: seq<Actor>)
    requires AllDamagedFrom(ys, xs)
    ensures LanesDistinct(xs) ==> LanesDistinct(ys)
    ensures NoCallbacks(xs) ==> NoCallbacks(ys)
  {
    assert forall k :: 0 <= k < |xs| ==> ys[k].onDestroyed == xs[k].onDestroyed;
  }

  /**
   After a damage pass over an enemy list with distinct lanes, freeing the released slots never
   frees a lane a surviving enemy still holds: a released lane belongs to a destroyed enemy, and
   no live enemy shares it.
   */
  lemma ReleaseKeepsHeld(xs: seq<Actor>, ys: seq<Actor>, used: set<Slot>, released: seq<Slot>)
    requires AllDamagedFrom(ys, xs)
    requires LanesDistinct(xs) && LanesHeld(xs, used)
    requires ReleasedBy(released, ys)
    ensures LanesDistinct(ys)
    ensures LanesHeld(ys, FreeAll(used, released))
  {
    DamageKeepsCallbacks(ys, xs);
    forall i | 0 <= i < |ys| && !ys[i].destroyed && HoldsLane(ys[i])
      ensures ys[i].onDestroyed.slot in FreeAll(used, released)
    {
      var s := ys[i].onDestroyed.slot;
      assert DamagedFrom(ys[i], xs[i]);
      if s in released {
        var k :| 0 <= k < |ys| && ys[k].destroyed && ys[k].onDestroyed == FreeSlot(s);
        assert k != i;
        if k < i {
          assert HoldsLane(ys[k]);
        }
      }
    }
  }

  /** `ReleaseKeepsHeld` when the pass also covered lists without callbacks on either side. */
  lemma ReleaseAmongKeepsHeld(front: seq<Actor>, xs: seq<Actor>, ys: seq<Actor>, back: seq<Actor>,
                              used: set<Slot>, released: seq<Slot>)
    requires NoCallbacks(front) && NoCallbacks(back)
    requires AllDamagedFrom(ys, xs)
    requires LanesDistinct(xs) && LanesHeld(xs, used)
    requires ReleasedBy(released, front + ys + back)
    ensures LanesDistinct(ys)
    ensures LanesHeld(ys, FreeAll(used, released))
  {
    forall s | s in released ensures DiedHolding(ys, s) {
      DiedHoldingAmong(front, ys, back, s);
    }
    ReleaseKeepsHeld(xs, ys, used, released);
  }

  /** Purging keeps the survivors in order, so it keeps their lanes distinct and recorded. */
  lemma {:induction false} PurgeKeepsLanes(xs: seq<Actor>, used: set<Slot>)
    ensures LanesDistinct(xs) ==> LanesDistinct(Purge(xs))
    ensures LanesHeld(xs, used) ==> LanesHeld(Purge(xs), used)
    ensures NoCallbacks(xs) ==> NoCallbacks(Purge(xs))
    ensures AllLive(Purge(xs))
    decreases |xs|
  {
    var r := Purge(xs);
    if xs != [] {
      var n := |xs| - 1;
      var front := Purge(xs[..n]);
      assert LanesDistinct(xs) ==> LanesDistinct(xs[..n]);
      assert LanesHeld(xs, used) ==> LanesHeld(xs[..n], used);
      assert NoCallbacks(xs) ==> NoCallbacks(xs[..n]);
      PurgeKeepsLanes(xs[..n], used);
      if !xs[n].destroyed {
        assert r == front + [xs[n]];
        if LanesDistinct(xs) {
          forall i, j | 0 <= i < j < |r| && HoldsLane(r[i])
            ensures r[i].onDestroyed != r[j].onDestroyed
          {
            if j == |front| {
              assert r[i] in xs[..n];
              var k :| 0 <= k < n && xs[..n][k] == r[i];
              assert xs[k] == r[i];
            } else {
              assert r[i] == front[i] && r[j] == front[j];
            }
          }
        }
        if LanesHeld(xs, used) {
          forall i | 0 <= i < |r| && !r[i].destroyed && HoldsLane(r[i])
            ensures r[i].onDestroyed.slot in used
          {
            if i == |front| {
              assert r[i] == xs[n];
            } else {
              assert r[i] == front[i];
            }
          }
        }
      }
    }
  }
}

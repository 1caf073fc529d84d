/** `ReorgOps`: the two-pointer walk from two tipsets back to their nearest common ancestor. */
module Reorg {
  import opened Chain

  /** Loading a tipset by its key; `None` is a failed lookup. */
  type Lookup = TipSetKey -> Option<TipSet>

  /** The tipset `n` parent links back from `t`. */
  function Up(lts: Lookup, t: TipSet, n: nat): Option<TipSet>
    decreases n
  {
    if n == 0 then Some(t)
    else if lts(t.parents).None? then None
    else Up(lts, lts(t.parents).value, n - 1)
  }

  ghost predicate Ancestor(lts: Lookup, c: TipSet, t: TipSet) {
    exists n: nat :: Up(lts, t, n) == Some(c)
  }

  ghost predicate Common(lts: Lookup, c: TipSet, a: TipSet, b: TipSet) {
    Ancestor(lts, c, a) && Ancestor(lts, c, b)
  }

  /** `chain` walks the parent links from `t` and stops just before `stop`. */
  ghost predicate Segment(lts: Lookup, t: TipSet, chain: seq<TipSet>, stop: TipSet) {
    && (forall i | 0 <= i < |chain| :: Up(lts, t, i) == Some(chain[i]))
    && Up(lts, t, |chain|) == Some(stop)
  }

  /** The parents of `t`, when they can be loaded, are lower. */
  ghost predicate Falls(lts: Lookup, t: TipSet) {
    0 <= t.height && (lts(t.parents).Some? ==> lts(t.parents).value.height < t.height)
  }

  ghost predicate Sound(lts: Lookup) {
    forall k :: lts(k).Some? ==> Falls(lts, lts(k).value)
  }

  lemma {:induction false} UpStep(lts: Lookup, t: TipSet, n: nat)
    requires Up(lts, t, n).Some?
    ensures Up(lts, t, n + 1) == lts(Up(lts, t, n).value.parents)
    decreases n
  {
    if n == 0 {
      assert lts(t.parents).Some? ==> Up(lts, lts(t.parents).value, 0) == lts(t.parents);
    } else {
      UpStep(lts, lts(t.parents).value, n - 1);
    }
  }

  /** Going up only ever gets lower. */
  lemma {:induction false} UpFalls(lts: Lookup, t: TipSet, n: nat)
    requires Sound(lts) && Falls(lts, t) && Up(lts, t, n).Some?
    ensures Falls(lts, Up(lts, t, n).value)
    ensures Up(lts, t, n).value.height <= t.height - n
    decreases n
  {
    if n > 0 {
      assert Falls(lts, lts(t.parents).value);
      UpFalls(lts, lts(t.parents).value, n - 1);
    }
  }

  /** An ancestor other than the tipset itself is an ancestor of its parent, and lower. */
  lemma ProperAncestor(lts: Lookup, c: TipSet, t: TipSet)
    requires Sound(lts) && Falls(lts, t) && Ancestor(lts, c, t)
    ensures c.height <= t.height
    ensures c != t ==> && c.height < t.height
                       && lts(t.parents).Some?
                       && Ancestor(lts, c, lts(t.parents).value)
  {
    var n: nat :| Up(lts, t, n) == Some(c);
    UpFalls(lts, t, n);
    if n > 0 {
      assert Up(lts, lts(t.parents).value, n - 1) == Some(c);
    }
  }

  lemma {:induction false} UpUp(lts: Lookup, t: TipSet, n: nat, k: nat)
    requires Up(lts, t, n).Some?
    ensures Up(lts, t, n + k) == Up(lts, Up(lts, t, n).value, k)
    decreases n
  {
    if n > 0 {
      UpUp(lts, lts(t.parents).value, n - 1, k);
    }
  }

  lemma ExtendSegment(lts: Lookup, t: TipSet, chain: seq<TipSet>, stop: TipSet, parent: TipSet)
    requires Segment(lts, t, chain, stop) && lts(stop.parents) == Some(parent)
    ensures Segment(lts, t, chain + [stop], parent)
  {
    UpStep(lts, t, |chain|);
  }

  /** The taller side moves; the common ancestors stay common. */
  lemma StepKeepsCommon(lts: Lookup, c: TipSet, moving: TipSet, other: TipSet)
    requires Sound(lts) && Falls(lts, moving) && Falls(lts, other)
    requires moving != other && other.height <= moving.height
    requires Common(lts, c, moving, other)
    ensures lts(moving.parents).Some? && Common(lts, c, lts(moving.parents).value, other)
  {
    ProperAncestor(lts, c, moving);
    ProperAncestor(lts, c, other);
  }

  /** Nothing on the two segments below the nearest common ancestor is shared. */
  lemma SegmentsAreApart(lts: Lookup, a: TipSet, b: TipSet, chain: seq<TipSet>, stop: TipSet)
    requires Sound(lts) && Falls(lts, a) && Segment(lts, a, chain, stop)
    requires forall c | Common(lts, c, a, b) :: Ancestor(lts, c, stop)
    ensures forall x | x in chain :: !Ancestor(lts, x, b)
  {
    forall x | x in chain
      ensures !Ancestor(lts, x, b)
    {
      var i :| 0 <= i < |chain| && chain[i] == x;
      UpFalls(lts, a, i);
      UpUp(lts, a, i, |chain| - i);
      UpFalls(lts, x, |chain| - i);
      if Ancestor(lts, x, b) {
        assert Common(lts, x, a, b);
        UpFalls(lts, a, |chain|);
        ProperAncestor(lts, x, stop);
        assert false;
      }
    }
  }

  /** The segments of both chains below the nearest common ancestor `stop`, which neither contains;
      a failed lookup is reported exactly when there is no common ancestor at all. */
  method ReorgOps(lts: Lookup, a: TipSet, b: TipSet)
    returns (r: Option<(seq<TipSet>, seq<TipSet>)>, ghost stop: TipSet)
    requires Sound(lts) && Falls(lts, a) && Falls(lts, b)
    ensures r.None? <==> forall c :: !Common(lts, c, a, b)
    ensures r.Some? ==>
              && Segment(lts, a, r.value.0, stop)
              && Segment(lts, b, r.value.1, stop)
              && (forall c | Common(lts, c, a, b) :: Ancestor(lts, c, stop))
              && (forall x | x in r.value.0 :: !Ancestor(lts, x, b))
              && (forall x | x in r.value.1 :: !Ancestor(lts, x, a))
              && stop !in r.value.0 && stop !in r.value.1
              && (forall x | x in r.value.0 :: x !in r.value.1)
  {
    var left, right := a, b;
    var leftChain, rightChain := [], [];
    while left != right
      invariant Falls(lts, left) && Falls(lts, right)
      invariant Segment(lts, a, leftChain, left)
      invariant Segment(lts, b, rightChain, right)
      invariant forall c | Common(lts, c, a, b) :: Common(lts, c, left, right)
      decreases left.height + right.height
    {
      var taller, lower := if left.height > right.height then left else right,
                           if left.height > right.height then right else left;
      forall c | Common(lts, c, a, b)
        ensures lts(taller.parents).Some? && Common(lts, c, lts(taller.parents).value, lower)
      {
        StepKeepsCommon(lts, c, taller, lower);
      }
      if left.height > right.height {
        var par := lts(left.parents);
        if par.None? {
          return None, a;
        }
        ExtendSegment(lts, a, leftChain, left, par.value);
        leftChain, left := leftChain + [left], par.value;
      } else {
        var par := lts(right.parents);
        if par.None? {
          return None, a;
        }
        ExtendSegment(lts, b, rightChain, right, par.value);
        rightChain, right := rightChain + [right], par.value;
      }
    }
    r, stop := Some((leftChain, rightChain)), left;
    assert Common(lts, stop, a, b) by {
      assert Up(lts, a, |leftChain|) == Some(stop) && Up(lts, b, |rightChain|) == Some(stop);
    }
    SegmentsAreApart(lts, a, b, leftChain, stop);
    SegmentsAreApart(lts, b, a, rightChain, stop);
    forall x | x in rightChain
      ensures x !in leftChain
    {
      var i :| 0 <= i < |rightChain| && rightChain[i] == x;
      assert Up(lts, b, i) == Some(x);
    }
  }
}

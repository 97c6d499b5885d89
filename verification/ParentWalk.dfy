/** Walking a parent relation that may be cyclic: the node, then its successive
    parents, stopping at a repeat, at a missing parent, or at a length limit.
    The walk is compared with reachability, which is defined without it. */
module ParentWalk {
  import opened Prelude

  /** The ancestor `n` steps up, if the path is that long. */
  ghost function Nth<K>(parent: map<K, K>, a: K, n: nat): Option<K> {
    if n == 0 then Some(a)
    else
      var below := Nth(parent, a, n - 1);
      if below.Some? && below.value in parent then Some(parent[below.value]) else None
  }

  ghost predicate Ancestor<K>(parent: map<K, K>, a: K, b: K) {
    exists n: nat :: Nth(parent, a, n) == Some(b)
  }

  /** `a` and everything above it. */
  ghost function Reach<K>(parent: map<K, K>, a: K): set<K> {
    set b | b in parent.Keys + parent.Values + {a} && Ancestor(parent, a, b)
  }

  /** Continue a walk that has visited `seen`, up to `limit` nodes in all. */
  function Continue<K(==)>(parent: map<K, K>, seen: seq<K>, limit: nat): (r: seq<K>)
    requires seen != []
    decreases limit - |seen|
  {
    var last := seen[|seen| - 1];
    if |seen| >= limit || last !in parent || parent[last] in seen then seen
    else Continue(parent, seen + [parent[last]], limit)
  }

  function Walk<K(==)>(parent: map<K, K>, start: K, limit: nat): (r: seq<K>) {
    if limit == 0 then [] else Continue(parent, [start], limit)
  }

  /** `s` is `a` followed by its successive parents. */
  ghost predicate IsPath<K>(parent: map<K, K>, a: K, s: seq<K>) {
    && s != []
    && s[0] == a
    && forall i | 0 <= i < |s| - 1 :: s[i] in parent && parent[s[i]] == s[i + 1]
  }

  /** The parent of the last node is missing or already visited. */
  ghost predicate Closed<K>(parent: map<K, K>, s: seq<K>)
    requires s != []
  {
    s[|s| - 1] in parent ==> parent[s[|s| - 1]] in s
  }

  lemma {:induction false} ContinueShape<K>(parent: map<K, K>, a: K, seen: seq<K>, limit: nat)
    requires IsPath(parent, a, seen) && NoDup(seen) && |seen| <= limit
    ensures var w := Continue(parent, seen, limit);
            IsPath(parent, a, w) && NoDup(w) && |w| <= limit && (|w| < limit ==> Closed(parent, w))
    decreases limit - |seen|
  {
    var last := seen[|seen| - 1];
    if |seen| < limit && last in parent && parent[last] !in seen {
      ContinueShape(parent, a, seen + [parent[last]], limit);
    }
  }

  /** For every parent map, cyclic or not: the walk starts at `a`, follows parents, repeats
      nothing, respects the limit, and stops early only for a missing or repeated parent. */
  lemma WalkShape<K>(parent: map<K, K>, a: K, limit: nat)
    requires limit > 0
    ensures var w := Walk(parent, a, limit);
            IsPath(parent, a, w) && NoDup(w) && |w| <= limit && (|w| < limit ==> Closed(parent, w))
  {
    ContinueShape(parent, a, [a], limit);
  }

  lemma {:induction false} PathIsNth<K>(parent: map<K, K>, a: K, s: seq<K>, i: nat)
    requires IsPath(parent, a, s) && i < |s|
    ensures Nth(parent, a, i) == Some(s[i])
  {
    if i > 0 {
      PathIsNth(parent, a, s, i - 1);
    }
  }

  lemma NthInRange<K>(parent: map<K, K>, a: K, n: nat, b: K)
    requires Nth(parent, a, n) == Some(b)
    ensures b in Reach(parent, a)
  {
  }

  lemma {:induction false} NthCompose<K>(parent: map<K, K>, a: K, n: nat, b: K, m: nat)
    requires Nth(parent, a, n) == Some(b)
    ensures Nth(parent, a, n + m) == Nth(parent, b, m)
  {
    if m > 0 {
      NthCompose(parent, a, n, b, m - 1);
    }
  }

  /** A set that holds `a` and is closed under parents holds everything reachable. */
  lemma {:induction false} ClosedSetHolds<K>(parent: map<K, K>, a: K, c: set<K>, n: nat)
    requires a in c && forall x | x in c && x in parent :: parent[x] in c
    ensures Nth(parent, a, n).Some? ==> Nth(parent, a, n).value in c
  {
    if n > 0 {
      ClosedSetHolds(parent, a, c, n - 1);
    }
  }

  lemma ReachInClosed<K>(parent: map<K, K>, a: K, c: set<K>)
    requires a in c && forall x | x in c && x in parent :: parent[x] in c
    ensures Reach(parent, a) <= c
  {
    forall b | b in Reach(parent, a) ensures b in c {
      var n: nat :| Nth(parent, a, n) == Some(b);
      ClosedSetHolds(parent, a, c, n);
    }
  }

  lemma ReachTransitive<K>(parent: map<K, K>, a: K, b: K)
    requires b in Reach(parent, a)
    ensures Reach(parent, b) <= Reach(parent, a)
  {
    var n: nat :| Nth(parent, a, n) == Some(b);
    forall c | c in Reach(parent, b) ensures c in Reach(parent, a) {
      var m: nat :| Nth(parent, b, m) == Some(c);
      NthCompose(parent, a, n, b, m);
      NthInRange(parent, a, n + m, c);
    }
  }

  lemma PathWithinReach<K>(parent: map<K, K>, a: K, s: seq<K>)
    requires IsPath(parent, a, s)
    ensures Elems(s) <= Reach(parent, a)
  {
    forall i | 0 <= i < |s| ensures s[i] in Reach(parent, a) {
      PathIsNth(parent, a, s, i);
      NthInRange(parent, a, i, s[i]);
    }
  }

  lemma ClosedPathIsReach<K>(parent: map<K, K>, a: K, s: seq<K>)
    requires IsPath(parent, a, s) && Closed(parent, s)
    ensures Elems(s) == Reach(parent, a)
  {
    forall x | x in Elems(s) && x in parent ensures parent[x] in Elems(s) {
      var i :| 0 <= i < |s| && s[i] == x;
      if i < |s| - 1 {
        assert parent[x] == s[i + 1];
      }
    }
    ReachInClosed(parent, a, Elems(s));
    PathWithinReach(parent, a, s);
  }

  /** The walk lists exactly what is reachable, if and only if that fits in the limit. */
  lemma WalkListsReachIff<K>(parent: map<K, K>, a: K, limit: nat)
    requires limit > 0
    ensures Elems(Walk(parent, a, limit)) == Reach(parent, a) <==> |Reach(parent, a)| <= limit
  {
    var w := Walk(parent, a, limit);
    WalkShape(parent, a, limit);
    NoDupSize(w);
    if |w| < limit {
      ClosedPathIsReach(parent, a, w);
    } else {
      PathWithinReach(parent, a, w);
      SubsetSize(Elems(w), Reach(parent, a));
    }
  }

  /** Walking from the parent sees nothing new, if and only if everything above `a` fits. */
  lemma ParentWalkIncludedIff<K>(parent: map<K, K>, a: K, limit: nat)
    requires limit > 0 && a in parent
    ensures Elems(Walk(parent, parent[a], limit)) <= Elems(Walk(parent, a, limit))
       <==> |Reach(parent, a)| <= limit
  {
    var p := parent[a];
    var w, wp := Walk(parent, a, limit), Walk(parent, p, limit);
    assert Nth(parent, a, 0) == Some(a) && Nth(parent, a, 1) == Some(p);
    NthInRange(parent, a, 1, p);
    ReachTransitive(parent, a, p);
    SubsetSize(Reach(parent, p), Reach(parent, a));
    WalkListsReachIff(parent, a, limit);
    WalkListsReachIff(parent, p, limit);
    if Elems(wp) <= Elems(w) && |Reach(parent, a)| > limit {
      OverflowShowsThrough(parent, a, limit);
    }
  }

  lemma OverflowShowsThrough<K>(parent: map<K, K>, a: K, limit: nat)
    requires limit > 0 && a in parent && |Reach(parent, a)| > limit
    ensures !(Elems(Walk(parent, parent[a], limit)) <= Elems(Walk(parent, a, limit)))
  {
    var p := parent[a];
    var w, wp := Walk(parent, a, limit), Walk(parent, p, limit);
    WalkShape(parent, a, limit);
    WalkShape(parent, p, limit);
    NoDupSize(w);
    NoDupSize(wp);
    if Elems(wp) <= Elems(w) {
      SubsetSize(Elems(wp), Elems(w));
      if |w| < limit {
        ClosedPathIsReach(parent, a, w);
        assert false;
      } else if |wp| < limit {
        ClosedPathIsReach(parent, p, wp);
        AncestorsOfParentSuffice(parent, a, Elems(w));
        SubsetSize(Reach(parent, a), Elems(w));
        assert false;
      } else {
        PathIsNth(parent, a, w, limit - 1);
        PathIsNth(parent, p, wp, limit - 1);
        assert Nth(parent, a, 1) == Some(p) by { assert Nth(parent, a, 0) == Some(a); }
        NthCompose(parent, a, 1, p, limit - 1);
        assert wp[limit - 1] in Elems(wp);
        ClosedPathIsReach(parent, a, w);
        assert false;
      }
    }
  }

  lemma AncestorsOfParentSuffice<K>(parent: map<K, K>, a: K, c: set<K>)
    requires a in parent && a in c && Reach(parent, parent[a]) <= c
    ensures Reach(parent, a) <= c
  {
    var above := Reach(parent, parent[a]);
    assert Nth(parent, parent[a], 0) == Some(parent[a]);
    NthInRange(parent, parent[a], 0, parent[a]);
    forall x | x in {a} + above && x in parent ensures parent[x] in {a} + above {
      if x in above {
        var n: nat :| Nth(parent, parent[a], n) == Some(x);
        NthInRange(parent, parent[a], n + 1, parent[x]);
      }
    }
    ReachInClosed(parent, a, {a} + above);
  }

  /** Different nodes that reach each other walk the same set, if and only if it fits in the limit. */
  lemma CycleSharesWalkIff<K>(parent: map<K, K>, a: K, b: K, limit: nat)
    requires limit > 0 && b in Reach(parent, a) && a in Reach(parent, b)
    ensures Elems(Walk(parent, a, limit)) == Elems(Walk(parent, b, limit))
       <==> a == b || |Reach(parent, a)| <= limit
  {
    ReachTransitive(parent, a, b);
    ReachTransitive(parent, b, a);
    assert Reach(parent, a) == Reach(parent, b);
    WalkListsReachIff(parent, a, limit);
    WalkListsReachIff(parent, b, limit);
    if a != b && |Reach(parent, a)| > limit && Elems(Walk(parent, a, limit)) == Elems(Walk(parent, b, limit)) {
      OverflowSeparates(parent, a, b, limit);
    }
  }

  /** A walk that was cut off ends one node short of what the walk from further up sees. */
  lemma OverflowSeparates<K>(parent: map<K, K>, a: K, b: K, limit: nat)
    requires limit > 0 && a != b && |Reach(parent, a)| > limit && |Reach(parent, b)| > limit
    ensures Elems(Walk(parent, a, limit)) != Elems(Walk(parent, b, limit))
  {
    var w, wb := Walk(parent, a, limit), Walk(parent, b, limit);
    WalkShape(parent, a, limit);
    WalkShape(parent, b, limit);
    CutWalkIsFull(parent, a, limit);
    CutWalkIsFull(parent, b, limit);
    if Elems(w) == Elems(wb) {
      assert wb[0] in Elems(wb);
      var i :| 0 <= i < |w| && w[i] == b;
      PathIsNth(parent, a, w, i);
      PathIsNth(parent, b, wb, limit - i);
      NthCompose(parent, a, i, b, limit - i);
      PathIsNth(parent, a, w, limit - 1);
      assert wb[limit - i] in Elems(w);
      ClosedPathIsReach(parent, a, w);
      NoDupSize(w);
      assert false;
    }
  }

  lemma CutWalkIsFull<K>(parent: map<K, K>, a: K, limit: nat)
    requires limit > 0 && |Reach(parent, a)| > limit
    ensures |Walk(parent, a, limit)| == limit
  {
    var w := Walk(parent, a, limit);
    WalkShape(parent, a, limit);
    if |w| < limit {
      ClosedPathIsReach(parent, a, w);
      NoDupSize(w);
    }
  }

  /** When the path above `a` ends and fits, the walk is that whole path, in order. */
  lemma WalkIsFullPath<K>(parent: map<K, K>, a: K, limit: nat, end: nat)
    requires limit > 0 && Nth(parent, a, end) == None && |Reach(parent, a)| <= limit
    ensures var w := Walk(parent, a, limit);
            && (forall i | 0 <= i < |w| :: Nth(parent, a, i) == Some(w[i]))
            && Nth(parent, a, |w|) == None
  {
    var w := Walk(parent, a, limit);
    WalkShape(parent, a, limit);
    WalkListsReachIff(parent, a, limit);
    forall i | 0 <= i < |w| ensures Nth(parent, a, i) == Some(w[i]) {
      PathIsNth(parent, a, w, i);
    }
    var last := w[|w| - 1];
    assert Nth(parent, a, |w| - 1) == Some(last);
    if last in parent {
      NthInRange(parent, a, |w|, parent[last]);
      var i :| 0 <= i < |w| && w[i] == parent[last];
      LoopNeverEnds(parent, a, i, |w| - i, end);
      assert false;
    }
  }

  /** Once the path meets an earlier node it never ends. */
  lemma {:induction false} LoopNeverEnds<K>(parent: map<K, K>, a: K, i: nat, period: nat, n: nat)
    requires period > 0 && Nth(parent, a, i).Some? && Nth(parent, a, i) == Nth(parent, a, i + period)
    ensures Nth(parent, a, n).Some?
  {
    if n <= i {
      NthDefinedBelow(parent, a, n, i);
    } else if n <= i + period {
      NthDefinedBelow(parent, a, n, i + period);
    } else {
      LoopNeverEnds(parent, a, i, period, n - period);
      var b := Nth(parent, a, i).value;
      NthCompose(parent, a, i, b, n - period - i);
      NthCompose(parent, a, i + period, b, n - period - i);
    }
  }

  lemma {:induction false} NthDefinedBelow<K>(parent: map<K, K>, a: K, n: nat, m: nat)
    requires n <= m && Nth(parent, a, m).Some?
    ensures Nth(parent, a, n).Some?
    decreases m
  {
    if n < m {
      NthDefinedBelow(parent, a, n, m - 1);
    }
  }
}

/** Which module configurations are accepted, and what chain they describe. */
module Topology {
  import opened Sequences

  /** `id` and `next` of the configured modules, in list order. */
  datatype Config = Config(ids: seq<int>, nexts: seq<int>)
  {
    predicate WellFormed() {
      |ids| == |nexts|
    }

    function Size(): nat {
      |ids|
    }

    predicate DistinctIds() {
      forall i, j :: 0 <= i < j < |ids| ==> ids[i] != ids[j]
    }

    /** Every link is -1 or the id of some module. */
    predicate LinksKnown()
      requires WellFormed()
    {
      forall i :: 0 <= i < |nexts| ==> nexts[i] == -1 || nexts[i] in ids
    }
  }

  /** The reader's index from ids to places in the list: of equal ids the last wins. */
  function IndexMap(ids: seq<int>): (m: map<int, int>)
    ensures forall id :: id in m ==> 0 <= m[id] < |ids| && ids[m[id]] == id
    ensures forall id, j :: id in m && m[id] < j < |ids| ==> ids[j] != id
    ensures forall i :: 0 <= i < |ids| ==> ids[i] in m
  {
    if ids == [] then map[] else IndexMap(ids[..|ids| - 1])[ids[|ids| - 1] := |ids| - 1]
  }

  /** What a lookup in the index yields: a missing id creates the entry 0. */
  function Lookup(m: map<int, int>, id: int): int {
    if id in m then m[id] else 0
  }

  /** The module that `dfs_check` goes to after module `i`. */
  function Follow(c: Config, i: nat): int
    requires c.WellFormed() && i < c.Size()
  {
    Lookup(IndexMap(c.ids), c.nexts[i])
  }

  /** A walk along the links from `first`, not beyond a module without a link. */
  predicate Walk(c: Config, first: int, path: seq<int>)
    requires c.WellFormed()
  {
    && (forall j :: 0 <= j < |path| ==> 0 <= path[j] < c.Size())
    && (path != [] ==> path[0] == first)
    && (forall j :: 0 <= j < |path| - 1 ==> c.nexts[path[j]] != -1 && path[j + 1] == Follow(c, path[j]))
  }

  /** One path from `first` through every module to one without a link. */
  predicate FullChain(c: Config, first: int, chain: seq<int>)
    requires c.WellFormed()
  {
    && chain != [] && Walk(c, first, chain) && Distinct(chain)
    && c.nexts[chain[|chain| - 1]] == -1
    && forall i :: 0 <= i < c.Size() ==> i in chain
  }

  /** The links leave no choice: a walk follows every full chain. */
  lemma {:induction false} WalkFollowsChain(c: Config, first: int, path: seq<int>, chain: seq<int>)
    requires c.WellFormed() && Walk(c, first, path) && FullChain(c, first, chain)
    ensures path <= chain
  {
    if path != [] {
      var n := |path| - 1;
      WalkFollowsChain(c, first, path[..n], chain);
      if n > 0 {
        assert path[n - 1] == chain[n - 1];
        assert c.nexts[path[n - 1]] != -1;
        assert n - 1 < |chain| - 1;
      }
    }
  }

  /** So there is at most one. */
  lemma ChainUnique(c: Config, first: int, a: seq<int>, b: seq<int>)
    requires c.WellFormed() && FullChain(c, first, a) && FullChain(c, first, b)
    ensures a == b
  {
    WalkFollowsChain(c, first, a, b);
    WalkFollowsChain(c, first, b, a);
  }

  /** A full chain cannot go on where a walk stops for want of a link. */
  lemma WalkEndsChain(c: Config, first: int, path: seq<int>, chain: seq<int>)
    requires c.WellFormed() && path != [] && Walk(c, first, path) && FullChain(c, first, chain)
    requires c.nexts[path[|path| - 1]] == -1
    ensures chain == path
  {
    WalkFollowsChain(c, first, path, chain);
    var n := |path| - 1;
    assert chain[n] == path[n];
  }

  /** A walk that comes back to where it has been. */
  lemma LoopMeansNone(c: Config, first: int, path: seq<int>, now: int)
    requires c.WellFormed() && Walk(c, first, path + [now]) && now in path
    ensures forall chain :: !FullChain(c, first, chain)
  {
    forall chain
      ensures !FullChain(c, first, chain)
    {
      if FullChain(c, first, chain) { NoLoop(c, first, path, now, chain); }
    }
  }

  lemma NoLoop(c: Config, first: int, path: seq<int>, now: int, chain: seq<int>)
    requires c.WellFormed() && Walk(c, first, path + [now]) && FullChain(c, first, chain)
    ensures now !in path
  {
    WalkFollowsChain(c, first, path + [now], chain);
    assert (path + [now])[|path|] == chain[|path|];
    forall j | 0 <= j < |path|
      ensures path[j] != now
    {
      assert (path + [now])[j] == chain[j];
    }
  }

  /** A walk that ends before it has been everywhere. */
  lemma MissedMeansNone(c: Config, first: int, path: seq<int>, missed: nat)
    requires c.WellFormed() && path != [] && Walk(c, first, path) && c.nexts[path[|path| - 1]] == -1
    requires missed < c.Size() && missed !in path
    ensures forall chain :: !FullChain(c, first, chain)
  {
    forall chain
      ensures !FullChain(c, first, chain)
    {
      if FullChain(c, first, chain) { WalkEndsChain(c, first, path, chain); }
    }
  }

  /** Its search for a module that will never be started. */
  method FirstMissed(was: array<bool>) returns (i: nat)
    ensures i <= was.Length && (i < was.Length ==> !was[i])
    ensures forall j :: 0 <= j < i ==> was[j]
  {
    i := 0;
    while i < was.Length && was[i]
      invariant i <= was.Length && forall j :: 0 <= j < i ==> was[j]
    {
      i := i + 1;
    }
  }

  /** `dfs_check`. Auxiliary: `path` is where it has been, in order; `map` entries made
      by a lookup of a missing key change nothing, as they say what the lookup said. */
  method DfsCheck(c: Config, idxMap: map<int, int>, was: array<bool>, now: int, ghost first: int, ghost path: seq<int>)
    returns (rc: int)
    requires c.WellFormed() && was.Length == c.Size() && now != -1
    requires forall id :: Lookup(idxMap, id) == Lookup(IndexMap(c.ids), id)
    requires 0 <= now < c.Size() ==> Walk(c, first, path + [now])
    requires Distinct(path) && forall i :: 0 <= i < c.Size() ==> (was[i] <==> i in path)
    modifies was
    ensures rc == 0 || rc == -1
    ensures rc == 0 <==> 0 <= now < c.Size() && exists chain :: FullChain(c, first, chain)
    decreases c.Size() - |path|
  {
    ghost var path' := path + [now];
    if now < -1 || now >= c.Size() { return -1; }
    if was[now] {
      LoopMeansNone(c, first, path, now);
      return -1;
    }
    was[now] := true;
    WalkFits(c, first, path, now);
    assert forall i :: 0 <= i < c.Size() ==> (was[i] <==> i in path');
    if c.nexts[now] == -1 {
      var i := FirstMissed(was);
      if i < c.Size() {
        MissedMeansNone(c, first, path', i);
        return -1;
      }
      WalkDone(c, first, path, now);
      return 0;
    }
    var next := if c.nexts[now] in idxMap then idxMap[c.nexts[now]] else 0;
    var idxMap' := idxMap[c.nexts[now] := next];
    assert next == Follow(c, now);
    WalkOn(c, first, path, now);
    rc := DfsCheck(c, idxMap', was, next, first, path');
  }

  lemma WalkFits(c: Config, first: int, path: seq<int>, now: int)
    requires c.WellFormed() && Walk(c, first, path + [now]) && Distinct(path) && now !in path
    ensures Distinct(path + [now]) && |path| < c.Size()
  {
    PathFits(path + [now], c.Size());
  }

  lemma WalkOn(c: Config, first: int, path: seq<int>, now: nat)
    requires c.WellFormed() && now < c.Size() && Walk(c, first, path + [now]) && c.nexts[now] != -1
    ensures 0 <= Follow(c, now) < c.Size() && Walk(c, first, path + [now] + [Follow(c, now)])
  {}

  lemma WalkDone(c: Config, first: int, path: seq<int>, now: nat)
    requires c.WellFormed() && now < c.Size() && Walk(c, first, path + [now]) && c.nexts[now] == -1
    requires Distinct(path + [now]) && forall i :: 0 <= i < c.Size() ==> i in path + [now]
    ensures FullChain(c, first, path + [now])
  {}

  /** A path without repetitions is no longer than there are modules. */
  lemma PathFits(path: seq<int>, n: nat)
    requires Distinct(path) && forall j :: 0 <= j < |path| ==> 0 <= path[j] < n
    ensures |path| <= n
  {
    DistinctFits(path, Range(n));
  }

  function Range(n: nat): (r: set<int>)
    ensures forall i :: i in r <==> 0 <= i < n
    ensures |r| == n
  {
    if n == 0 then {} else Range(n - 1) + {n - 1}
  }

  /** The reader's index of the ids. */
  method IndexModules(c: Config) returns (idxMap: map<int, int>)
    requires c.WellFormed()
    ensures idxMap == IndexMap(c.ids)
  {
    idxMap := map[];
    var i := 0;
    while i < c.Size()
      invariant 0 <= i <= c.Size() && idxMap == IndexMap(c.ids[..i])
    {
      assert c.ids[..i + 1][..i] == c.ids[..i];
      idxMap := idxMap[c.ids[i] := i];
      i := i + 1;
    }
    assert c.ids[..i] == c.ids;
  }

  /** The reader's use of it: accepted exactly when the links form one path from the
      first module through every module. */
  method CheckConfiguration(c: Config, first: int) returns (rc: int)
    requires c.WellFormed() && 0 <= first < c.Size()
    ensures rc == 0 || rc == -1
    ensures rc == 0 <==> exists chain :: FullChain(c, first, chain)
  {
    var dfsWas := new bool[c.Size()](_ => false);
    var idxMap := IndexModules(c);
    assert Walk(c, first, [] + [first]);
    rc := DfsCheck(c, idxMap, dfsWas, first, first, []);
  }

  // ------------------------------------------------ the links that are made

  /** The first module of the list with an id, as `pipeline_module_get` finds it. */
  function FirstWith(ids: seq<int>, id: int): (r: int)
    ensures -1 <= r < |ids|
    ensures if id in ids then r >= 0 && ids[r] == id && id !in ids[..r] else r == -1
  {
    if ids == [] then -1
    else if ids[0] == id then 0
    else
      var r := FirstWith(ids[1..], id);
      assert r >= 0 ==> ids[..r + 1] == [ids[0]] + ids[1..][..r];
      if r == -1 then -1 else r + 1
  }

  /** The module whose address becomes `next` of module `i`, or -1 for NULL. */
  function Target(c: Config, i: nat): int
    requires c.WellFormed() && i < c.Size()
  {
    FirstWith(c.ids, c.nexts[i])
  }

  function NullsAmong(c: Config, n: nat): nat
    requires c.WellFormed() && n <= c.Size()
  {
    if n == 0 then 0 else NullsAmong(c, n - 1) + (if Target(c, n - 1) == -1 then 1 else 0)
  }

  /** `pipeline_modules_update` succeeds with at most one NULL. */
  predicate Updates(c: Config)
    requires c.WellFormed()
  {
    NullsAmong(c, c.Size()) <= 1
  }

  /** The pointers form one chain from `first` through every module to the only NULL. */
  predicate LinkedChain(c: Config, first: int, chain: seq<int>)
    requires c.WellFormed()
  {
    && |chain| == c.Size() && chain != [] && chain[0] == first && Distinct(chain)
    && (forall j :: 0 <= j < |chain| ==> 0 <= chain[j] < c.Size())
    && (forall j :: 0 <= j < |chain| - 1 ==> Target(c, chain[j]) == chain[j + 1])
    && Target(c, chain[|chain| - 1]) == -1
  }

  lemma {:induction false} NullsBound(c: Config, n: nat, i: nat, j: nat)
    requires c.WellFormed() && i < j < n <= c.Size() && Target(c, i) == -1 && Target(c, j) == -1
    ensures NullsAmong(c, n) >= 2
  {
    if j < n - 1 { NullsBound(c, n - 1, i, j); } else { NullCounted(c, n - 1, i); }
  }

  lemma {:induction false} NullCounted(c: Config, n: nat, i: nat)
    requires c.WellFormed() && i < n <= c.Size() && Target(c, i) == -1
    ensures NullsAmong(c, n) >= 1
  {
    if i < n - 1 { NullCounted(c, n - 1, i); }
  }

  lemma {:induction false} OneNull(c: Config, n: nat, last: int)
    requires c.WellFormed() && n <= c.Size()
    requires forall i :: 0 <= i < n && i != last ==> Target(c, i) != -1
    ensures NullsAmong(c, n) <= if 0 <= last < n then 1 else 0
  {
    if n > 0 { OneNull(c, n - 1, last); }
  }

  /** With distinct ids a known link leads both lookups to the same module. */
  lemma LookupsAgree(c: Config, i: nat)
    requires c.WellFormed() && c.DistinctIds() && i < c.Size() && c.nexts[i] in c.ids
    ensures Target(c, i) == Follow(c, i) != -1
  {}

  /** A link is without a module exactly when no module has the id it names. */
  lemma TargetExactly(c: Config, i: nat)
    requires c.WellFormed() && i < c.Size()
    ensures Target(c, i) == -1 <==> c.nexts[i] !in c.ids
  {}

  /** The update succeeds on exactly the configurations in which at most one link names
      no module. */
  lemma UpdatesExactly(c: Config)
    requires c.WellFormed()
    ensures Updates(c) <==> forall i, j :: 0 <= i < j < c.Size() ==> c.nexts[i] in c.ids || c.nexts[j] in c.ids
  {
    forall i, j | 0 <= i < j < c.Size()
      ensures Updates(c) ==> c.nexts[i] in c.ids || c.nexts[j] in c.ids
    {
      if Target(c, i) == -1 && Target(c, j) == -1 { NullsBound(c, c.Size(), i, j); }
    }
    if forall i, j :: 0 <= i < j < c.Size() ==> c.nexts[i] in c.ids || c.nexts[j] in c.ids {
      if last :| 0 <= last < c.Size() && c.nexts[last] !in c.ids {
        OneNull(c, c.Size(), last);
      } else {
        OneNull(c, c.Size(), -1);
      }
    }
  }

  /** When no id is -1, it succeeds on an accepted configuration if and only if every
      link is known. */
  lemma AcceptedUpdates(c: Config, first: int, chain: seq<int>)
    requires c.WellFormed() && FullChain(c, first, chain) && -1 !in c.ids
    ensures Updates(c) <==> c.LinksKnown()
  {
    UpdatesExactly(c);
    var last := chain[|chain| - 1];
    forall i | 0 <= i < c.Size() && i != last
      ensures c.nexts[i] != -1
    {
      assert i in chain;
    }
  }

  /** For an accepted configuration the pointers visit every module once and end in the
      only NULL exactly when ids are distinct, none is -1 and every link is known. */
  lemma ChainExactly(c: Config, first: int, chain: seq<int>)
    requires c.WellFormed() && FullChain(c, first, chain)
    ensures LinkedChain(c, first, chain) <==> c.DistinctIds() && -1 !in c.ids && c.LinksKnown()
  {
    ChainSize(c, first, chain);
    if LinkedChain(c, first, chain) {
      LinkedMeansKnown(c, first, chain);
      LinkedMeansDistinct(c, first, chain);
    }
    if c.DistinctIds() && -1 !in c.ids && c.LinksKnown() {
      forall j | 0 <= j < |chain| - 1
        ensures Target(c, chain[j]) == chain[j + 1]
      {
        LookupsAgree(c, chain[j]);
      }
      TargetExactly(c, chain[|chain| - 1]);
    }
  }

  lemma LinkedMeansKnown(c: Config, first: int, chain: seq<int>)
    requires c.WellFormed() && FullChain(c, first, chain) && LinkedChain(c, first, chain)
    ensures -1 !in c.ids && c.LinksKnown()
  {
    TargetExactly(c, chain[|chain| - 1]);
    forall i | 0 <= i < c.Size()
      ensures c.nexts[i] == -1 || c.nexts[i] in c.ids
    {
      assert i in chain;
      var j :| 0 <= j < |chain| && chain[j] == i;
      TargetExactly(c, i);
      if j < |chain| - 1 { assert Target(c, chain[j]) == chain[j + 1]; }
    }
  }

  /** Where the first module with an id is also the last, no other has it; and every
      module but the first of the chain is reached by both lookups. */
  lemma LinkedMeansDistinct(c: Config, first: int, chain: seq<int>)
    requires c.WellFormed() && FullChain(c, first, chain) && LinkedChain(c, first, chain)
    ensures c.DistinctIds()
  {
    forall i, k | 0 <= i < k < c.Size()
      ensures c.ids[i] != c.ids[k]
    {
      if i == first { OnlyOneWith(c, first, chain, k, i); } else { OnlyOneWith(c, first, chain, i, k); }
    }
  }

  lemma OnlyOneWith(c: Config, first: int, chain: seq<int>, x: nat, y: nat)
    requires c.WellFormed() && FullChain(c, first, chain) && LinkedChain(c, first, chain)
    requires x < c.Size() && y < c.Size() && x != first && x != y
    ensures c.ids[y] != c.ids[x]
  {
    assert x in chain;
    var j :| 0 < j < |chain| && chain[j] == x;
    var id := c.nexts[chain[j - 1]];
    assert FirstWith(c.ids, id) == Target(c, chain[j - 1]) == x;
    assert Lookup(IndexMap(c.ids), id) == Follow(c, chain[j - 1]) == x;
    assert id == c.ids[x] && id in IndexMap(c.ids);
    if y < x { assert c.ids[y] == c.ids[..x][y]; }
  }

  lemma ChainSize(c: Config, first: int, chain: seq<int>)
    requires c.WellFormed() && FullChain(c, first, chain)
    ensures |chain| == c.Size()
  {
    PathFits(chain, c.Size());
    DistinctFits(seq(c.Size(), i => i), Visited(chain));
  }

  function Visited(path: seq<int>): (r: set<int>)
    ensures forall i :: i in r <==> i in path
    ensures |r| <= |path|
  {
    if path == [] then {} else Visited(path[..|path| - 1]) + {path[|path| - 1]}
  }

  /** No module sends to the first one, so nothing ever changes the source's `cmd`. */
  lemma NobodySendsToFirst(c: Config, first: int, chain: seq<int>, i: nat)
    requires c.WellFormed() && LinkedChain(c, first, chain) && i < c.Size()
    ensures Target(c, i) != first
  {
    CoveredByAll(chain, c.Size());
    assert i in chain;
    var j :| 0 <= j < |chain| && chain[j] == i;
    if j < |chain| - 1 { assert chain[j + 1] != chain[0]; }
  }

  /** A path of full length without repetitions misses nothing. */
  lemma CoveredByAll(path: seq<int>, n: nat)
    requires Distinct(path) && |path| == n && forall j :: 0 <= j < |path| ==> 0 <= path[j] < n
    ensures forall i :: 0 <= i < n ==> i in path
  {
    forall i | 0 <= i < n
      ensures i in path
    {
      if i !in path { DistinctFits(path, Range(n) - {i}); }
    }
  }

  /** A link that names no module sends `dfs_check` to the first module of the list: it
      accepts these two modules, whose pointers would both be NULL. */
  lemma UnknownLinkAccepted()
    ensures var c := Config([7, 8], [-1, 99]);
            && FullChain(c, 1, [1, 0]) && c.DistinctIds() && -1 !in c.ids
            && !c.LinksKnown() && !Updates(c)
  {
    var c := Config([7, 8], [-1, 99]);
    assert Follow(c, 1) == 0;
    assert Target(c, 0) == -1 && Target(c, 1) == -1;
    NullsBound(c, 2, 0, 1);
  }

  /** An id of -1 turns "no link" into a link: the last module sends to the first. */
  lemma MinusOneAccepted()
    ensures var c := Config([-1, 3], [3, -1]);
            && FullChain(c, 0, [0, 1]) && c.DistinctIds() && c.LinksKnown() && Updates(c)
            && Target(c, 1) == 0 && !LinkedChain(c, 0, [0, 1])
  {
    var c := Config([-1, 3], [3, -1]);
    assert IndexMap([-1, 3]) == map[-1 := 0, 3 := 1] by { assert [-1, 3][..1] == [-1]; }
    UpdatesExactly(c);
  }

  /** Of two equal ids `dfs_check` follows a link to the last, the update to the first:
      here the source sends to itself. */
  lemma EqualIdsAccepted()
    ensures var c := Config([5, 5], [5, -1]);
            && FullChain(c, 0, [0, 1]) && -1 !in c.ids && c.LinksKnown() && Updates(c)
            && Target(c, 0) == 0 && !LinkedChain(c, 0, [0, 1])
  {
    var c := Config([5, 5], [5, -1]);
    UpdatesExactly(c);
  }
}

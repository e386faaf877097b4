/** The list of configured modules, and the pointers made between them. */
module ModuleList {
  import opened Sequences
  import opened IntrusiveList
  import opened Topology
  import M = PipelineModel

  /** `type` and `mode` of a module's description. */
  datatype ModuleType = First | Middle | Last | Unsupported

  /** The thread function that a type and a mode select. */
  predicate Selects(ty: ModuleType, external: bool, run: M.ThreadMethod) {
    && (run.SourceThread? <==> ty.First? && external)
    && (run.InitialThread? <==> ty.First? && !external)
    && (run.ProcessThread? <==> ty.Middle?)
    && (run.FinalizationThread? <==> ty.Last?)
  }

  class Module {
    const id: int
    /** The id of the module to send to, from the description. */
    const descNext: int
    const threadMethod: M.ThreadMethod
    var next: Module?
    /** The module's state is ERROR. */
    var inError: bool

    constructor (id: int, descNext: int, ty: ModuleType, external: bool)
      ensures this.id == id && this.descNext == descNext && next == null && !inError
      ensures Selects(ty, external, threadMethod)
    {
      this.id, this.descNext := id, descNext;
      threadMethod := match ty
        case First => if external then M.SourceThread else M.InitialThread
        case Last => M.FinalizationThread
        case Middle => M.ProcessThread
        case Unsupported => M.NoThread;
      next, inError := null, false;
    }
  }

  /** Of the modules of a list, what the configuration says. */
  function Describe(ms: seq<Module>): (c: Config)
    ensures c.WellFormed() && c.Size() == |ms|
    ensures forall i :: 0 <= i < |ms| ==> c.ids[i] == ms[i].id && c.nexts[i] == ms[i].descNext
  {
    Config(seq(|ms|, i requires 0 <= i < |ms| => ms[i].id), seq(|ms|, i requires 0 <= i < |ms| => ms[i].descNext))
  }

  /** The first module with an id, or NULL. */
  function Find(ms: seq<Module>, id: int): Module? {
    if ms == [] then null else if ms[0].id == id then ms[0] else Find(ms[1..], id)
  }

  /** It is the module whose place in the list `FirstWith` finds. */
  lemma {:induction false} FindIsFirst(ms: seq<Module>, id: int)
    ensures var k := FirstWith(Describe(ms).ids, id);
            Find(ms, id) == if k == -1 then null else ms[k]
  {
    if ms != [] {
      FindIsFirst(ms[1..], id);
      assert Describe(ms[1..]).ids == Describe(ms).ids[1..];
    }
  }

  /** The pointers that a complete update makes. */
  function Pointers(ms: seq<Module>): (r: seq<Module?>)
    ensures |r| == |ms|
    ensures forall i :: 0 <= i < |ms| ==> r[i] == Find(ms, ms[i].descNext)
  {
    seq(|ms|, i requires 0 <= i < |ms| => Find(ms, ms[i].descNext))
  }

  lemma PointerIsTarget(ms: seq<Module>, i: nat)
    requires i < |ms|
    ensures var k := Target(Describe(ms), i);
            Pointers(ms)[i] == if k == -1 then null else ms[k]
  {
    FindIsFirst(ms, ms[i].descNext);
  }

  /** How many of the first `k` pointers are NULL. */
  function Nulls(p: seq<Module?>, k: nat): nat
    requires k <= |p|
  {
    if k == 0 then 0 else Nulls(p, k - 1) + if p[k - 1] == null then 1 else 0
  }

  lemma {:induction false} NullsGrow(p: seq<Module?>, a: nat, b: nat)
    requires a <= b <= |p|
    ensures Nulls(p, a) <= Nulls(p, b)
  {
    if a < b { NullsGrow(p, a, b - 1); }
  }

  /** Pointer `k` is the second NULL. */
  predicate SecondNull(p: seq<Module?>, k: nat) {
    k < |p| && p[k] == null && Nulls(p, k) == 1
  }

  /** The NULLs are the modules without a target. */
  lemma {:induction false} NullsCounted(ms: seq<Module>, k: nat)
    requires k <= |ms|
    ensures Nulls(Pointers(ms), k) == NullsAmong(Describe(ms), k)
  {
    if k > 0 {
      NullsCounted(ms, k - 1);
      PointerIsTarget(ms, k - 1);
    }
  }

  /** Whether `Update` can give every module its pointer. */
  predicate AtMostOneNull(ms: seq<Module>) {
    Nulls(Pointers(ms), |ms|) <= 1
  }

  lemma UpdatesMeansOneNull(ms: seq<Module>, c: Config)
    requires c == Describe(ms)
    ensures AtMostOneNull(ms) <==> Updates(c)
  {
    NullsCounted(ms, |ms|);
  }

  class Modules {
    const list: List<Module?>
    var modulesCnt: int
    /** The modules from the first to the last. */
    ghost var contents: seq<Module>

    ghost predicate Valid()
      reads this, list, list.Ring()
    {
      && list.Valid()
      && modulesCnt == |contents| == |list.elems|
      && forall i :: 0 <= i < |contents| ==> list.elems[i].entry == contents[i]
    }

    constructor ()
      ensures Valid() && Distinct(contents) && contents == [] && fresh(list) && fresh(list.Ring())
    {
      var head := new ListElem<Module?>(null);
      list := new List(head);
      modulesCnt, contents := 0, [];
    }

    /** `pipeline_module_add` */
    method Add(id: int, descNext: int, ty: ModuleType, external: bool) returns (m: Module)
      requires Valid()
      modifies this, list, list.Ring()
      ensures Valid() && fresh(m) && m.id == id && m.descNext == descNext
      ensures m.next == null && !m.inError
      ensures Selects(ty, external, m.threadMethod)
      ensures contents == old(contents) + [m] && modulesCnt == old(modulesCnt) + 1
      ensures Distinct(old(contents)) ==> Distinct(contents)
      ensures forall e :: e in list.Ring() ==> e in old(list.Ring()) || fresh(e)
    {
      m := new Module(id, descNext, ty, external);
      var elem := new ListElem<Module?>(m);
      list.AddBack(elem);
      modulesCnt, contents := modulesCnt + 1, contents + [m];
    }

    /** `pipeline_module_delete` */
    method Delete(elem: ListElem<Module?>, ghost p: nat)
      requires Valid() && p < |list.elems| && list.elems[p] == elem
      modifies this, list, list.Ring()
      ensures Valid() && elem.Detached()
      ensures contents == old(contents)[..p] + old(contents)[p + 1..]
      ensures modulesCnt == old(modulesCnt) - 1
      ensures Distinct(old(contents)) ==> Distinct(contents)
    {
      list.RemoveElem(elem, p);
      modulesCnt, contents := modulesCnt - 1, contents[..p] + contents[p + 1..];
    }

    /** The modules as a traversal of the list meets them. */
    method Traverse() returns (ms: seq<Module>)
      requires Valid()
      ensures ms == contents
    {
      ms := [];
      var item := list.FirstElem();
      list.Apart();
      while item != list.head
        invariant |ms| <= |contents| && ms == contents[..|ms|]
        invariant item == if |ms| == |contents| then list.head else list.elems[|ms|]
        decreases |contents| - |ms|
      {
        var m := item.entry;
        assert m == contents[|ms|];
        item := list.NextElem(item, |ms| + 1);
        ms := ms + [m];
      }
    }

    /** `pipeline_module_get` */
    method Get(id: int) returns (m: Module?)
      requires Valid()
      ensures m == Find(contents, id)
    {
      var item := list.FirstElem();
      ghost var k := 0;
      list.Apart();
      while item != list.head
        invariant 0 <= k <= |contents|
        invariant item == if k == |contents| then list.head else list.elems[k]
        invariant forall i :: 0 <= i < k ==> contents[i].id != id
        decreases |contents| - k
      {
        m := item.entry;
        assert m == contents[k];
        if m.id == id {
          FoundFirst(contents, id, k);
          return m;
        }
        item := list.NextElem(item, k + 1);
        k := k + 1;
      }
      FoundFirst(contents, id, k);
      m := null;
    }

    /** Makes the pointer of module `k`. */
    method SetNext(m: Module, next: Module?, ghost k: nat)
      requires Valid() && Distinct(contents) && k < |contents| && contents[k] == m
      modifies m
      ensures Valid()
      ensures forall i :: 0 <= i < |contents| ==>
                && contents[i].next == (if i == k then next else old(contents[i].next))
                && contents[i].inError == old(contents[i].inError)
    {
      m.next := next;
    }

    /** Puts module `k` into error. */
    method SetError(m: Module, ghost k: nat)
      requires Valid() && Distinct(contents) && k < |contents| && contents[k] == m
      modifies m
      ensures Valid()
      ensures forall i :: 0 <= i < |contents| ==>
                && contents[i].next == old(contents[i].next)
                && contents[i].inError == (i == k || old(contents[i].inError))
    {
      m.inError := true;
    }

    /** The pointer of one module. */
    method Point(m: Module, ghost k: nat) returns (next: Module?)
      requires Valid() && Distinct(contents) && k < |contents| && contents[k] == m
      modifies m
      ensures Valid() && next == Pointers(contents)[k]
      ensures forall i :: 0 <= i < |contents| ==>
                && contents[i].next == (if i == k then next else old(contents[i].next))
                && contents[i].inError == old(contents[i].inError)
    {
      next := Get(m.descNext);
      SetNext(m, next, k);
    }

    /** The loop body of `pipeline_modules_update`. */
    method UpdateOne(m: Module, nullFound: bool, ghost k: nat) returns (second: bool, nullFound': bool)
      requires Valid() && Distinct(contents) && k < |contents| && contents[k] == m
      requires Nulls(Pointers(contents), k) == if nullFound then 1 else 0
      modifies m
      ensures Valid()
      ensures forall i :: 0 <= i < |contents| ==>
                && contents[i].next == (if i == k then Pointers(contents)[k] else old(contents[i].next))
                && contents[i].inError == ((second && i == k) || old(contents[i].inError))
      ensures second <==> SecondNull(Pointers(contents), k)
      ensures second ==> !AtMostOneNull(contents)
      ensures !second ==> Nulls(Pointers(contents), k + 1) == if nullFound' then 1 else 0
    {
      var next := Point(m, k);
      second, nullFound' := false, nullFound;
      if next == null {
        if !nullFound {
          nullFound' := true;
        } else {
          SetError(m, k);
          NullsGrow(Pointers(contents), k + 1, |contents|);
          second := true;
        }
      }
    }

    /** `pipeline_modules_update`: 0 when every module has its pointer. Otherwise it
        stops at the second module that is left without one, which goes into error. */
    method Update() returns (rc: int, ghost stopped: nat)
      requires Valid() && Distinct(contents)
      modifies contents
      ensures Valid()
      ensures rc == if AtMostOneNull(contents) then 0 else -1
      ensures if rc == 0 then stopped == |contents| else SecondNull(Pointers(contents), stopped)
      ensures forall i :: 0 <= i < |contents| ==>
                && contents[i].next == (if i <= stopped then Pointers(contents)[i] else old(contents[i].next))
                && contents[i].inError == (i == stopped || old(contents[i].inError))
    {
      ghost var want := Pointers(contents);
      ghost var ms, elems := contents, list.elems;
      var nullFound, second := false, false;
      var item := list.FirstElem();
      stopped := 0;
      list.Apart();
      while item != list.head
        invariant contents == ms && list.elems == elems && stopped <= |ms|
        invariant Valid()
        invariant item == if stopped == |ms| then list.head else elems[stopped]
        invariant Nulls(want, stopped) == if nullFound then 1 else 0
        invariant forall i :: 0 <= i < |ms| ==>
                    && ms[i].next == (if i < stopped then want[i] else old(ms[i].next))
                    && ms[i].inError == old(ms[i].inError)
        decreases |contents| - stopped
      {
        assert item.entry == contents[stopped];
        second, nullFound := UpdateOne(item.entry, nullFound, stopped);
        if second {
          return -1, stopped;
        }
        item := list.NextElem(item, stopped + 1);
        stopped := stopped + 1;
      }
      assert stopped == |ms|;
      return 0, stopped;
    }
  }

  lemma {:induction false} FoundFirst(ms: seq<Module>, id: int, k: nat)
    requires k <= |ms| && forall i :: 0 <= i < k ==> ms[i].id != id
    requires k < |ms| ==> ms[k].id == id
    ensures Find(ms, id) == if k < |ms| then ms[k] else null
  {
    if k > 0 { FoundFirst(ms[1..], id, k - 1); }
  }

  /** What a successful update makes of a configuration whose links form a chain:
      pointers that visit every module once and end in the only NULL. */
  lemma PointersFormChain(ms: seq<Module>, first: int, chain: seq<int>)
    requires LinkedChain(Describe(ms), first, chain)
    ensures |chain| == |ms| && chain[0] == first && Distinct(chain)
    ensures forall j :: 0 <= j < |chain| ==> 0 <= chain[j] < |ms|
    ensures forall j, k :: 0 <= j && k == j + 1 && k < |chain| ==> Pointers(ms)[chain[j]] == ms[chain[k]]
    ensures Pointers(ms)[chain[|chain| - 1]] == null
    ensures forall i :: 0 <= i < |ms| ==> i in chain
  {
    var c, p := Describe(ms), Pointers(ms);
    forall j, k | 0 <= j && k == j + 1 && k < |chain|
      ensures p[chain[j]] == ms[chain[k]]
    {
      PointerIsTarget(ms, chain[j]);
      assert Target(c, chain[j]) == chain[j + 1];
    }
    PointerIsTarget(ms, chain[|chain| - 1]);
    CoveredByAll(chain, c.Size());
  }

  /** A list that `dfs_check` accepts is updated without an error exactly when at most
      one link names no module, and into one chain exactly when ids are distinct, none
      is -1 and every link is known. */
  lemma AcceptedUpdatesExactly(ms: seq<Module>, c: Config, first: int, chain: seq<int>)
    requires c == Describe(ms) && FullChain(c, first, chain)
    ensures AtMostOneNull(ms) <==>
              forall i, j :: 0 <= i < j < c.Size() ==> c.nexts[i] in c.ids || c.nexts[j] in c.ids
    ensures LinkedChain(c, first, chain) <==> c.DistinctIds() && -1 !in c.ids && c.LinksKnown()
  {
    UpdatesMeansOneNull(ms, c);
    UpdatesExactly(c);
    ChainExactly(c, first, chain);
  }

  /** No module sends to the first, which is why the source's `cmd` stays JOB. */
  lemma NoPointerToFirst(ms: seq<Module>, first: int, chain: seq<int>, i: nat)
    requires Distinct(ms) && LinkedChain(Describe(ms), first, chain) && i < |ms|
    ensures Pointers(ms)[i] != ms[first]
  {
    PointerIsTarget(ms, i);
    NobodySendsToFirst(Describe(ms), first, chain, i);
  }
}

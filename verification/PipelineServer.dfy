/** What `pipeline_thread` sets up before the modules go live. */
module PipelineServer {
  import opened Sequences
  import opened PipelineModel
  import opened PipelineInvariant
  import opened PipelineSafety
  import opened PipelineTheorems
  import opened PipelineThreads
  import opened MemoryLayout
  import R = RingBuffer
  import L = ModuleList
  import T = Topology
  import P = ProcessTable

  /** The chunks of a segment, in the order they are put into the ring. */
  ghost function ChunkOffsets(w: nat, m: MemoryMap): seq<nat>
    requires w > 0
  {
    seq(m.dataCnt, i requires 0 <= i < m.dataCnt => m.ChunkOffset(w, i))
  }

  lemma ChunksAreDistinct(w: nat, m: MemoryMap)
    requires SizeT(w) && m.Fits(w) && m.dataSize > 0
    ensures Distinct(ChunkOffsets(w, m))
  {
    forall i, j | 0 <= i < j < m.dataCnt
      ensures ChunkOffsets(w, m)[i] != ChunkOffsets(w, m)[j]
    {
      ChunkOffsetsDistinct(w, m, i, j);
    }
  }

  /** A ring created full and then given the offset of every chunk. */
  method CreateDataRing(w: nat, m: MemoryMap) returns (ring: R.RingBuffer)
    requires w > 0
    ensures fresh(ring) && fresh(ring.buffer) && ring.Ok() && ring.maxCnt == m.dataCnt
    ensures ring.contents == ChunkOffsets(w, m) && ring.sem == m.dataCnt
    ensures ring.popping == ring.posting == 0
  {
    ring := new R.RingBuffer(m.dataCnt, false);
    var i := 0;
    while i < m.dataCnt
      invariant 0 <= i <= m.dataCnt
      invariant ring.Ok() && ring.maxCnt == m.dataCnt && fresh(ring) && fresh(ring.buffer)
      invariant ring.start == 0 && ring.used == ring.sem == m.dataCnt && ring.popped == []
      invariant ring.popping == ring.posting == 0
      invariant |ring.contents| == m.dataCnt
      invariant forall j :: 0 <= j < i ==> ring.contents[j] == m.ChunkOffset(w, j)
    {
      ring.Fill(i, m.ChunkOffset(w, i));
      i := i + 1;
    }
  }

  /** A module as `pipeline_module_init` and `process_info_init` leave it, with its
      thread about to enter its loop. */
  ghost predicate Initialised(m: PipelineModule, run: ThreadMethod, shared: Shared)
    reads m, m.procInfo
  {
    var p := m.procInfo;
    && m.shared == shared && m.threadMethod == run
    && m.AsMailbox() == Mailbox(0, 1, JOB, m.dataoffset, [], [], [])
    && m.AsThread() == Thread(if run.SourceThread? then Top else RecvWait, JOB, m.threadOffset, [])
    && Unused(p)
  }

  ghost predicate Unused(p: ProcessInfo)
    reads p
  {
    && p.AsRecord() == Record(0, 0, p.cmd, p.cmdOffs, p.cmdResult)
    && p.AsClient() == Client(Idle, p.data, false, 0, [])
  }

  /** `process_subsystem_init`: a record for each process the segment has room for. */
  method CreateRecords(cnt: nat) returns (records: seq<ProcessInfo>)
    ensures |records| == cnt && Distinct(records)
    ensures forall i :: 0 <= i < cnt ==> fresh(records[i]) && Unused(records[i])
  {
    records := [];
    while |records| < cnt
      invariant |records| <= cnt && Distinct(records)
      invariant forall i :: 0 <= i < |records| ==> fresh(records[i]) && Unused(records[i])
    {
      var p := new ProcessInfo();
      records := records + [p];
    }
  }

  /** The part of each module of the list that its threads use, with the process record
      whose index the module was given. */
  method InitModules(ms: seq<L.Module>, records: seq<ProcessInfo>, idx: seq<int>, shared: Shared)
    returns (parts: seq<PipelineModule>)
    requires |idx| == |ms| && forall i :: 0 <= i < |idx| ==> 0 <= idx[i] < |records|
    requires forall i :: 0 <= i < |records| ==> Unused(records[i])
    ensures |parts| == |ms| && Distinct(parts)
    ensures forall i :: 0 <= i < |ms| ==> fresh(parts[i]) && parts[i].next == null && parts[i].procInfo == records[idx[i]]
    ensures forall i :: 0 <= i < |ms| ==> Initialised(parts[i], ms[i].threadMethod, shared)
  {
    parts := [];
    while |parts| < |ms|
      invariant |parts| <= |ms| && Distinct(parts)
      invariant forall i :: 0 <= i < |parts| ==>
                  fresh(parts[i]) && parts[i].next == null && parts[i].procInfo == records[idx[i]]
      invariant forall i :: 0 <= i < |parts| ==> Initialised(parts[i], ms[i].threadMethod, shared)
    {
      var i := |parts|;
      var m := new PipelineModule(shared, records[idx[i]], ms[i].threadMethod);
      parts := parts + [m];
    }
  }

  /** Part `i` sends to the part of the module that module `i` points to. */
  ghost predicate Follows(ms: seq<L.Module>, parts: seq<PipelineModule>, i: nat)
    requires |parts| == |ms| && i < |ms|
    reads ms[i], parts[i]
  {
    && (ms[i].next == null <==> parts[i].next == null)
    && (forall j :: 0 <= j < |ms| && ms[i].next == ms[j] ==> parts[i].next == parts[j])
  }

  method PartOf(ms: seq<L.Module>, parts: seq<PipelineModule>) returns (partOf: map<L.Module, PipelineModule>)
    requires |parts| == |ms| && Distinct(ms)
    ensures forall i :: 0 <= i < |ms| ==> ms[i] in partOf && partOf[ms[i]] == parts[i]
  {
    partOf := map[];
    var i := 0;
    while i < |ms|
      invariant i <= |ms| && forall j :: 0 <= j < i ==> ms[j] in partOf && partOf[ms[j]] == parts[j]
    {
      partOf := partOf[ms[i] := parts[i]];
      i := i + 1;
    }
  }

  /** Carries the pointers of the list over to the parts. */
  method LinkModules(ms: seq<L.Module>, parts: seq<PipelineModule>)
    requires |parts| == |ms| && Distinct(parts) && Distinct(ms)
    requires forall i :: 0 <= i < |ms| ==> parts[i].next == null && (ms[i].next == null || ms[i].next in ms)
    modifies parts
    ensures forall i :: 0 <= i < |ms| ==>
              parts[i].AsMailbox() == old(parts[i].AsMailbox()) && parts[i].AsThread() == old(parts[i].AsThread())
    ensures forall i :: 0 <= i < |ms| ==> Follows(ms, parts, i)
  {
    var partOf := PartOf(ms, parts);
    var i := 0;
    while i < |ms|
      invariant i <= |ms|
      invariant forall j :: 0 <= j < |ms| ==>
                  parts[j].AsMailbox() == old(parts[j].AsMailbox()) && parts[j].AsThread() == old(parts[j].AsThread())
      invariant forall j :: i <= j < |ms| ==> parts[j].next == null
      invariant forall j :: 0 <= j < i ==>
                  parts[j].next == if ms[j].next == null then null else partOf[ms[j].next]
    {
      if ms[i].next != null { parts[i].SetNext(partOf[ms[i].next]); }
      i := i + 1;
    }
  }

  /** The parts' pointers lead along the chain to the only NULL. */
  ghost predicate Chained(parts: seq<PipelineModule>, chain: seq<int>)
    reads parts
  {
    && chain != [] && (forall j :: 0 <= j < |chain| ==> 0 <= chain[j] < |parts|)
    && (forall j, k :: 0 <= j && k == j + 1 && k < |chain| ==> parts[chain[j]].next == parts[chain[k]])
    && parts[chain[|chain| - 1]].next == null
  }

  lemma ChainGoesOn(parts: seq<PipelineModule>, chain: seq<int>, j: nat)
    requires Chained(parts, chain) && j < |chain| - 1
    ensures parts[chain[j]].next == parts[chain[j + 1]]
  {
    var k := j + 1;
    assert parts[chain[j]].next == parts[chain[k]];
  }

  /** The parts in the order in which the pointers lead through them. */
  method InOrder(parts: seq<PipelineModule>, first: nat, ghost chain: seq<int>) returns (modules: seq<PipelineModule>)
    requires Chained(parts, chain) && chain[0] == first
    ensures |modules| == |chain| && forall j :: 0 <= j < |chain| ==> modules[j] == parts[chain[j]]
  {
    modules := [parts[first]];
    var m := parts[first].next;
    while m != null
      invariant 1 <= |modules| <= |chain|
      invariant forall j :: 0 <= j < |modules| ==> modules[j] == parts[chain[j]]
      invariant m == parts[chain[|modules| - 1]].next
      decreases |chain| - |modules|
    {
      if |modules| < |chain| { ChainGoesOn(parts, chain, |modules| - 1); }
      modules := modules + [m];
      m := m.next;
    }
    if |modules| < |chain| { ChainGoesOn(parts, chain, |modules| - 1); }
  }

  /** Freshly initialised objects are an initial state of the protocol. */
  lemma StartedIsInitial(p: Pipeline, chunks: seq<nat>)
    requires p.Shape() && p.shared.ring.Ok() && Distinct(chunks)
    requires forall i :: 0 <= i < |p.modules| ==> Initialised(p.modules[i], p.modules[i].threadMethod, p.shared)
    requires p.shared.ring.contents == chunks && p.shared.ring.sem == |chunks|
    requires !p.shared.exitFlag && !p.shared.live && p.shared.owner == map o | o in chunks :: Free
    requires p.shared.ring.popping == p.shared.ring.posting == 0 && p.shared.ring.maxCnt == |chunks|
    ensures Init(p.Abs(), chunks) && p.Ok()
  {
    forall k | 0 <= k < |p.modules|
      ensures p.Abs().rec[k] == p.modules[k].procInfo.AsRecord() && p.Abs().cli[k] == p.modules[k].procInfo.AsClient()
    {
      assert p.Procs()[k] == p.modules[k].procInfo;
    }
    assert Init(p.Abs(), chunks);
    InitInv(p.config, p.Abs(), chunks);
    InitBusy(p.Abs(), chunks);
    assert p.modules[0].AsThread() == p.Abs().thr[0];
  }

  /** Initially no ring operation is in progress, and every chunk has an owner. */
  lemma InitBusy(s: State, chunks: seq<nat>)
    requires Init(s, chunks)
    ensures Posting(s.thr) == 0 && |s.owner.Keys| == |chunks|
  {
    PostingNone(s.thr);
    SetOfDistinct(chunks);
    assert s.owner.Keys == Elements(chunks);
  }

  /** The parts in chain order have the shape the protocol supposes: one chain of
      distinct modules with distinct process records. */
  lemma ChainHasShape(p: Pipeline, ms: seq<L.Module>, parts: seq<PipelineModule>, records: seq<ProcessInfo>,
                      idx: seq<int>, first: nat, chain: seq<int>)
    requires |parts| == |ms| == |idx| && |ms| >= 2 && Distinct(parts) && Distinct(records) && Distinct(idx)
    requires forall i :: 0 <= i < |ms| ==> 0 <= idx[i] < |records| && parts[i].procInfo == records[idx[i]]
    requires forall i :: 0 <= i < |ms| ==> Initialised(parts[i], ms[i].threadMethod, p.shared)
    requires |chain| == |ms| && chain[0] == first && Distinct(chain) && Chained(parts, chain)
    requires |p.modules| == |chain| && forall j :: 0 <= j < |chain| ==> p.modules[j] == parts[chain[j]]
    ensures p.Chain() && (p.Shape() <==> InPlace(ms, chain))
    ensures forall j :: 0 <= j < |p.modules| ==> Initialised(p.modules[j], p.modules[j].threadMethod, p.shared)
    ensures SameThreads(p, ms, chain)
  {
    forall i, j | 0 <= i < j < |chain|
      ensures p.modules[i] != p.modules[j] && p.modules[i].procInfo != p.modules[j].procInfo
    {
      var a, b := chain[i], chain[j];
      assert a != b && parts[a] != parts[b];
      assert idx[a] != idx[b] && records[idx[a]] != records[idx[b]];
    }
    forall j | 0 <= j < |chain| - 1
      ensures p.modules[j].next == p.modules[j + 1]
    {
      ChainGoesOn(parts, chain, j);
    }
    forall j | 0 <= j < |chain|
      ensures Initialised(p.modules[j], ms[chain[j]].threadMethod, p.shared)
    {
      assert Initialised(parts[chain[j]], ms[chain[j]].threadMethod, p.shared);
    }
  }

  /** What a successful `pipeline_modules_update` leaves of an accepted configuration:
      pointers that form a chain. */
  ghost predicate Configured(ms: seq<L.Module>, first: nat, chain: seq<int>)
    reads ms
  {
    && Distinct(ms) && T.LinkedChain(L.Describe(ms), first, chain)
    && (forall i :: 0 <= i < |ms| ==> ms[i].next == L.Pointers(ms)[i])
  }

  /** Each module of the list runs the function of its place in the chain. */
  predicate InPlace(ms: seq<L.Module>, chain: seq<int>) {
    forall j :: 0 <= j < |chain| && 0 <= chain[j] < |ms| ==> ms[chain[j]].threadMethod == ThreadAt(|chain|, j)
  }

  ghost predicate SameThreads(p: Pipeline, ms: seq<L.Module>, chain: seq<int>) {
    && |p.modules| == |chain|
    && forall j :: 0 <= j < |chain| && 0 <= chain[j] < |ms| ==> p.modules[j].threadMethod == ms[chain[j]].threadMethod
  }

  /** A pointer leads to a module of the list. */
  lemma PointersStayInside(ms: seq<L.Module>, first: nat, chain: seq<int>)
    requires Configured(ms, first, chain)
    ensures forall i :: 0 <= i < |ms| ==> ms[i].next == null || ms[i].next in ms
  {
    forall i | 0 <= i < |ms|
      ensures ms[i].next == null || ms[i].next in ms
    {
      L.PointerIsTarget(ms, i);
      assert ms[i].next == L.Pointers(ms)[i];
    }
  }

  /** The pointers carried over to the parts form the same chain. */
  lemma PartsFormChain(ms: seq<L.Module>, parts: seq<PipelineModule>, first: nat, chain: seq<int>)
    requires |parts| == |ms| && Configured(ms, first, chain)
    requires forall i :: 0 <= i < |ms| ==> Follows(ms, parts, i)
    ensures |chain| == |ms| && chain[0] == first && Distinct(chain) && Chained(parts, chain)
  {
    L.PointersFormChain(ms, first, chain);
    forall j, k | 0 <= j && k == j + 1 && k < |chain|
      ensures parts[chain[j]].next == parts[chain[k]]
    {
      assert Follows(ms, parts, chain[j]);
      assert ms[chain[j]].next == L.Pointers(ms)[chain[j]] == ms[chain[k]];
    }
    var last := |chain| - 1;
    assert L.Pointers(ms)[chain[last]] == null && Follows(ms, parts, chain[last]);
    assert ms[chain[last]].next == L.Pointers(ms)[chain[last]];
  }

  /** The parts of all modules, initialised, with the pointers of the list. */
  method PrepareParts(ms: seq<L.Module>, first: nat, idx: seq<int>, records: seq<ProcessInfo>, shared: Shared,
                      ghost chain: seq<int>)
    returns (parts: seq<PipelineModule>)
    requires Configured(ms, first, chain) && forall i :: 0 <= i < |records| ==> Unused(records[i])
    requires |idx| == |ms| && forall i :: 0 <= i < |idx| ==> 0 <= idx[i] < |records|
    ensures |parts| == |ms| && Distinct(parts)
    ensures forall i :: 0 <= i < |ms| ==> fresh(parts[i]) && parts[i].procInfo == records[idx[i]]
    ensures forall i :: 0 <= i < |ms| ==> Initialised(parts[i], ms[i].threadMethod, shared)
    ensures |chain| == |ms| && chain[0] == first && Distinct(chain) && Chained(parts, chain)
  {
    parts := InitModules(ms, records, idx, shared);
    PointersStayInside(ms, first, chain);
    LinkModules(ms, parts);
    PartsFormChain(ms, parts, first, chain);
  }

  /** The modules of the list in chain order, ready to run. */
  method PrepareModules(ms: seq<L.Module>, first: nat, idx: seq<int>, cnt: nat, shared: Shared, config: Config,
                        ghost chain: seq<int>)
    returns (p: Pipeline)
    requires |ms| >= 2 && Configured(ms, first, chain)
    requires |idx| == |ms| && Distinct(idx) && forall i :: 0 <= i < |idx| ==> 0 <= idx[i] < cnt
    ensures fresh(p) && p.config == config && p.shared == shared && |p.modules| == |ms|
    ensures p.Chain() && (p.Shape() <==> InPlace(ms, chain))
    ensures forall i :: 0 <= i < |p.modules| ==> Initialised(p.modules[i], p.modules[i].threadMethod, shared)
    ensures SameThreads(p, ms, chain)
  {
    var records := CreateRecords(cnt);
    var parts := PrepareParts(ms, first, idx, records, shared, chain);
    var modules := InOrder(parts, first, chain);
    p := new Pipeline(config, modules, shared);
    ChainHasShape(p, ms, parts, records, idx, first, chain);
  }

  /** `pipeline_thread` as far as the switch to LIVE: the ring is filled, and the modules
      of the list are started in list order, each with a process record of its own.
      Without a record and a running program for each of at least two modules there is no
      complete pipeline. A complete one has the shape of the protocol exactly when every
      module runs the function of its place, and then it is in an initial state, with the
      segment's chunks in the ring. */
  method StartPipeline(w: nat, m: MemoryMap, list: L.Modules, first: nat, table: P.ProcessManager,
                       launches: seq<P.Launch>, config: Config, mem: map<nat, Data>, ghost chain: seq<int>)
    returns (p: Pipeline?)
    requires SizeT(w) && m.Fits(w) && m.dataSize > 0
    requires list.Valid() && Configured(list.contents, first, chain)
    requires table.Valid() && table.processCnt == 0 && table.processCntMax == m.processCnt
    requires |launches| == |list.contents|
    modifies table`processCnt, table.pids
    ensures p != null <==>
              2 <= |launches| <= m.processCnt && forall i :: 0 <= i < |launches| ==> P.Runs(launches[i])
    ensures p != null ==> fresh(p) && p.Chain() && p.config == config && SameThreads(p, list.contents, chain)
    ensures p != null ==> (p.Shape() <==> InPlace(list.contents, chain))
    ensures p != null && p.Shape() ==> p.Ok() && Init(p.Abs(), ChunkOffsets(w, m))
  {
    var ms := list.Traverse();
    ChunksAreDistinct(w, m);
    var ring := CreateDataRing(w, m);
    var shared := new Shared(ring, mem);
    var idx, started := table.StartModules(launches);
    if started < |launches| || started < 2 { return null; }
    p := PrepareModules(ms, first, idx, m.processCnt, shared, config, chain);
    if InPlace(ms, chain) { StartedIsInitial(p, ChunkOffsets(w, m)); }
  }

  // ------------------------------------------------------- the configuration

  /** What the configuration reader leaves of the types: no unsupported one, FIRST only
      and always at `first`, LAST only where there is no link. */
  predicate TypesRead(c: T.Config, types: seq<L.ModuleType>, first: nat)
    requires c.WellFormed()
  {
    && |types| == c.Size()
    && (forall i :: 0 <= i < |types| ==> !types[i].Unsupported? && (types[i].First? <==> i == first))
    && (forall i :: 0 <= i < |types| && types[i].Last? ==> c.nexts[i] == -1)
  }

  predicate HasLast(types: seq<L.ModuleType>) {
    exists i :: 0 <= i < |types| && types[i].Last?
  }

  /** In an accepted configuration of at least two modules each thread has the function of
      its place exactly when the first module is external and some module is LAST. If none
      is, the end of the chain runs `process_thread`, with nobody to send to. */
  lemma PlacesExactly(c: T.Config, types: seq<L.ModuleType>, external: bool, runs: seq<ThreadMethod>,
                      first: nat, chain: seq<int>)
    requires c.WellFormed() && c.Size() >= 2 && T.FullChain(c, first, chain) && TypesRead(c, types, first)
    requires |runs| == c.Size() && forall i :: 0 <= i < |runs| ==> L.Selects(types[i], external, runs[i])
    ensures (forall j :: 0 <= j < |chain| ==> runs[chain[j]] == ThreadAt(|chain|, j)) <==> external && HasLast(types)
    ensures !HasLast(types) ==> runs[chain[|chain| - 1]].ProcessThread?
  {
    T.ChainSize(c, first, chain);
    var n := |chain| - 1;
    assert types[chain[0]].First?;
    forall j | 0 < j < n
      ensures types[chain[j]].Middle?
    {
      assert c.nexts[chain[j]] != -1;
    }
    assert !types[chain[n]].First?;
    if HasLast(types) {
      var i :| 0 <= i < |types| && types[i].Last?;
      assert i in chain;
      assert i == chain[n];
    }
    assert runs[chain[n]] == ThreadAt(|chain|, n) ==> types[chain[n]].Last?;
    assert runs[chain[0]] == ThreadAt(|chain|, 0) ==> external;
  }

  /** The reader accepts a module of type MIDDLE whose link is -1: a configuration that
      passes every check and has no finalizer. */
  lemma MiddleAtTheEnd()
    ensures var c, types := T.Config([1, 2], [2, -1]), [L.First, L.Middle];
            && T.FullChain(c, 0, [0, 1]) && c.DistinctIds() && -1 !in c.ids && c.LinksKnown() && T.Updates(c)
            && TypesRead(c, types, 0) && !HasLast(types)
  {
    var c := T.Config([1, 2], [2, -1]);
    MiddleIsLinked(c);
    T.UpdatesExactly(c);
    assert !HasLast([L.First, L.Middle]);
  }

  lemma MiddleIsLinked(c: T.Config)
    requires c == T.Config([1, 2], [2, -1])
    ensures T.FullChain(c, 0, [0, 1])
  {
    assert T.IndexMap([1, 2]) == map[1 := 0, 2 := 1] by { assert [1, 2][..1] == [1]; }
    assert T.Follow(c, 0) == 1;
  }

  /** A list of the described modules in their order, as `pipeline_init` fills it. */
  method FillList(c: T.Config, types: seq<L.ModuleType>, external: bool) returns (list: L.Modules)
    requires c.WellFormed() && |types| == c.Size()
    ensures fresh(list) && list.Valid() && Distinct(list.contents) && L.Describe(list.contents) == c
    ensures forall i :: 0 <= i < |list.contents| ==>
              fresh(list.contents[i]) && L.Selects(types[i], external, list.contents[i].threadMethod)
  {
    list := new L.Modules();
    var i := 0;
    while i < c.Size()
      invariant i <= c.Size() && fresh(list) && fresh(list.list) && fresh(list.list.Ring())
      invariant list.Valid() && Distinct(list.contents) && |list.contents| == i
      invariant forall j :: 0 <= j < i ==>
                  && fresh(list.contents[j]) && list.contents[j].id == c.ids[j]
                  && list.contents[j].descNext == c.nexts[j]
                  && L.Selects(types[j], external, list.contents[j].threadMethod)
    {
      var m := list.Add(c.ids[i], c.nexts[i], types[i], external);
      i := i + 1;
    }
  }

  /** The list's modules are in place exactly when their types say so. */
  lemma ListInPlace(ms: seq<L.Module>, c: T.Config, types: seq<L.ModuleType>, external: bool, first: nat, chain: seq<int>)
    requires c.WellFormed() && c.Size() >= 2 && T.FullChain(c, first, chain) && TypesRead(c, types, first)
    requires |ms| == c.Size() && forall i :: 0 <= i < |ms| ==> L.Selects(types[i], external, ms[i].threadMethod)
    ensures InPlace(ms, chain) <==> external && HasLast(types)
    ensures !HasLast(types) ==> ms[chain[|chain| - 1]].threadMethod.ProcessThread?
  {
    var runs := seq(|ms|, i requires 0 <= i < |ms| => ms[i].threadMethod);
    PlacesExactly(c, types, external, runs, first, chain);
    if InPlace(ms, chain) {
      assert forall j :: 0 <= j < |chain| ==> runs[chain[j]] == ThreadAt(|chain|, j);
    }
  }

  /** The checks of a configuration and what is made of it. Neither check looks for
      equal ids or an id of -1; without these a list of modules results exactly when the
      links form one path through all modules and every link is known, and then its
      pointers form the same chain. The checks do not look at the types either. */
  method ConfigureModules(c: T.Config, types: seq<L.ModuleType>, external: bool, first: nat)
    returns (list: L.Modules?, ghost chain: seq<int>)
    requires c.WellFormed() && first < c.Size() && c.DistinctIds() && -1 !in c.ids && TypesRead(c, types, first)
    ensures list != null <==> (exists chain :: T.FullChain(c, first, chain)) && c.LinksKnown()
    ensures list != null ==>
              fresh(list) && list.Valid() && |list.contents| == c.Size() && Configured(list.contents, first, chain)
    ensures list != null && c.Size() >= 2 ==>
              && |chain| == c.Size() && 0 <= chain[|chain| - 1] < c.Size()
              && (InPlace(list.contents, chain) <==> external && HasLast(types))
              && (!HasLast(types) ==> list.contents[chain[|chain| - 1]].threadMethod.ProcessThread?)
  {
    chain := [];
    var rc := T.CheckConfiguration(c, first);
    if rc != 0 { return null, []; }
    chain :| T.FullChain(c, first, chain);
    list := FillList(c, types, external);
    ghost var stopped;
    rc, stopped := list.Update();
    L.UpdatesMeansOneNull(list.contents, c);
    T.AcceptedUpdates(c, first, chain);
    if rc != 0 { return null, []; }
    T.ChainExactly(c, first, chain);
    if c.Size() >= 2 { ListInPlace(list.contents, c, types, external, first, chain); }
  }

  /** The end of the chain runs `process_thread`, which has nobody to send to. */
  ghost predicate NoFinalizer(p: Pipeline)
    reads p.modules
  {
    p.modules != [] && var last := p.modules[|p.modules| - 1]; last.threadMethod.ProcessThread? && last.next == null
  }

  lemma LastThread(p: Pipeline, ms: seq<L.Module>, chain: seq<int>)
    requires p.Chain() && SameThreads(p, ms, chain) && 0 <= chain[|chain| - 1] < |ms|
    requires ms[chain[|chain| - 1]].threadMethod.ProcessThread?
    ensures NoFinalizer(p)
  {}

  /** From a configuration to a running pipeline. With distinct ids, none of them -1, one
      is started completely exactly when the configuration is a chain of at least two
      modules and each gets a record and a running program. It has the shape of the
      protocol exactly when besides the first module is external and some module is LAST,
      and then it is in an initial state; if none is LAST, its end runs `process_thread`
      with no next module. */
  method PipelineInit(w: nat, m: MemoryMap, c: T.Config, types: seq<L.ModuleType>, external: bool, first: nat,
                      table: P.ProcessManager, launches: seq<P.Launch>, config: Config, mem: map<nat, Data>)
    returns (p: Pipeline?)
    requires SizeT(w) && m.Fits(w) && m.dataSize > 0
    requires c.WellFormed() && first < c.Size() && c.DistinctIds() && -1 !in c.ids && TypesRead(c, types, first)
    requires |launches| == c.Size()
    requires table.Valid() && table.processCnt == 0 && table.processCntMax == m.processCnt
    modifies table`processCnt, table.pids
    ensures p != null <==>
              && (exists chain :: T.FullChain(c, first, chain)) && c.LinksKnown()
              && 2 <= c.Size() <= m.processCnt && forall i :: 0 <= i < |launches| ==> P.Runs(launches[i])
    ensures p != null ==> fresh(p) && p.Chain() && |p.modules| == c.Size() && p.config == config
    ensures p != null ==> (p.Shape() <==> external && HasLast(types))
    ensures p != null && p.Shape() ==> p.Ok() && Init(p.Abs(), ChunkOffsets(w, m))
    ensures p != null && !HasLast(types) ==> NoFinalizer(p)
  {
    var list, chain := ConfigureModules(c, types, external, first);
    if list == null { return null; }
    p := StartPipeline(w, m, list, first, table, launches, config, mem, chain);
    if p != null && !HasLast(types) { LastThread(p, list.contents, chain); }
  }
}

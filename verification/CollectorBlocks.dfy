/** Which object a frame goes to: with any detection callback, and without one, when the
    barrier cuts every source's frames into blocks. */
module CollectorBlocks {
  import opened Arithmetic
  import opened CollectorModel
  import opened CollectorBarrier

  /** The source has been given a name it has not been let through with yet. */
  predicate Pending(s: State, i: nat)
    requires i < |s.src|
  {
    s.src[i].empty > 0 || s.pc == Release(i)
  }

  // ------------------------------------------------------ with any callback

  /** How many of the frames opened an object. */
  function Openings(opens: seq<bool>): nat {
    if opens == [] then 0 else Openings(opens[..|opens| - 1]) + Bit(opens[|opens| - 1])
  }

  /** Every frame went to the object with the number of the last opening. */
  predicate AtOpening(log: seq<int>, opens: seq<bool>) {
    |log| <= |opens| && forall j :: 0 <= j < |log| ==> log[j] == 1 + Openings(opens[..j + 1])
  }

  predicate OpeningsOk(s: State, i: nat)
    requires i < |s.src|
  {
    var q, n := s.src[i], Openings(s.src[i].opens);
    && |q.opens| == |q.log| + Bit(q.pc.Break? || q.pc.Closed? || q.pc.Add?)
    && AtOpening(q.log, q.opens)
    && (q.pc.Start? ==> n == 0)
    && q.epoch == if q.pc.Start? || q.pc.Closed? then n + Bit(Pending(s, i)) else if q.pc.Break? then n else n + 1
  }

  lemma MoreOpens(log: seq<int>, opens: seq<bool>, opening: bool)
    requires AtOpening(log, opens)
    ensures AtOpening(log, opens + [opening])
    ensures Openings(opens + [opening]) == Openings(opens) + Bit(opening)
  {
    assert (opens + [opening])[..|opens|] == opens;
    forall j | 0 <= j < |log|
      ensures log[j] == 1 + Openings((opens + [opening])[..j + 1])
    {
      assert (opens + [opening])[..j + 1] == opens[..j + 1];
    }
  }

  lemma MoreFrames(log: seq<int>, opens: seq<bool>)
    requires AtOpening(log, opens) && |opens| == |log| + 1
    ensures AtOpening(log + [1 + Openings(opens)], opens)
  {
    assert opens[..|log| + 1] == opens;
  }

  lemma OpeningsKeptOwn(s: State, i: nat, detected: bool)
    requires Inv(s) && i < |s.src| && Enabled(s, Frame(i, detected)) && OpeningsOk(s, i)
    ensures OpeningsOk(Step(s, Frame(i, detected)), i)
  {
    var q := s.src[i];
    assert SourceOk(s, i);
    match q.pc
    case Ready => MoreOpens(q.log, q.opens, StartsObject(s.limit, q, detected));
    case Add => MoreFrames(q.log, q.opens);
    case _ =>
  }

  lemma OpeningsKeptOther(s: State, a: Actor, i: nat)
    requires Inv(s) && i < |s.src| && Enabled(s, a) && OpeningsOk(s, i)
    requires a.Frame? ==> a.i != i
    ensures OpeningsOk(Step(s, a), i)
  {
    assert SourceOk(s, i);
    var s' := Step(s, a);
    assert s'.src[i].log == s.src[i].log && s'.src[i].opens == s.src[i].opens;
  }

  lemma {:induction false} RunKeepsOpenings(s: State, schedule: seq<Actor>, i: nat)
    requires Inv(s) && Legal(s, schedule) && i < |s.src| && OpeningsOk(s, i)
    ensures OpeningsOk(Run(s, schedule), i)
    decreases |schedule|
  {
    if schedule != [] {
      InvKept(s, schedule[0]);
      var a := schedule[0];
      if a.Frame? && a.i == i { OpeningsKeptOwn(s, i, a.detected); } else { OpeningsKeptOther(s, a, i); }
      RunKeepsOpenings(Step(s, schedule[0]), schedule[1..], i);
    }
  }

  /** Whatever the callback reports, frame `j` of a source goes to object 1 plus the
      number of its frames up to and including `j` that opened an object. */
  lemma FrameOpening(s: State, i: nat, j: nat)
    requires Reachable(s) && i < |s.src| && j < |s.src[i].log|
    ensures j < |s.src[i].opens| && s.src[i].log[j] == 1 + Openings(s.src[i].opens[..j + 1])
  {
    var s0: State, schedule: seq<Actor> :| Init(s0) && Legal(s0, schedule) && Run(s0, schedule) == s;
    InitInv(s0);
    assert s0.src[i] == Source(Start, 0, 0, s0.src[i].name, 0, 0, [], [], []);
    RunKeepsOpenings(s0, schedule, i);
  }

  // -------------------------------------------------- when an object is opened

  /** How many frames there are from the last opening on. */
  function Since(opens: seq<bool>): (n: nat)
    ensures n <= |opens| && (n == 0 <==> opens == [])
  {
    if opens == [] then 0 else if opens[|opens| - 1] then 1 else 1 + Since(opens[..|opens| - 1])
  }

  /** Before frame `j` exactly `limit` frames have gone by since the last opening. */
  predicate LimitReached(limit: nat, opens: seq<bool>, j: nat)
    requires j <= |opens|
  {
    1 <= limit <= j && opens[j - limit] && forall i :: j - limit < i < j ==> !opens[i]
  }

  lemma {:induction false} SinceIs(limit: nat, opens: seq<bool>)
    requires opens != [] && opens[0] && limit > 0
    ensures Since(opens) == limit <==> LimitReached(limit, opens, |opens|)
  {
    var n := |opens| - 1;
    if !opens[n] && limit > 1 {
      SinceIs(limit - 1, opens[..n]);
      assert LimitReached(limit, opens, n + 1) <==> LimitReached(limit - 1, opens[..n], n);
    }
  }

  /** Frame `j` opened an object exactly when the callback said so, or it was the first, or
      the object before had reached the limit. */
  predicate OpenedRightly(limit: nat, opens: seq<bool>, det: seq<bool>, j: nat)
    requires j < |opens| == |det|
  {
    opens[j] <==> det[j] || j == 0 || LimitReached(limit, opens, j)
  }

  predicate RuleOk(limit: nat, q: Source) {
    && |q.det| == |q.opens|
    && (forall j :: 0 <= j < |q.opens| ==> OpenedRightly(limit, q.opens, q.det, j))
    && Since(q.opens) <= limit
    && match q.pc
       case Start => q.opens == [] && q.frames == 0
       case Ready => q.frames == Since(q.opens)
       case _ => q.opens != [] && q.frames == Since(q.opens) - 1
  }

  lemma RuleMore(limit: nat, opens: seq<bool>, det: seq<bool>, opening: bool, detected: bool)
    requires limit > 0 && |opens| == |det|
    requires forall j :: 0 <= j < |opens| ==> OpenedRightly(limit, opens, det, j)
    requires opening <==> detected || opens == [] || Since(opens) == limit
    ensures forall j :: 0 <= j <= |opens| ==> OpenedRightly(limit, opens + [opening], det + [detected], j)
    ensures Since(opens + [opening]) == if opening then 1 else 1 + Since(opens)
  {
    var opens', det' := opens + [opening], det + [detected];
    assert opens'[..|opens|] == opens;
    forall j | 0 <= j <= |opens|
      ensures OpenedRightly(limit, opens', det', j)
    {
      assert LimitReached(limit, opens', j) <==> LimitReached(limit, opens, j);
      if j < |opens| {
        assert OpenedRightly(limit, opens, det, j);
      } else if j > 0 {
        assert OpenedRightly(limit, opens, det, 0);
        SinceIs(limit, opens);
      }
    }
  }

  lemma StartsWhen(limit: nat, q: Source, detected: bool)
    requires limit > 0 && q.frames <= limit
    ensures StartsObject(limit, q, detected) <==> detected || q.frames == 0 || q.frames == limit
  {
    BoundaryExactly(limit, q.frames);
  }

  lemma RuleReady(limit: nat, q: Source, detected: bool)
    requires limit > 0 && q.pc.Ready? && RuleOk(limit, q)
    ensures RuleOk(limit, SourceNext(limit, q, detected))
  {
    StartsWhen(limit, q, detected);
    var opening := StartsObject(limit, q, detected);
    RuleMore(limit, q.opens, q.det, opening, detected);
    var q' := SourceNext(limit, q, detected);
    assert q'.opens == q.opens + [opening] && q'.det == q.det + [detected];
  }

  lemma RuleKept(s: State, a: Actor, i: nat)
    requires s.limit > 0 && i < |s.src| && Enabled(s, a) && RuleOk(s.limit, s.src[i])
    ensures RuleOk(s.limit, Step(s, a).src[i])
  {
    var q, q' := s.src[i], Step(s, a).src[i];
    if a.Frame? && a.i == i {
      if q.pc.Ready? { RuleReady(s.limit, q, a.detected); }
    } else {
      assert q'.opens == q.opens && q'.det == q.det && q'.pc == q.pc && q'.frames == q.frames;
    }
  }

  lemma {:induction false} RunKeepsRule(s: State, schedule: seq<Actor>, i: nat)
    requires s.limit > 0 && Legal(s, schedule) && i < |s.src| && RuleOk(s.limit, s.src[i])
    ensures RuleOk(s.limit, Run(s, schedule).src[i])
    decreases |schedule|
  {
    if schedule != [] {
      RuleKept(s, schedule[0], i);
      RunKeepsRule(Step(s, schedule[0]), schedule[1..], i);
    }
  }

  /** What the callback says of source `i` in a step. */
  function Said(s: State, a: Actor, i: nat): seq<bool>
    requires i < |s.src|
  {
    if a.Frame? && a.i == i && s.src[i].pc.Ready? then [a.detected] else []
  }

  /** And in a run. */
  function Answers(s: State, schedule: seq<Actor>, i: nat): seq<bool>
    requires s.limit > 0 && Legal(s, schedule) && i < |s.src|
    decreases |schedule|
  {
    if schedule == [] then [] else Said(s, schedule[0], i) + Answers(Step(s, schedule[0]), schedule[1..], i)
  }

  lemma AnswerLogged(s: State, a: Actor, i: nat)
    requires s.limit > 0 && Enabled(s, a) && i < |s.src|
    ensures Step(s, a).src[i].det == s.src[i].det + Said(s, a, i)
  {}

  /** The source's log of answers is what the callback has said. */
  lemma {:induction false} AnswersLogged(s: State, schedule: seq<Actor>, i: nat)
    requires s.limit > 0 && Legal(s, schedule) && i < |s.src|
    ensures Run(s, schedule).src[i].det == s.src[i].det + Answers(s, schedule, i)
    decreases |schedule|
  {
    if schedule != [] {
      AnswerLogged(s, schedule[0], i);
      AnswersLogged(Step(s, schedule[0]), schedule[1..], i);
    }
  }

  /** Frame `j` of a source went to another object than the one before, or was the first. */
  predicate NewObjectAt(log: seq<int>, j: nat)
    requires j < |log|
  {
    j == 0 || log[j] != log[j - 1]
  }

  lemma NewObjectOpens(log: seq<int>, opens: seq<bool>, j: nat)
    requires AtOpening(log, opens) && 0 < j < |log|
    ensures NewObjectAt(log, j) <==> opens[j]
  {
    assert opens[..j + 1][..j] == opens[..j];
  }

  lemma NewObjectRule(limit: nat, log: seq<int>, opens: seq<bool>, det: seq<bool>, j: nat)
    requires limit > 0 && AtOpening(log, opens) && |opens| == |det| && j < |log|
    requires OpenedRightly(limit, opens, det, 0) && OpenedRightly(limit, opens, det, j)
    ensures NewObjectAt(log, j) <==>
              || det[j] || j == 0
              || (limit <= j && NewObjectAt(log, j - limit) && forall k :: j - limit < k < j ==> !NewObjectAt(log, k))
  {
    forall k | 0 <= k < |log|
      ensures NewObjectAt(log, k) <==> opens[k]
    {
      if k > 0 { NewObjectOpens(log, opens, k); }
    }
  }

  lemma ReachableRule(s: State, i: nat)
    requires Reachable(s) && i < |s.src|
    ensures Inv(s) && OpeningsOk(s, i) && RuleOk(s.limit, s.src[i])
  {
    var s0: State, schedule: seq<Actor> :| Init(s0) && Legal(s0, schedule) && Run(s0, schedule) == s;
    InitInv(s0);
    assert s0.src[i] == Source(Start, 0, 0, s0.src[i].name, 0, 0, [], [], []);
    RunKeepsOpenings(s0, schedule, i);
    RunKeepsRule(s0, schedule, i);
    RunKeepsInv(s0, schedule);
  }

  /** A frame goes to a new object if and only if the callback said so of it, or it is the
      source's first, or the object before already has the limit of frames: the one that
      began it, `limit` frames ago, and all since. */
  lemma NewObjectExactly(s: State, i: nat, j: nat)
    requires Reachable(s) && i < |s.src| && j < |s.src[i].log|
    ensures |s.src[i].log| <= |s.src[i].det|
    ensures var log, det, limit := s.src[i].log, s.src[i].det, s.limit;
            NewObjectAt(log, j) <==>
              || det[j] || j == 0
              || (limit <= j && NewObjectAt(log, j - limit) && forall k :: j - limit < k < j ==> !NewObjectAt(log, k))
  {
    ReachableRule(s, i);
    NewObjectRule(s.limit, s.src[i].log, s.src[i].opens, s.src[i].det, j);
  }

  /** How many frames of a source object `o` has: none before the first opening and after
      the last, between 1 and the limit in between, and for the last opened one what the
      source has counted. */
  predicate HoldsOk(limit: nat, q: Source, o: int) {
    var n, held := Openings(q.opens), FramesOf(q.log, o);
    && (n == 0 ==> q.pc.Start? || (q.pc.Ready? && q.frames == 0))
    && (o < 2 || o > n + 1 ==> held == 0)
    && (2 <= o <= n ==> 1 <= held <= limit)
    && (o == n + 1 >= 2 ==> held == Counted(q) <= limit && (q.pc.Ready? ==> held >= 1) && (q.pc.Add? ==> held < limit))
    && (q.pc.Break? || q.pc.Closed? ==> q.frames == 0)
  }

  /** The frames counted, with the one that has just been added. */
  function Counted(q: Source): nat {
    q.frames + Bit(q.pc.Count?)
  }

  lemma MoreHeld(log: seq<int>, x: int, o: int)
    ensures FramesOf(log + [x], o) == FramesOf(log, o) + Bit(x == o)
  {
    assert (log + [x])[..|log|] == log;
  }

  lemma HoldsReady(limit: nat, q: Source, detected: bool, o: int)
    requires limit > 0 && q.pc.Ready? && AtOpening(q.log, q.opens) && HoldsOk(limit, q, o)
    ensures HoldsOk(limit, SourceNext(limit, q, detected), o)
  {
    MoreOpens(q.log, q.opens, StartsObject(limit, q, detected));
    if q.frames <= limit { BoundaryExactly(limit, q.frames); }
  }

  lemma HoldsAdd(limit: nat, q: Source, o: int)
    requires limit > 0 && q.pc.Add? && q.name == Openings(q.opens) + 1 && HoldsOk(limit, q, o)
    ensures HoldsOk(limit, SourceNext(limit, q, false), o)
  {
    MoreHeld(q.log, q.name, o);
  }

  lemma HoldsRest(limit: nat, q: Source, detected: bool, o: int)
    requires limit > 0 && !q.pc.Ready? && !q.pc.Add? && HoldsOk(limit, q, o)
    requires q.pc.Start? ==> q.frames == 0 && Openings(q.opens) == 0
    ensures HoldsOk(limit, SourceNext(limit, q, detected), o)
  {}

  lemma HoldsKeptOwn(s: State, i: nat, detected: bool, o: int)
    requires Inv(s) && i < |s.src| && Enabled(s, Frame(i, detected))
    requires OpeningsOk(s, i) && HoldsOk(s.limit, s.src[i], o)
    requires s.src[i].pc.Start? ==> s.src[i].frames == 0
    ensures HoldsOk(s.limit, Step(s, Frame(i, detected)).src[i], o)
  {
    var q := s.src[i];
    assert SourceOk(s, i);
    match q.pc
    case Ready => HoldsReady(s.limit, q, detected, o);
    case Add => HoldsAdd(s.limit, q, o);
    case _ => HoldsRest(s.limit, q, detected, o);
  }

  lemma HoldsKeptOther(s: State, a: Actor, i: nat, o: int)
    requires s.limit > 0 && i < |s.src| && Enabled(s, a) && HoldsOk(s.limit, s.src[i], o)
    requires a.Frame? ==> a.i != i
    ensures HoldsOk(s.limit, Step(s, a).src[i], o)
  {
    var q, q' := s.src[i], Step(s, a).src[i];
    assert q'.log == q.log && q'.opens == q.opens && q'.pc == q.pc && q'.frames == q.frames;
  }

  lemma NotStarted(s: State, a: Actor, i: nat)
    requires s.limit > 0 && i < |s.src| && Enabled(s, a) && (s.src[i].pc.Start? ==> s.src[i].frames == 0)
    ensures Step(s, a).src[i].pc.Start? ==> Step(s, a).src[i].frames == 0
  {}

  lemma {:induction false} RunKeepsHolds(s: State, schedule: seq<Actor>, i: nat, o: int)
    requires Inv(s) && Legal(s, schedule) && i < |s.src|
    requires OpeningsOk(s, i) && HoldsOk(s.limit, s.src[i], o) && (s.src[i].pc.Start? ==> s.src[i].frames == 0)
    ensures var e := Run(s, schedule); Inv(e) && OpeningsOk(e, i) && HoldsOk(s.limit, e.src[i], o)
    decreases |schedule|
  {
    if schedule != [] {
      var a := schedule[0];
      InvKept(s, a);
      NotStarted(s, a, i);
      if a.Frame? && a.i == i {
        OpeningsKeptOwn(s, i, a.detected);
        HoldsKeptOwn(s, i, a.detected, o);
      } else {
        OpeningsKeptOther(s, a, i);
        HoldsKeptOther(s, a, i, o);
      }
      RunKeepsHolds(Step(s, a), schedule[1..], i, o);
    }
  }

  /** A handed object is not the last one the source has opened. */
  lemma HandedIsClosed(s: State, i: nat, o: nat)
    requires Inv(s) && i < |s.src| && OpeningsOk(s, i) && o < |s.handed|
    ensures o < 2 || o <= Openings(s.src[i].opens)
  {
    assert SourceOk(s, i);
  }

  /** Whatever the callback reports, an object that has been handed over holds between 1
      and the limit frames of every source, except the first two, which hold none. */
  lemma HandedObjectHolds(s: State, i: nat, o: nat)
    requires Reachable(s) && i < |s.src| && o in s.handed
    ensures var held := FramesOf(s.src[i].log, o);
            if o < 2 then held == 0 else 1 <= held <= s.limit
  {
    var s0: State, schedule: seq<Actor> :| Init(s0) && Legal(s0, schedule) && Run(s0, schedule) == s;
    InitInv(s0);
    assert s0.src[i] == Source(Start, 0, 0, s0.src[i].name, 0, 0, [], [], []);
    RunKeepsHolds(s0, schedule, i, o);
    HandedIsClosed(s, i, o);
  }

  // ------------------------------------------------------ without a callback

  /** `m` whole blocks and `f` frames more. */
  predicate Blocks(limit: nat, log: seq<int>, m: int, f: int) {
    m >= 0 && |log| == m * limit + f
  }

  predicate InBlocks(limit: nat, log: seq<int>)
    requires limit > 0
  {
    forall j :: 0 <= j < |log| ==> log[j] == j / limit + 2
  }

  predicate BlockOk(s: State, i: nat)
    requires s.limit > 0 && i < |s.src|
  {
    var q, l := s.src[i], s.limit;
    && InBlocks(l, q.log)
    && match q.pc
       case Start => q.log == [] && q.frames == 0 && q.epoch == Bit(Pending(s, i))
       case Ready =>
         if q.epoch == 1 then q.log == [] && q.frames == 0
         else 1 <= q.frames <= l && Blocks(l, q.log, q.epoch - 2, q.frames)
       case Break => q.frames == 0 && Blocks(l, q.log, q.epoch - 1, 0)
       case Closed => q.frames == 0 && Blocks(l, q.log, q.epoch - 1 - Bit(Pending(s, i)), 0)
       case Add => q.frames < l && Blocks(l, q.log, q.epoch - 2, q.frames)
       case Count => q.frames < l && Blocks(l, q.log, q.epoch - 2, q.frames + 1)
  }

  lemma InitBlocks(s: State, i: nat)
    requires Init(s) && i < |s.src|
    ensures BlockOk(s, i)
  {
    assert s.src[i] == Source(Start, 0, 0, s.src[i].name, 0, 0, [], [], []);
  }

  /** The next frame after `m` whole blocks and `f < limit` frames belongs to block `m`. */
  lemma NextInBlock(limit: nat, log: seq<int>, m: int, f: int)
    requires limit > 0 && 0 <= f < limit && Blocks(limit, log, m, f) && InBlocks(limit, log)
    ensures InBlocks(limit, log + [m + 2])
  {
    DivModUnique(|log|, limit, m, f);
  }

  lemma FullBlock(limit: nat, log: seq<int>, m: int)
    requires Blocks(limit, log, m, limit)
    ensures Blocks(limit, log, m + 1, 0)
  {
    assert (m + 1) * limit == m * limit + limit;
  }

  lemma BoundaryExactly(limit: nat, f: nat)
    requires 0 < limit && f <= limit
    ensures f % limit == 0 <==> f == 0 || f == limit
  {
    if f < limit { DivModUnique(f, limit, 0, f); } else { DivModUnique(f, limit, 1, 0); }
  }

  lemma BlockKeptOwn(s: State, i: nat)
    requires Inv(s) && i < |s.src| && Enabled(s, Frame(i, false)) && BlockOk(s, i)
    ensures BlockOk(Step(s, Frame(i, false)), i)
  {
    var q, l := s.src[i], s.limit;
    assert SourceOk(s, i);
    match q.pc
    case Ready =>
      BoundaryExactly(l, q.frames);
      if q.frames == l { FullBlock(l, q.log, q.epoch - 2); }
    case Add => NextInBlock(l, q.log, q.epoch - 2, q.frames);
    case _ =>
  }

  lemma BlockKeptOther(s: State, a: Actor, i: nat)
    requires Inv(s) && i < |s.src| && Enabled(s, a) && BlockOk(s, i)
    requires a.Frame? ==> a.i != i
    ensures BlockOk(Step(s, a), i)
  {
    assert SourceOk(s, i);
  }

  /** The schedule of a collector whose sources have no detection callback. */
  predicate NoCallback(schedule: seq<Actor>) {
    forall j :: 0 <= j < |schedule| && schedule[j].Frame? ==> !schedule[j].detected
  }

  lemma {:induction false} RunKeepsBlocks(s: State, schedule: seq<Actor>, i: nat)
    requires Inv(s) && Legal(s, schedule) && NoCallback(schedule) && i < |s.src| && BlockOk(s, i)
    ensures Inv(Run(s, schedule)) && BlockOk(Run(s, schedule), i)
    decreases |schedule|
  {
    if schedule != [] {
      var a := schedule[0];
      InvKept(s, a);
      if a == Frame(i, false) { BlockKeptOwn(s, i); } else { BlockKeptOther(s, a, i); }
      RunKeepsBlocks(Step(s, a), schedule[1..], i);
    }
  }

  ghost predicate ReachableWithoutCallback(s: State) {
    exists s0: State, schedule: seq<Actor> ::
      Init(s0) && Legal(s0, schedule) && NoCallback(schedule) && Run(s0, schedule) == s
  }

  lemma ReachableBlocks(s: State, i: nat)
    requires ReachableWithoutCallback(s) && i < |s.src|
    ensures Inv(s) && BlockOk(s, i)
  {
    var s0: State, schedule: seq<Actor> :|
      Init(s0) && Legal(s0, schedule) && NoCallback(schedule) && Run(s0, schedule) == s;
    InitInv(s0);
    InitBlocks(s0, i);
    RunKeepsBlocks(s0, schedule, i);
  }

  /** Frame `j` of every source belongs to block `j / limit`, and block `m` of every
      source goes to the same object, number `m + 2`. */
  lemma FrameObject(s: State, i: nat, j: nat)
    requires ReachableWithoutCallback(s) && i < |s.src| && j < |s.src[i].log|
    ensures s.src[i].log[j] == j / s.limit + 2
  {
    ReachableBlocks(s, i);
  }

  /** Of a stream cut into blocks, block `o - 2` is what object `o` holds. */
  lemma {:induction false} FramesInBlock(limit: nat, log: seq<int>, o: int)
    requires limit > 0 && InBlocks(limit, log)
    ensures FramesOf(log, o) ==
              if o < 2 || |log| <= (o - 2) * limit then 0
              else if |log| <= (o - 1) * limit then |log| - (o - 2) * limit else limit
  {
    BlockEdges(limit, o);
    if log != [] {
      var n := |log| - 1;
      FramesInBlock(limit, log[..n], o);
      BlockOfFrame(limit, n, o);
    }
  }

  lemma BlockEdges(limit: nat, o: int)
    ensures (o - 1) * limit == (o - 2) * limit + limit
    ensures o >= 2 ==> (o - 2) * limit >= 0
  {}

  /** Frame `n` belongs to object `o` exactly when it lies between the block's edges. */
  lemma BlockOfFrame(limit: nat, n: nat, o: int)
    requires limit > 0
    ensures n / limit + 2 == o <==> o >= 2 && (o - 2) * limit <= n < (o - 1) * limit
  {
    BlockEdges(limit, o);
    if o >= 2 && (o - 2) * limit <= n < (o - 1) * limit {
      DivModUnique(n, limit, o - 2, n - (o - 2) * limit);
    }
  }

  /** A source has finished every block that has been handed over. */
  lemma HandedBlocksDone(s: State, i: nat, o: nat)
    requires Inv(s) && i < |s.src| && BlockOk(s, i) && 2 <= o < |s.handed|
    ensures |s.src[i].log| >= (o - 1) * s.limit
  {
    assert SourceOk(s, i);
    var q, l, h := s.src[i], s.limit, |s.handed|;
    assert q.epoch == h || (q.epoch == h - 1 && IsClosed(q));
    MonotoneBlocks(l, o - 1, h - 2);
    MonotoneBlocks(l, o - 1, h - 1);
    if q.pc.Closed? && !Pending(s, i) { MonotoneBlocks(l, h - 2, q.epoch - 1); }
  }

  lemma MonotoneBlocks(limit: nat, a: int, b: int)
    ensures a <= b ==> a * limit <= b * limit
  {}

  /** When an object is handed over it holds exactly `object_detection_frame_limit`
      frames of every source, except the first two objects, which hold none. */
  lemma HandedObjectFull(s: State, i: nat, o: nat)
    requires ReachableWithoutCallback(s) && i < |s.src| && o in s.handed
    ensures FramesOf(s.src[i].log, o) == if o < 2 then 0 else s.limit
  {
    ReachableBlocks(s, i);
    FramesInBlock(s.limit, s.src[i].log, o);
    BlockEdges(s.limit, o);
    if o >= 2 { HandedBlocksDone(s, i, o); }
  }
}

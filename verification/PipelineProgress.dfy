/** Progress: no deadlock, and an orderly end once `exit_flag` is raised. */
module PipelineProgress {
  import opened Arithmetic
  import opened Sequences
  import opened PipelineModel
  import opened PipelineInvariant
  import opened PipelineOwnership
  import opened PipelineSafety
  import opened PipelineTheorems
  import opened PipelineDeparture

  predicate Quiet(s: State, k: nat)
    requires s.WellFormed() && k < |s.thr|
  {
    !ThreadEnabled(s, k) && !ClientEnabled(s, k)
  }

  /** A stage whose successor is drained can only be blocked by an empty mailbox or,
      at the source, by an empty ring. */
  lemma QuietStage(s: State, k: nat)
    requires s.WellFormed() && RoleInv(s) && LinkInv(s) && HandshakeInv(s)
    requires k < |s.thr| && Quiet(s, k) && !Abandoned(s, k)
    requires k < s.Last() ==> Drained(s, k + 1)
    ensures Drained(s, k) || (k == 0 && s.thr[0].pc.PopWait? && s.sem == 0) || (k == 0 && s.thr[0].pc.PopLock?)
  {
    assert Role(|s.thr|, k, s.thr[k]);
    if k < s.Last() {
      assert Link(s.thr[k], s.box[k + 1], s.thr[k + 1]);
      assert Role(|s.thr|, k + 1, s.thr[k + 1]);
      assert Handshake(s.thr[k], s.rec[k], s.cli[k]);
    }
  }

  lemma {:induction false} QuietTail(s: State, k: nat)
    requires s.WellFormed() && RoleInv(s) && LinkInv(s) && HandshakeInv(s)
    requires forall j :: 1 <= j < |s.thr| ==> Quiet(s, j) && !Abandoned(s, j)
    requires 1 <= k < |s.thr|
    ensures forall j :: k <= j < |s.thr| ==> Drained(s, j)
    decreases |s.thr| - k
  {
    if k < s.Last() { QuietTail(s, k + 1); }
    QuietStage(s, k);
  }

  /** A ring can only be empty while some chunk is out of it. */
  lemma EmptyRingIsBusy(c: Config, s: State)
    requires Inv(c, s) && s.owner.Keys != {}
    requires s.thr[0].pc.PopWait? || s.thr[0].pc.PopLock?
    requires forall j :: 1 <= j < |s.thr| ==> Drained(s, j)
    ensures s.free != [] && (s.thr[0].pc.PopWait? ==> s.sem > 0)
  {
    var o :| o in s.owner.Keys;
    assert Owned(s, o, s.owner[o]);
    assert Located(s, o, s.owner[o]);
    forall k | 0 <= k < |s.thr|
      ensures !Holds(s.thr[k]) && !s.thr[k].pc.PushPost? && (k >= 1 ==> !InMail(s.box[k], s.thr[k]))
    {
      assert Role(|s.thr|, k, s.thr[k]);
      if k >= 1 {
        assert Drained(s, k);
        assert Link(s.thr[k - 1], s.box[k], s.thr[k]);
      }
    }
    PostingNone(s.thr);
  }

  /** If nothing can move and nobody was abandoned, every thread has returned. */
  lemma StuckMeansReturned(c: Config, s: State)
    requires Inv(c, s) && s.owner.Keys != {}
    requires forall j :: 0 <= j < |s.thr| ==> Quiet(s, j) && !Abandoned(s, j)
    ensures AllReturned(s)
  {
    QuietTail(s, 1);
    assert Drained(s, 1) && Quiet(s, 0);
    QuietStage(s, 0);
    if !Drained(s, 0) { EmptyRingIsBusy(c, s); }
    assert Role(|s.thr|, 0, s.thr[0]);
    ReturnedDown(s, s.Last());
  }

  /** A returned source has told everyone to stop. */
  lemma {:induction false} ReturnedDown(s: State, k: nat)
    requires s.WellFormed() && RoleInv(s) && LinkInv(s) && k < |s.thr|
    requires s.thr[0].pc.Done?
    requires forall j :: 0 <= j < |s.thr| ==> Drained(s, j)
    ensures forall j :: 0 <= j <= k ==> s.thr[j].pc.Done?
  {
    if k > 0 {
      ReturnedDown(s, k - 1);
      assert Link(s.thr[k - 1], s.box[k], s.thr[k]);
      assert Role(|s.thr|, k - 1, s.thr[k - 1]) && Role(|s.thr|, k, s.thr[k]);
      assert Drained(s, k);
    }
  }

  /** No thread and no child can move. */
  predicate Standstill(s: State)
    requires s.WellFormed()
  {
    forall k :: 0 <= k < |s.thr| ==> Quiet(s, k)
  }

  /** At a standstill either every thread has returned or one has been abandoned. */
  lemma StandstillAbandons(c: Config, chunks: seq<nat>, s: State)
    requires Reachable(c, chunks, s) && chunks != [] && Standstill(s)
    ensures !AllReturned(s) ==> exists k :: 0 <= k < s.Last() && Abandoned(s, k)
  {
    ReachableInv(c, chunks, s);
    assert chunks[0] in s.owner.Keys;
    assert Role(|s.thr|, s.Last(), s.thr[s.Last()]);
    if forall k :: 0 <= k < s.Last() ==> !Abandoned(s, k) { StuckMeansReturned(c, s); }
  }

  /** What can bring a pipeline to a standstill, for children of any kind: when no
      thread and no child can move, all threads have returned if and only if no job
      that any child has done returned -1. */
  lemma StandstillExactly(c: Config, chunks: seq<nat>, s: State)
    requires Reachable(c, chunks, s) && chunks != [] && Standstill(s)
    ensures AllReturned(s) <==>
              forall k, j :: 0 <= k < s.Last() && 0 <= j < s.cli[k].jobs && j < |s.box[k].inn| ==>
                c.act(k, j, s.box[k].inn[j]).1 != -1
  {
    ReachableDeparture(c, chunks, s);
    StandstillAbandons(c, chunks, s);
    forall k | 0 <= k < s.Last()
      ensures AllReturned(s) ==> !HasFailed(c, s, k)
      ensures Abandoned(s, k) ==> HasFailed(c, s, k)
    {
      ReturnNeedsAnswers(c, chunks, s, k);
    }
    forall k, j | 0 <= k < s.Last() && 0 <= j < s.cli[k].jobs && j < |s.box[k].inn|
      ensures AllReturned(s) ==> c.act(k, j, s.box[k].inn[j]).1 != -1
    {
      assert Fails(c, k, s.box[k].inn, j) ==> HasFailed(c, s, k);
    }
  }

  /** No deadlock: with at least one chunk, in every reachable state in which some
      thread has not returned some thread or child can move, unless a job has returned
      -1. */
  lemma NoDeadlock(c: Config, chunks: seq<nat>, s: State)
    requires Reachable(c, chunks, s) && chunks != [] && !AllReturned(s)
    requires forall k :: 0 <= k < s.Last() ==> !HasFailed(c, s, k)
    ensures exists k :: 0 <= k < |s.thr| && (Enabled(s, Module(k)) || Enabled(s, Child(k)))
  {
    if forall k :: 0 <= k < |s.thr| ==> !Enabled(s, Module(k)) && !Enabled(s, Child(k)) {
      forall k | 0 <= k < |s.thr|
        ensures Quiet(s, k)
      {
        assert !Enabled(s, Module(k)) && !Enabled(s, Child(k));
      }
      StandstillAbandons(c, chunks, s);
      var k :| 0 <= k < s.Last() && Abandoned(s, k);
      ReturnNeedsAnswers(c, chunks, s, k);
    }
  }

  // -------------------------------------------------------- orderly shutdown

  const STAGE_COST := 30

  /** What is still to be done for a command in the mailbox of stage `k`. */
  function MailCost(n: nat, k: nat): nat {
    if k < n then STAGE_COST * (n - k) else 0
  }

  /** What is left of a child's turn. */
  function ChildCost(r: Record, q: Client): nat {
    if r.semResult > 0 then 0
    else match q.pc
      case Reply => 1
      case Act => 2
      case Fetch => 3
      case Idle => 4
      case Gone => 4
  }

  /** What is still to be done for the command thread `k` is working on. */
  function WorkCost(n: nat, k: nat, t: Thread, r: Record, q: Client): nat {
    var down := MailCost(n, k + 1);
    var again := if k == 0 then down + 13 else 0;
    match t.pc
    case RecvWait => 0
    case RecvRead => down + 29
    case RecvPost => down + 28
    case JobWrite => if t.cmd.JOB? then down + again + 20 else 8
    case JobPost => if t.cmd.JOB? then down + again + 19 else 7
    case JobWait => if t.cmd.JOB? then down + again + 14 + ChildCost(r, q) else 2 + ChildCost(r, q)
    case Verdict => down + again + 13
    case SendWait => down + 11 + (if t.cmd.JOB? then again else 0)
    case SendWrite => down + 10 + (if t.cmd.JOB? then again else 0)
    case SendPost => down + 9 + (if t.cmd.JOB? then again else 0)
    case Clear => 9
    case PushLock => 8
    case PushPost => 7
    case Done => 0
    case Top => down + 12
    case Gate => down + again + 23
    case PopWait => down + again + 22
    case PopLock => down + again + 21
  }

  function StageCost(s: State, k: nat): nat
    requires s.WellFormed() && k < |s.thr|
  {
    (if s.box[k].newCmd > 0 then MailCost(|s.thr|, k) else 0)
    + WorkCost(|s.thr|, k, s.thr[k], s.rec[k], s.cli[k])
  }

  function CostUpTo(s: State, j: nat): nat
    requires s.WellFormed() && j <= |s.thr|
  {
    if j == 0 then 0 else CostUpTo(s, j - 1) + StageCost(s, j - 1)
  }

  /** Everything that is still to be done before the pipeline is at rest. */
  function Measure(s: State): nat
    requires s.WellFormed()
  {
    CostUpTo(s, |s.thr|) + Bit(!s.live) + Bit(!s.exit)
  }

  lemma {:induction false} CostSame(s: State, s': State, j: nat)
    requires s.WellFormed() && s'.WellFormed() && |s'.thr| == |s.thr| && j <= |s.thr|
    requires forall i :: 0 <= i < j ==> StageCost(s', i) == StageCost(s, i)
    ensures CostUpTo(s', j) == CostUpTo(s, j)
  {
    if j > 0 { CostSame(s, s', j - 1); }
  }

  /** A step of thread `k` touches the cost of stages `k` and `k + 1` only. */
  lemma {:induction false} CostDrops(s: State, s': State, k: nat, j: nat)
    requires s.WellFormed() && s'.WellFormed() && |s'.thr| == |s.thr| && k < j <= |s.thr|
    requires forall i :: 0 <= i < j && i != k && i != k + 1 ==> StageCost(s', i) == StageCost(s, i)
    requires k + 1 < |s.thr| ==> StageCost(s', k) + StageCost(s', k + 1) < StageCost(s, k) + StageCost(s, k + 1)
    requires j == k + 1 ==> k + 1 == |s.thr| && StageCost(s', k) < StageCost(s, k)
    ensures CostUpTo(s', j) < CostUpTo(s, j)
  {
    if j == k + 1 {
      CostSame(s, s', k);
    } else if j == k + 2 {
      CostSame(s, s', k);
      assert CostUpTo(s, k + 2) == CostUpTo(s, k) + StageCost(s, k) + StageCost(s, k + 1);
      assert CostUpTo(s', k + 2) == CostUpTo(s', k) + StageCost(s', k) + StageCost(s', k + 1);
    } else {
      CostDrops(s, s', k, j - 1);
    }
  }

  /** A thread that moves has less to do, counting what it puts into the next mailbox,
      unless it is the source beginning a new round; `nb` is that mailbox. */
  lemma ThreadCostDrops(n: nat, k: nat, t: Thread, b: Mailbox, r: Record, q: Client, d: Data,
                        exit: bool, live: bool, head: nat, nb: Mailbox)
    requires k < n && 2 <= n && Role(n, k, t) && b.newCmd <= 1
    requires t.pc.RecvWait? ==> b.newCmd > 0
    requires t.pc.JobWait? ==> r.semResult > 0
    requires t.pc.Top? ==> exit
    requires !t.pc.Done? && (t.pc.SendWait? || t.pc.SendWrite? || t.pc.SendPost? ==> k + 1 < n)
    ensures var u := ThreadNext(n, k, t, b, r, d, exit, live, head);
            (if OwnBox(t, b, d).newCmd > 0 then MailCost(n, k) else 0) + WorkCost(n, k, u, OwnRecord(t, r), q)
            + (if NextBox(t, nb).newCmd > 0 then MailCost(n, k + 1) else 0)
            < (if b.newCmd > 0 then MailCost(n, k) else 0) + WorkCost(n, k, t, r, q)
              + (if nb.newCmd > 0 then MailCost(n, k + 1) else 0)
  {}

  lemma ChildCostDrops(c: Config, n: nat, k: nat, t: Thread, r: Record, q: Client, d: Data)
    requires Handshake(t, r, q) && !q.pc.Gone? && (q.pc.Idle? ==> r.semJob > 0)
    ensures WorkCost(n, k, t, ClientRecord(c, k, q, r), ClientNext(c, k, q, r, d)) < WorkCost(n, k, t, r, q)
  {}

  /** The source finds the exit flag down and begins a new round. */
  predicate NewRound(s: State, a: Actor)
    requires s.WellFormed()
  {
    a == Module(0) && s.thr[0].pc.Top? && !s.exit
  }

  lemma ThreadStepCost(s: State, k: nat)
    requires Base(s) && ThreadEnabled(s, k) && !NewRound(s, Module(k))
    ensures var s', n := ThreadStep(s, k), |s.thr|;
            && (k + 1 < n ==> StageCost(s', k) + StageCost(s', k + 1) < StageCost(s, k) + StageCost(s, k + 1))
            && (k + 1 == n ==> StageCost(s', k) < StageCost(s, k))
  {
    var n, t, b := |s.thr|, s.thr[k], s.box[k];
    var o, d := Taken(t, b, s.free), s.Read(t.offset);
    StepShape(s, k);
    assert Role(n, k, t);
    assert k > 0 ==> Link(s.thr[k - 1], b, t);
    ThreadCostDrops(n, k, t, b, s.rec[k], s.cli[k], d, s.exit, s.live, o, if k + 1 < n then s.box[k + 1] else b);
  }

  lemma ThreadStepDrops(s: State, k: nat)
    requires Base(s) && ThreadEnabled(s, k) && !NewRound(s, Module(k))
    ensures Measure(ThreadStep(s, k)) < Measure(s)
  {
    var s' := ThreadStep(s, k);
    StepShape(s, k);
    ThreadStepCost(s, k);
    forall i | 0 <= i < |s.thr| && i != k && i != k + 1
      ensures StageCost(s', i) == StageCost(s, i)
    {}
    CostDrops(s, s', k, |s.thr|);
  }

  /** What a new round adds at most, its first step included. */
  function RoundCost(n: nat): nat {
    MailCost(n, 1) + 25
  }

  lemma {:induction false} CostRises(s: State, s': State, j: nat)
    requires s.WellFormed() && s'.WellFormed() && |s'.thr| == |s.thr| && 0 < j <= |s.thr|
    requires forall i :: 0 < i < j ==> StageCost(s', i) == StageCost(s, i)
    ensures CostUpTo(s', j) - CostUpTo(s, j) == StageCost(s', 0) - StageCost(s, 0)
  {
    if j > 1 { CostRises(s, s', j - 1); }
  }

  lemma NewRoundCosts(s: State)
    requires Base(s) && NewRound(s, Module(0))
    ensures ThreadEnabled(s, 0) && Measure(ThreadStep(s, 0)) < Measure(s) + RoundCost(|s.thr|)
  {
    var s' := ThreadStep(s, 0);
    StepShape(s, 0);
    forall i | 0 < i < |s.thr|
      ensures StageCost(s', i) == StageCost(s, i)
    {}
    CostRises(s, s', |s.thr|);
  }

  lemma ChildStepDrops(c: Config, s: State, k: nat)
    requires s.WellFormed() && HandshakeInv(s) && ClientEnabled(s, k)
    ensures Measure(ClientStep(c, s, k)) < Measure(s)
  {
    var s' := ClientStep(c, s, k);
    assert Handshake(s.thr[k], s.rec[k], s.cli[k]);
    ChildCostDrops(c, |s.thr|, k, s.thr[k], s.rec[k], s.cli[k], s.Read(s.rec[k].offset));
    forall i | 0 <= i < |s.thr| && i != k
      ensures StageCost(s', i) == StageCost(s, i)
    {}
    CostDrops(s, s', k, |s.thr|);
  }

  /** Every step of anyone brings the end closer, unless the source begins a new round. */
  lemma StepDrops(c: Config, s: State, a: Actor)
    requires Inv(c, s) && Enabled(s, a) && !NewRound(s, a)
    ensures Measure(Step(c, s, a)) < Measure(s)
  {
    match a
    case Module(k) => ThreadStepDrops(s, k);
    case Child(k) => ChildStepDrops(c, s, k);
    case _ =>
      var s' := Step(c, s, a);
      forall i | 0 <= i < |s.thr|
        ensures StageCost(s', i) == StageCost(s, i)
      {}
      CostSame(s, s', |s.thr|);
  }

  lemma StepCost(c: Config, s: State, a: Actor)
    requires Inv(c, s) && Enabled(s, a)
    ensures Measure(Step(c, s, a)) < Measure(s) + if NewRound(s, a) then RoundCost(|s.thr|) else 0
  {
    if NewRound(s, a) { NewRoundCosts(s); } else { StepDrops(c, s, a); }
  }

  /** How many rounds the source begins in a run. */
  function Rounds(c: Config, s: State, schedule: seq<Actor>): nat
    requires s.WellFormed() && Legal(c, s, schedule)
    decreases |schedule|
  {
    if schedule == [] then 0
    else Bit(NewRound(s, schedule[0])) + Rounds(c, Step(c, s, schedule[0]), schedule[1..])
  }

  lemma FirstStep(c: Config, s: State, schedule: seq<Actor>, cost: nat)
    requires s.WellFormed() && Legal(c, s, schedule) && schedule != []
    ensures var a, s', rest := schedule[0], Step(c, s, schedule[0]), schedule[1..];
            && Run(c, s, schedule) == Run(c, s', rest)
            && cost * Rounds(c, s, schedule) == (if NewRound(s, a) then cost else 0) + cost * Rounds(c, s', rest)
  {
    var later := Rounds(c, Step(c, s, schedule[0]), schedule[1..]);
    assert cost * (1 + later) == cost + cost * later;
  }

  lemma {:induction false} RunsPaidFor(c: Config, s: State, schedule: seq<Actor>, cost: nat)
    requires Inv(c, s) && Legal(c, s, schedule) && RoundCost(|s.thr|) <= cost
    ensures |schedule| + Measure(Run(c, s, schedule)) <= Measure(s) + cost * Rounds(c, s, schedule)
    decreases |schedule|
  {
    if schedule != [] {
      FirstStep(c, s, schedule, cost);
      StepKeepsInv(c, s, schedule[0]);
      StepCost(c, s, schedule[0]);
      RunsPaidFor(c, Step(c, s, schedule[0]), schedule[1..], cost);
    }
  }

  /** The rounds of the source pay for everything that happens: no run is longer than the
      measure and what its rounds add. */
  lemma RunsBounded(c: Config, s: State, schedule: seq<Actor>)
    requires Inv(c, s) && Legal(c, s, schedule)
    ensures |schedule| + Measure(Run(c, s, schedule)) <= Measure(s) + RoundCost(|s.thr|) * Rounds(c, s, schedule)
  {
    RunsPaidFor(c, s, schedule, RoundCost(|s.thr|));
  }

  /** There are none after `exit_flag` is raised, and none without the source. */
  lemma {:induction false} NoRounds(c: Config, s: State, schedule: seq<Actor>)
    requires s.WellFormed() && Legal(c, s, schedule) && (s.exit || Module(0) !in schedule)
    ensures Rounds(c, s, schedule) == 0 && (s.exit ==> Run(c, s, schedule).exit)
    decreases |schedule|
  {
    if schedule != [] { NoRounds(c, Step(c, s, schedule[0]), schedule[1..]); }
  }

  /** So no run after `exit_flag` is longer than the measure. */
  lemma RunsEnd(c: Config, s: State, schedule: seq<Actor>)
    requires Inv(c, s) && s.exit && Legal(c, s, schedule)
    ensures |schedule| + Measure(Run(c, s, schedule)) <= Measure(s)
    ensures Run(c, s, schedule).exit
  {
    RunsBounded(c, s, schedule);
    NoRounds(c, s, schedule);
  }

  /** While the source rests, `exit_flag` or not, the others come to rest within as many
      steps as the measure says. When none of them can move and none of their jobs has
      returned -1, everything the source has sent is delivered; that is all it has
      captured, but for a chunk it is just sending. */
  lemma RestDelivers(c: Config, chunks: seq<nat>, s: State, schedule: seq<Actor>)
    requires Reachable(c, chunks, s) && Legal(c, s, schedule) && Module(0) !in schedule
    ensures |schedule| <= Measure(s)
    ensures var e := Run(c, s, schedule);
            (forall k :: 1 <= k < |e.thr| ==> Quiet(e, k)) && (forall k :: 1 <= k < e.Last() ==> !HasFailed(c, e, k)) ==>
              && e.box[e.Last()].inn == Through(c, e.Last(), e.box[1].inn)
              && e.thr[0].acc == e.box[1].inn + Opt(Forwarding(e.thr[0]), e.Read(e.thr[0].offset))
  {
    ReachableInv(c, chunks, s);
    RunsBounded(c, s, schedule);
    NoRounds(c, s, schedule);
    ReachableFurther(c, chunks, s, schedule);
    var e := Run(c, s, schedule);
    if (forall k :: 1 <= k < |e.thr| ==> Quiet(e, k)) && (forall k :: 1 <= k < e.Last() ==> !HasFailed(c, e, k)) {
      SettledDelivers(c, chunks, e);
    }
  }

  lemma SettledDelivers(c: Config, chunks: seq<nat>, s: State)
    requires Reachable(c, chunks, s)
    requires forall k :: 1 <= k < |s.thr| ==> Quiet(s, k)
    requires forall k :: 1 <= k < s.Last() ==> !HasFailed(c, s, k)
    ensures s.box[s.Last()].inn == Through(c, s.Last(), s.box[1].inn)
    ensures s.thr[0].acc == s.box[1].inn + Opt(Forwarding(s.thr[0]), s.Read(s.thr[0].offset))
  {
    ReachableInv(c, chunks, s);
    forall k | 1 <= k < |s.thr|
      ensures !Abandoned(s, k)
    {
      assert Role(|s.thr|, k, s.thr[k]);
      if k < s.Last() { ReturnNeedsAnswers(c, chunks, s, k); }
    }
    QuietTail(s, 1);
    GivenAll(c, s, s.Last());
    GivenBySource(c, s);
  }

  /** When every thread has returned, exactly the original chunks are in the ring and
      its semaphore shows all of them. */
  lemma AllChunksBack(c: Config, chunks: seq<nat>, s: State)
    requires Reachable(c, chunks, s) && AllReturned(s)
    ensures Distinct(s.free) && Elements(s.free) == Elements(chunks) && |s.free| == s.sem == |chunks|
  {
    ReachableInv(c, chunks, s);
    PostingNone(s.thr);
    forall k | 0 <= k < |s.thr|
      ensures !Holds(s.thr[k]) && (k >= 1 ==> !InMail(s.box[k], s.thr[k]))
    {
      assert Role(|s.thr|, k, s.thr[k]);
      if k >= 1 { assert Link(s.thr[k - 1], s.box[k], s.thr[k]); }
    }
    forall o: nat
      ensures o in s.free <==> o in chunks
    {
      assert Owned(s, o, Free) <==> Located(s, o, Free);
      if o in chunks {
        assert o in s.owner.Keys;
        assert Owned(s, o, s.owner[o]);
        assert Located(s, o, s.owner[o]);
      }
    }
    assert Elements(s.free) == Elements(chunks);
    SetOfDistinct(s.free);
    SetOfDistinct(chunks);
  }

  /** An orderly end: after `exit_flag` is raised every run is at most as long as the
      measure says. One that nothing can prolong has returned every thread if and only
      if no job returned -1, and then it has put every chunk back and delivered
      everything that was captured. */
  lemma OrderlyShutdown(c: Config, chunks: seq<nat>, s: State, schedule: seq<Actor>)
    requires Reachable(c, chunks, s) && chunks != []
    requires s.exit && Legal(c, s, schedule)
    ensures |schedule| <= Measure(s)
    ensures var e := Run(c, s, schedule);
            && (Standstill(e) ==> (AllReturned(e) <==> forall k :: 0 <= k < e.Last() ==> !HasFailed(c, e, k)))
            && (AllReturned(e) ==>
                  && Elements(e.free) == Elements(chunks) && |e.free| == e.sem == |chunks|
                  && e.box[e.Last()].inn == Through(c, e.Last(), e.thr[0].acc))
  {
    ReachableInv(c, chunks, s);
    RunsEnd(c, s, schedule);
    ReachableFurther(c, chunks, s, schedule);
    var e := Run(c, s, schedule);
    forall k | 0 <= k < e.Last()
      ensures AllReturned(e) ==> !HasFailed(c, e, k)
      ensures Abandoned(e, k) ==> HasFailed(c, e, k)
    {
      ReturnNeedsAnswers(c, chunks, e, k);
    }
    if Standstill(e) { StandstillAbandons(c, chunks, e); }
    if AllReturned(e) {
      AllChunksBack(c, chunks, e);
      DeliveredAll(c, chunks, e);
    }
  }

  /** After `exit_flag` is raised there always is a run that nothing can prolong. */
  lemma {:induction false} StandstillReached(c: Config, s: State) returns (schedule: seq<Actor>)
    requires Inv(c, s) && s.exit
    ensures Legal(c, s, schedule) && Standstill(Run(c, s, schedule))
    decreases Measure(s)
  {
    schedule := [];
    if !Standstill(s) {
      var k :| 0 <= k < |s.thr| && !Quiet(s, k);
      var a := if ThreadEnabled(s, k) then Module(k) else Child(k);
      StepKeepsInv(c, s, a);
      StepDrops(c, s, a);
      var rest := StandstillReached(c, Step(c, s, a));
      schedule := [a] + rest;
      assert schedule[1..] == rest;
    }
  }

  /** Such an end is reached: two modules with one chunk and an action that returns -1
      come to a standstill after `exit_flag` with the source's thread abandoned. */
  lemma AbandonedReached() returns (c: Config, s: State)
    ensures Reachable(c, [0], s) && |s.thr| == 2 && s.exit && Standstill(s) && Abandoned(s, 0)
  {
    c := FAILING;
    var failed := FailureReached();
    ReachableNext(c, [0], failed, RaiseExit);
    var stopping := Step(c, failed, RaiseExit);
    ReachableInv(c, [0], stopping);
    var schedule := StandstillReached(c, stopping);
    s := Run(c, stopping, schedule);
    RunsEnd(c, stopping, schedule);
    ReachableFurther(c, [0], stopping, schedule);
    assert Fails(c, 0, stopping.box[0].inn, 0);
    FailureIsFatal(c, [0], stopping, schedule, 0);
    StandstillAbandons(c, [0], s);
  }
}

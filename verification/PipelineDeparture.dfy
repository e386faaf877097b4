/** When a child process leaves: it is told to stop, or its action returns -1. */
module PipelineDeparture {
  import opened Arithmetic
  import opened PipelineModel
  import opened PipelineInvariant
  import opened PipelineOwnership
  import opened PipelineSafety
  import opened PipelineTheorems

  /** Job `j` of stage `k` returns -1 on the chunk it is given. */
  predicate Fails(c: Config, k: nat, inn: seq<Data>, j: int) {
    0 <= j < |inn| && c.act(k, j, inn[j]).1 == -1
  }

  /** A child leaves after its first failure or after a STOP, never after both. */
  predicate Departure(c: Config, k: nat, inn: seq<Data>, q: Client) {
    var failed := Fails(c, k, inn, q.jobs - 1);
    && q.jobs <= |inn|
    && (forall j :: 0 <= j < q.jobs - 1 ==> !Fails(c, k, inn, j))
    && (q.exiting <==> failed || STOP in q.crx) && !(failed && STOP in q.crx)
    && (q.exiting ==> q.pc.Reply? || q.pc.Gone?) && (q.pc.Gone? ==> q.exiting)
  }

  predicate DepartureInv(c: Config, s: State)
    requires s.WellFormed()
  {
    forall k :: 0 <= k < s.Last() ==> Departure(c, k, s.box[k].inn, s.cli[k])
  }

  lemma DepartureChild(c: Config, k: nat, t: Thread, inn: seq<Data>, r: Record, q: Client, d: Data, d': Data)
    requires Handshake(t, r, q) && Stage(c, k, t, inn, r, q, d) && Departure(c, k, inn, q)
    requires !q.pc.Gone? && (q.pc.Idle? ==> r.semJob > 0)
    ensures Departure(c, k, inn, ClientNext(c, k, q, r, d'))
  {
    if q.pc.Act? { assert !Worked(t, r, q) && Undecided(t); }
  }

  /** More chunks given change nothing. */
  lemma DepartureGiven(c: Config, k: nat, inn: seq<Data>, inn': seq<Data>, q: Client)
    requires Departure(c, k, inn, q) && inn <= inn'
    ensures Departure(c, k, inn', q)
  {
    forall j | 0 <= j < q.jobs
      ensures Fails(c, k, inn', j) <==> Fails(c, k, inn, j)
    {
      assert inn'[j] == inn[j];
    }
  }

  lemma DepartureKept(c: Config, s: State, a: Actor)
    requires Inv(c, s) && DepartureInv(c, s) && Enabled(s, a)
    ensures DepartureInv(c, Step(c, s, a))
  {
    var s' := Step(c, s, a);
    forall k | 0 <= k < s.Last()
      ensures Departure(c, k, s'.box[k].inn, s'.cli[k])
    {
      assert Departure(c, k, s.box[k].inn, s.cli[k]);
      if a == Child(k) {
        assert Handshake(s.thr[k], s.rec[k], s.cli[k]) && StageAt(c, s, k);
        DepartureChild(c, k, s.thr[k], s.box[k].inn, s.rec[k], s.cli[k], s.Read(s.thr[k].offset), s.Read(s.rec[k].offset));
      } else {
        LogsGrow(c, s, a, k);
        if a.Module? { StepShape(s, a.k); }
        DepartureGiven(c, k, s.box[k].inn, s'.box[k].inn, s.cli[k]);
      }
    }
  }

  lemma {:induction false} RunKeepsDeparture(c: Config, s: State, schedule: seq<Actor>)
    requires Inv(c, s) && DepartureInv(c, s) && Legal(c, s, schedule)
    ensures DepartureInv(c, Run(c, s, schedule))
    decreases |schedule|
  {
    if schedule != [] {
      StepKeepsInv(c, s, schedule[0]);
      DepartureKept(c, s, schedule[0]);
      RunKeepsDeparture(c, Step(c, s, schedule[0]), schedule[1..]);
    }
  }

  lemma ReachableDeparture(c: Config, chunks: seq<nat>, s: State)
    requires Reachable(c, chunks, s)
    ensures Inv(c, s) && DepartureInv(c, s)
  {
    var s0: State, schedule: seq<Actor> :|
      Init(s0, chunks) && Legal(c, s0, schedule) && Run(c, s0, schedule) == s;
    InitInv(c, s0, chunks);
    forall k | 0 <= k < s0.Last()
      ensures Departure(c, k, s0.box[k].inn, s0.cli[k])
    {
      assert s0.cli[k].jobs == 0 && s0.cli[k].crx == [];
    }
    RunKeepsInv(c, s0, schedule);
    RunKeepsDeparture(c, s0, schedule);
  }

  /** Some job that the child of stage `k` has done returned -1. */
  predicate HasFailed(c: Config, s: State, k: nat)
    requires s.WellFormed() && k < s.Last()
  {
    exists j :: 0 <= j < s.cli[k].jobs && Fails(c, k, s.box[k].inn, j)
  }

  lemma DepartureMeans(c: Config, s: State, k: nat)
    requires s.WellFormed() && k < s.Last() && Departure(c, k, s.box[k].inn, s.cli[k])
    ensures HasFailed(c, s, k) <==> Fails(c, k, s.box[k].inn, s.cli[k].jobs - 1)
    ensures HasFailed(c, s, k) ==> s.cli[k].exiting && STOP !in s.cli[k].crx
    ensures !HasFailed(c, s, k) ==> (s.cli[k].exiting <==> STOP in s.cli[k].crx)
  {}

  /** Then it was the last one, the child is leaving or has left, and it will never be
      told to stop. */
  lemma FailureIsLast(c: Config, chunks: seq<nat>, s: State, k: nat)
    requires Reachable(c, chunks, s) && k < s.Last()
    ensures HasFailed(c, s, k) <==> Fails(c, k, s.box[k].inn, s.cli[k].jobs - 1)
    ensures HasFailed(c, s, k) ==> s.cli[k].exiting && STOP !in s.cli[k].crx
    ensures !HasFailed(c, s, k) ==> (s.cli[k].exiting <==> STOP in s.cli[k].crx)
  {
    ReachableDeparture(c, chunks, s);
    DepartureMeans(c, s, k);
  }

  /** The child of stage `k` has left and its thread waits for it all the same. */
  predicate Abandoned(s: State, k: nat)
    requires s.WellFormed() && k < |s.thr|
  {
    s.thr[k].pc.JobWait? && s.cli[k].pc.Gone? && s.rec[k].semResult == 0
  }

  lemma StopInJobs(n: nat, stop: bool)
    ensures STOP in Jobs(n) + Opt(stop, STOP) <==> stop
  {
    if stop { assert (Jobs(n) + [STOP])[n] == STOP; }
  }

  /** The child has been told to stop exactly when its thread, about to return or
      returned, has had that answered. */
  lemma StopSeenExactly(t: Thread, r: Record, q: Client)
    requires Handshake(t, r, q)
    ensures STOP in q.crx <==> t.cmd.STOP? && (t.pc.Done? || (t.pc.JobWait? && Answered(r, q)))
  {
    StopInJobs(q.jobs + Bit(q.pc.Act?), t.cmd.STOP? && (t.pc.Done? || (t.pc.JobWait? && Answered(r, q))));
  }

  lemma ReturnMeans(c: Config, s: State, k: nat)
    requires s.WellFormed() && k < s.Last() && Departure(c, k, s.box[k].inn, s.cli[k])
    requires Handshake(s.thr[k], s.rec[k], s.cli[k]) && Role(|s.thr|, k, s.thr[k])
    ensures HasFailed(c, s, k) ==> !s.thr[k].pc.Done?
    ensures Abandoned(s, k) ==> HasFailed(c, s, k)
  {
    DepartureMeans(c, s, k);
    StopSeenExactly(s.thr[k], s.rec[k], s.cli[k]);
  }

  /** No thread returns after its child has failed, and none waits in vain for a child
      that has not. */
  lemma ReturnNeedsAnswers(c: Config, chunks: seq<nat>, s: State, k: nat)
    requires Reachable(c, chunks, s) && k < s.Last()
    ensures HasFailed(c, s, k) ==> !s.thr[k].pc.Done?
    ensures Abandoned(s, k) ==> HasFailed(c, s, k)
  {
    ReachableDeparture(c, chunks, s);
    ReturnMeans(c, s, k);
  }

  lemma {:induction false} RunKeepsAbandoned(c: Config, s: State, schedule: seq<Actor>, k: nat)
    requires s.WellFormed() && Legal(c, s, schedule) && k < s.Last() && Abandoned(s, k)
    ensures Abandoned(Run(c, s, schedule), k)
    decreases |schedule|
  {
    if schedule != [] {
      var a := schedule[0];
      if a.Module? { StepShape(s, a.k); }
      RunKeepsAbandoned(c, Step(c, s, a), schedule[1..], k);
    }
  }

  /** An abandoned thread stays abandoned, whatever anyone does, and the cause is that
      its child's last job returned -1. */
  lemma AbandonedForGood(c: Config, chunks: seq<nat>, s: State, schedule: seq<Actor>, k: nat)
    requires Reachable(c, chunks, s) && Legal(c, s, schedule) && k < s.Last() && Abandoned(s, k)
    ensures Abandoned(Run(c, s, schedule), k)
    ensures Fails(c, k, s.box[k].inn, s.cli[k].jobs - 1)
  {
    RunKeepsAbandoned(c, s, schedule, k);
    ReturnNeedsAnswers(c, chunks, s, k);
    FailureIsLast(c, chunks, s, k);
  }

  lemma {:induction false} FailureStays(c: Config, s: State, schedule: seq<Actor>, k: nat)
    requires s.WellFormed() && Legal(c, s, schedule) && k < s.Last() && HasFailed(c, s, k)
    ensures HasFailed(c, Run(c, s, schedule), k)
    decreases |schedule|
  {
    if schedule != [] {
      var a, s' := schedule[0], Step(c, s, schedule[0]);
      LogsGrow(c, s, a, k);
      var j :| 0 <= j < s.cli[k].jobs && Fails(c, k, s.box[k].inn, j);
      assert j < s'.cli[k].jobs && Fails(c, k, s'.box[k].inn, j);
      FailureStays(c, s', schedule[1..], k);
    }
  }

  /** A single -1, on whatever job, keeps the stage's thread from ever returning: even
      when no chunk follows, the STOP for its child is not answered. */
  lemma FailureIsFatal(c: Config, chunks: seq<nat>, s: State, schedule: seq<Actor>, k: nat)
    requires Reachable(c, chunks, s) && Legal(c, s, schedule) && k < s.Last() && HasFailed(c, s, k)
    ensures !Run(c, s, schedule).thr[k].pc.Done?
  {
    ReachableFurther(c, chunks, s, schedule);
    FailureStays(c, s, schedule, k);
    ReturnNeedsAnswers(c, chunks, Run(c, s, schedule), k);
  }

  /** What happens to the next command, chunk or STOP, once the child has left. */
  lemma NextJobIsAbandoned(c: Config, chunks: seq<nat>, s: State, k: nat)
    requires Reachable(c, chunks, s) && k < s.Last()
    requires s.cli[k].pc.Gone? && s.thr[k].pc.JobPost?
    ensures Abandoned(Step(c, s, Module(k)), k) && HasFailed(c, s, k)
  {
    ReachableInv(c, chunks, s);
    assert Handshake(s.thr[k], s.rec[k], s.cli[k]);
    StepShape(s, k);
    ReachableNext(c, chunks, s, Module(k));
    ReturnNeedsAnswers(c, chunks, Step(c, s, Module(k)), k);
  }

  // ------------------------------------------------------------- a witness

  /** A child whose action returns -1. */
  const FAILING := Config((_, _, d) => (d, -1))

  /** A source and a finalizer with one chunk; the source's thread, mailbox, record and
      child are as given, the finalizer waits. */
  function Two(t: Thread, b: Mailbox, r: Record, q: Client, free: seq<nat>, live: bool, owner: Place): State {
    State([b, Mailbox(0, 1, JOB, 0, [], [], [])],
          [t, Thread(RecvWait, JOB, 0, [])],
          [r, Record(0, 0, JOB, 0, 0)],
          [q, Client(Idle, "", false, 0, [])],
          free, if t.pc.PopLock? then 0 else |free|, map[0 := ""], false, live, map[0 := owner])
  }

  lemma SourceMoves(t: Thread, b: Mailbox, r: Record, q: Client, free: seq<nat>, live: bool, owner: Place)
    requires t.pc.Top? || t.pc.Gate? || t.pc.PopWait? || t.pc.PopLock? || t.pc.JobWrite? || t.pc.JobPost?
    requires t.pc.PopWait? || t.pc.PopLock? ==> free == [0]
    ensures var s := Two(t, b, r, q, free, live, owner);
            && Enabled(s, Module(0))
            && ThreadStep(s, 0) ==
               Two(ThreadNext(2, 0, t, b, r, "", false, live, 0), OwnBox(t, b, ""), OwnRecord(t, r), q,
                   RingNext(t, free), live, if t.pc.PopLock? then Held(0) else owner)
  {
    var s := Two(t, b, r, q, free, live, owner);
    var e := Two(ThreadNext(2, 0, t, b, r, "", false, live, 0), OwnBox(t, b, ""), OwnRecord(t, r), q,
                 RingNext(t, free), live, if t.pc.PopLock? then Held(0) else owner);
    var s' := ThreadStep(s, 0);
    StepShape(s, 0);
    assert s'.thr == e.thr && s'.box == e.box;
    assert s'.rec == e.rec && s'.cli == e.cli;
    assert s'.owner == e.owner && s'.mem == e.mem;
  }

  lemma SourceReaches(t: Thread, b: Mailbox, r: Record, q: Client, free: seq<nat>, live: bool, owner: Place)
    requires t.pc.Top? || t.pc.Gate? || t.pc.PopWait? || t.pc.PopLock? || t.pc.JobWrite? || t.pc.JobPost?
    requires t.pc.PopWait? || t.pc.PopLock? ==> free == [0]
    requires Reachable(FAILING, [0], Two(t, b, r, q, free, live, owner))
    ensures Reachable(FAILING, [0],
                      Two(ThreadNext(2, 0, t, b, r, "", false, live, 0), OwnBox(t, b, ""), OwnRecord(t, r), q,
                          RingNext(t, free), live, if t.pc.PopLock? then Held(0) else owner))
  {
    SourceMoves(t, b, r, q, free, live, owner);
    ReachableNext(FAILING, [0], Two(t, b, r, q, free, live, owner), Module(0));
  }

  lemma ChildReaches(t: Thread, b: Mailbox, r: Record, q: Client, free: seq<nat>, live: bool, owner: Place)
    requires q.pc.Fetch? || q.pc.Act? || (q.pc.Idle? && r.semJob > 0)
    requires r.offset == 0 && q.seen == ""
    requires Reachable(FAILING, [0], Two(t, b, r, q, free, live, owner))
    ensures Reachable(FAILING, [0],
                      Two(t, b, ClientRecord(FAILING, 0, q, r), ClientNext(FAILING, 0, q, r, ""), free, live, owner))
  {
    var s := Two(t, b, r, q, free, live, owner);
    ReachableNext(FAILING, [0], s, Child(0));
    assert s.mem[0 := ""] == s.mem;
    assert Step(FAILING, s, Child(0)) ==
           Two(t, b, ClientRecord(FAILING, 0, q, r), ClientNext(FAILING, 0, q, r, ""), free, live, owner);
  }

  lemma WitnessStarts(t: Thread, b: Mailbox, r: Record, q: Client)
    requires t == Thread(Top, JOB, 0, []) && b == Mailbox(0, 1, JOB, 0, [], [], [])
    requires r == Record(0, 0, JOB, 0, 0) && q == Client(Idle, "", false, 0, [])
    ensures Reachable(FAILING, [0], Two(t, b, r, q, [0], true, Free))
  {
    var s := Two(t, b, r, q, [0], false, Free);
    assert Init(s, [0]) && Legal(FAILING, s, []) && Run(FAILING, s, []) == s;
    ReachableNext(FAILING, [0], s, GoLive);
    assert Step(FAILING, s, GoLive) == Two(t, b, r, q, [0], true, Free);
  }

  /** The source gets as far as the ring. */
  lemma WitnessWaits(t: Thread, b: Mailbox, r: Record, q: Client)
    requires t == Thread(PopWait, JOB, 0, []) && b == Mailbox(0, 1, JOB, 0, [], [], [])
    requires r == Record(0, 0, JOB, 0, 0) && q == Client(Idle, "", false, 0, [])
    ensures Reachable(FAILING, [0], Two(t, b, r, q, [0], true, Free))
  {
    WitnessStarts(t.(pc := Top), b, r, q);
    SourceReaches(t.(pc := Top), b, r, q, [0], true, Free);
    SourceReaches(t.(pc := Gate), b, r, q, [0], true, Free);
  }

  /** It takes the chunk. */
  lemma WitnessTakes(t: Thread, b: Mailbox, r: Record, q: Client)
    requires t == Thread(JobWrite, JOB, 0, []) && b == Mailbox(0, 1, JOB, 0, [], [], [""])
    requires r == Record(0, 0, JOB, 0, 0) && q == Client(Idle, "", false, 0, [])
    ensures Reachable(FAILING, [0], Two(t, b, r, q, [], true, Held(0)))
  {
    var b0 := b.(inn := []);
    WitnessWaits(t.(pc := PopWait), b0, r, q);
    SourceReaches(t.(pc := PopWait), b0, r, q, [0], true, Free);
    var t0 := t.(pc := PopLock);
    SourceReaches(t0, b0, r, q, [0], true, Free);
    assert ThreadNext(2, 0, t0, b0, r, "", false, true, 0) == t;
    assert OwnBox(t0, b0, "") == b && RingNext(t0, [0]) == [];
  }

  /** It gives the chunk to its child. */
  lemma WitnessAsks(t: Thread, b: Mailbox, r: Record, q: Client)
    requires t == Thread(JobWait, JOB, 0, []) && b == Mailbox(0, 1, JOB, 0, [], [], [""])
    requires r == Record(1, 0, JOB, 0, 0) && q == Client(Idle, "", false, 0, [])
    ensures Reachable(FAILING, [0], Two(t, b, r, q, [], true, Held(0)))
  {
    var r0 := r.(semJob := 0);
    WitnessTakes(t.(pc := JobWrite), b, r0, q);
    SourceReaches(t.(pc := JobWrite), b, r0, q, [], true, Held(0));
    SourceReaches(t.(pc := JobPost), b, r0, q, [], true, Held(0));
  }

  /** The child takes the command. */
  lemma WitnessFetches(t: Thread, b: Mailbox, r: Record, q: Client)
    requires t == Thread(JobWait, JOB, 0, []) && b == Mailbox(0, 1, JOB, 0, [], [], [""])
    requires r == Record(0, 0, JOB, 0, 0) && q == Client(Fetch, "", false, 0, [])
    ensures Reachable(FAILING, [0], Two(t, b, r, q, [], true, Held(0)))
  {
    var r0, q0 := r.(semJob := 1), q.(pc := Idle);
    WitnessAsks(t, b, r0, q0);
    ChildReaches(t, b, r0, q0, [], true, Held(0));
    assert ClientNext(FAILING, 0, q0, r0, "") == q && ClientRecord(FAILING, 0, q0, r0) == r;
  }

  /** It fails. */
  lemma WitnessFails(t: Thread, b: Mailbox, r: Record, q: Client)
    requires t == Thread(JobWait, JOB, 0, []) && b == Mailbox(0, 1, JOB, 0, [], [], [""])
    requires r == Record(0, 0, JOB, 0, 0) && q == Client(Reply, "", true, 1, [JOB])
    ensures Reachable(FAILING, [0], Two(t, b, r, q, [], true, Held(0)))
  {
    var q0, q1 := Client(Fetch, "", false, 0, []), Client(Act, "", false, 0, [JOB]);
    WitnessFetches(t, b, r, q0);
    ChildReaches(t, b, r, q0, [], true, Held(0));
    assert ClientNext(FAILING, 0, q0, r, "") == q1 && ClientRecord(FAILING, 0, q0, r) == r;
    ChildReaches(t, b, r, q1, [], true, Held(0));
    assert ClientNext(FAILING, 0, q1, r, "") == q;
  }

  lemma WitnessHasFailed(t: Thread, b: Mailbox, r: Record, q: Client)
    requires b.inn == [""] && q.jobs == 1
    ensures HasFailed(FAILING, Two(t, b, r, q, [], true, Held(0)), 0)
  {
    var s := Two(t, b, r, q, [], true, Held(0));
    assert s.cli[0] == q && s.box[0] == b;
    assert Fails(FAILING, 0, s.box[0].inn, 0);
  }

  /** Two modules, one chunk and an action that returns -1: a job fails. */
  lemma FailureReached() returns (s: State)
    ensures Reachable(FAILING, [0], s) && |s.thr| == 2 && !s.exit && HasFailed(FAILING, s, 0)
  {
    var t, b := Thread(JobWait, JOB, 0, []), Mailbox(0, 1, JOB, 0, [], [], [""]);
    var r, q := Record(0, 0, JOB, 0, 0), Client(Reply, "", true, 1, [JOB]);
    s := Two(t, b, r, q, [], true, Held(0));
    WitnessHasFailed(t, b, r, q);
    WitnessFails(t, b, r, q);
  }
}

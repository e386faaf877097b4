/** What holds in every state a pipeline can reach. */
module PipelineTheorems {
  import opened Arithmetic
  import opened Sequences
  import opened PipelineModel
  import opened PipelineInvariant
  import opened PipelineOwnership
  import opened PipelineSafety

  /** `s` is reached from a freshly started pipeline whose ring holds `chunks`. */
  ghost predicate Reachable(c: Config, chunks: seq<nat>, s: State) {
    exists s0: State, schedule: seq<Actor> ::
      Init(s0, chunks) && Legal(c, s0, schedule) && Run(c, s0, schedule) == s
  }

  lemma ReachableInv(c: Config, chunks: seq<nat>, s: State)
    requires Reachable(c, chunks, s)
    ensures Inv(c, s) && s.owner.Keys == Elements(chunks)
  {
    var s0: State, schedule: seq<Actor> :|
      Init(s0, chunks) && Legal(c, s0, schedule) && Run(c, s0, schedule) == s;
    InitInv(c, s0, chunks);
    RunKeepsInv(c, s0, schedule);
  }

  lemma {:induction false} LegalConcat(c: Config, s: State, a: seq<Actor>, b: seq<Actor>)
    requires s.WellFormed() && Legal(c, s, a) && Legal(c, Run(c, s, a), b)
    ensures Legal(c, s, a + b) && Run(c, s, a + b) == Run(c, Run(c, s, a), b)
    decreases |a|
  {
    if a == [] {
      assert a + b == b;
    } else {
      assert (a + b)[1..] == a[1..] + b;
      LegalConcat(c, Step(c, s, a[0]), a[1..], b);
    }
  }

  /** What a reachable state leads to is reachable. */
  lemma ReachableFurther(c: Config, chunks: seq<nat>, s: State, schedule: seq<Actor>)
    requires Reachable(c, chunks, s) && Legal(c, s, schedule)
    ensures Reachable(c, chunks, Run(c, s, schedule))
  {
    var s0: State, first: seq<Actor> :|
      Init(s0, chunks) && Legal(c, s0, first) && Run(c, s0, first) == s;
    LegalConcat(c, s0, first, schedule);
  }

  lemma ReachableNext(c: Config, chunks: seq<nat>, s: State, a: Actor)
    requires Reachable(c, chunks, s) && Enabled(s, a)
    ensures Reachable(c, chunks, Step(c, s, a))
  {
    assert Run(c, Step(c, s, a), [a][1..]) == Step(c, s, a);
    ReachableFurther(c, chunks, s, [a]);
  }

  // ------------------------------------------------------------- delivery

  /** A stage judges chunks one by one, so more input only adds to its output. */
  lemma {:induction false} AcceptedPrefix(c: Config, k: nat, a: seq<Data>, b: seq<Data>)
    requires a <= b
    ensures Accepted(c, k, a) <= Accepted(c, k, b)
    decreases |b|
  {
    if a != b {
      assert a <= b[..|b| - 1];
      AcceptedPrefix(c, k, a, b[..|b| - 1]);
    }
  }

  /** Stage `k` has been given a prefix of what the reference chain gives it. */
  lemma {:induction false} GivenPrefix(c: Config, s: State, k: nat)
    requires Inv(c, s) && 1 <= k < |s.thr|
    ensures s.box[k].inn <= Through(c, k, s.thr[0].acc)
  {
    assert FlowAt(s, k);
    if k > 1 {
      GivenPrefix(c, s, k - 1);
      assert StageAt(c, s, k - 1);
      var inn := s.box[k - 1].inn;
      var judged := if Undecided(s.thr[k - 1]) then inn[..|inn| - 1] else inn;
      assert s.thr[k - 1].acc == Accepted(c, k - 1, judged);
      AcceptedPrefix(c, k - 1, judged, Through(c, k - 1, s.thr[0].acc));
    }
  }

  /** The chunks the finalizer receives are a prefix of the chunks the source
      captured, transformed and filtered in order by every stage between. */
  lemma DeliveredPrefix(c: Config, chunks: seq<nat>, s: State)
    requires Reachable(c, chunks, s)
    ensures s.box[s.Last()].inn <= Through(c, s.Last(), s.thr[0].acc)
  {
    ReachableInv(c, chunks, s);
    GivenPrefix(c, s, s.Last());
  }

  /** The thread has nothing to do and nothing is waiting for it. */
  predicate Drained(s: State, k: nat)
    requires s.WellFormed() && k < |s.thr|
  {
    s.thr[k].pc.Done? || (s.thr[k].pc.RecvWait? && s.box[k].newCmd == 0)
  }

  /** Drained stages have given everything they were given to the next. */
  lemma {:induction false} GivenAll(c: Config, s: State, k: nat)
    requires Inv(c, s) && 1 <= k < |s.thr| && forall j :: 1 <= j < |s.thr| ==> Drained(s, j)
    ensures s.box[k].inn == Through(c, k, s.box[1].inn)
  {
    if k > 1 {
      GivenAll(c, s, k - 1);
      assert FlowAt(s, k) && StageAt(c, s, k - 1);
      assert Link(s.thr[k - 1], s.box[k], s.thr[k]);
      assert Drained(s, k) && Drained(s, k - 1);
      assert Role(|s.thr|, k, s.thr[k]) && Role(|s.thr|, k - 1, s.thr[k - 1]);
    }
  }

  /** The source has given all it captured, but for the chunk it is forwarding. */
  lemma GivenBySource(c: Config, s: State)
    requires Inv(c, s) && Drained(s, 1)
    ensures s.thr[0].acc == s.box[1].inn + Opt(Forwarding(s.thr[0]), s.Read(s.thr[0].offset))
  {
    assert FlowAt(s, 1) && Link(s.thr[0], s.box[1], s.thr[1]) && Role(|s.thr|, 1, s.thr[1]);
  }

  /** Once every thread has returned nothing is missing. */
  lemma DeliveredAll(c: Config, chunks: seq<nat>, s: State)
    requires Reachable(c, chunks, s) && AllReturned(s)
    ensures s.box[s.Last()].inn == Through(c, s.Last(), s.thr[0].acc)
  {
    ReachableInv(c, chunks, s);
    assert s.thr[0].pc.Done? && s.thr[1].pc.Done?;
    GivenAll(c, s, s.Last());
    GivenBySource(c, s);
    assert s.box[1].inn + [] == s.box[1].inn;
  }

  /** When the child of stage `k` is about to read its chunk, and while it works on
      what it read, the contents are what the source captured as transformed by the
      stages before `k`, whatever the other threads and children are doing. */
  lemma ChildReadsItsChunk(c: Config, chunks: seq<nat>, s: State, k: nat)
    requires Reachable(c, chunks, s) && 1 <= k < s.Last()
    ensures s.cli[k].pc.Fetch? && s.rec[k].cmd.JOB? ==>
              s.cli[k].jobs < |Through(c, k, s.thr[0].acc)| &&
              s.Read(s.rec[k].offset) == Through(c, k, s.thr[0].acc)[s.cli[k].jobs]
    ensures s.cli[k].pc.Act? ==>
              s.cli[k].jobs < |Through(c, k, s.thr[0].acc)| &&
              s.cli[k].seen == s.Read(s.rec[k].offset) == Through(c, k, s.thr[0].acc)[s.cli[k].jobs]
  {
    ReachableInv(c, chunks, s);
    assert Handshake(s.thr[k], s.rec[k], s.cli[k]);
    assert StageAt(c, s, k);
    GivenPrefix(c, s, k);
  }

  // -------------------------------------------------------- communication

  /** The two semaphores of a mailbox and the two sides inside it share one token. */
  lemma MailboxToken(c: Config, chunks: seq<nat>, s: State, k: nat)
    requires Reachable(c, chunks, s) && 1 <= k < |s.thr|
    ensures s.box[k].newCmd + s.box[k].result + Bit(Sending(s.thr[k - 1])) + Bit(Receiving(s.thr[k])) == 1
  {
    ReachableInv(c, chunks, s);
    assert Link(s.thr[k - 1], s.box[k], s.thr[k]);
  }

  /** So do the two semaphores of a child with the child and its waiting thread. */
  lemma ChildToken(c: Config, chunks: seq<nat>, s: State, k: nat)
    requires Reachable(c, chunks, s) && k < s.Last()
    ensures s.rec[k].semJob + s.rec[k].semResult
            + Bit(s.cli[k].pc.Fetch? || s.cli[k].pc.Act? || s.cli[k].pc.Reply?)
            + Bit(!s.thr[k].pc.JobWait?) == 1
  {
    ReachableInv(c, chunks, s);
    assert Handshake(s.thr[k], s.rec[k], s.cli[k]);
  }

  /** Every command written into a mailbox is read once, in order, and the next one
      is written only when it has been read. */
  lemma NothingOverwritten(c: Config, chunks: seq<nat>, s: State, k: nat)
    requires Reachable(c, chunks, s) && 1 <= k < |s.thr|
    ensures s.box[k].rx <= s.box[k].tx && |s.box[k].tx| <= |s.box[k].rx| + 1
    ensures s.thr[k - 1].pc.SendWrite? ==> s.box[k].tx == s.box[k].rx
    ensures s.thr[k].pc.RecvRead? ==> s.box[k].tx == s.box[k].rx + [s.box[k].cmd]
  {
    ReachableInv(c, chunks, s);
    assert Link(s.thr[k - 1], s.box[k], s.thr[k]);
  }

  /** No step takes anything back out of a log. */
  lemma LogsGrow(c: Config, s: State, a: Actor, k: nat)
    requires s.WellFormed() && Enabled(s, a) && k < |s.thr|
    ensures var s' := Step(c, s, a);
            && s.box[k].tx <= s'.box[k].tx && s.box[k].rx <= s'.box[k].rx && s.box[k].inn <= s'.box[k].inn
            && s.thr[k].acc <= s'.thr[k].acc && s.cli[k].crx <= s'.cli[k].crx
  {
    if a.Module? { StepShape(s, a.k); }
  }

  predicate StopsLast(log: seq<Cmd>) {
    forall i :: 0 <= i < |log| && log[i].STOP? ==> i == |log| - 1
  }

  /** STOP is the last command any module or child is ever given: the logs only
      grow, and in every reachable state nothing follows a STOP in them. */
  lemma StopIsLast(c: Config, chunks: seq<nat>, s: State, k: nat)
    requires Reachable(c, chunks, s) && k < |s.thr|
    ensures k >= 1 ==> StopsLast(s.box[k].rx) && StopsLast(s.box[k].tx)
    ensures k < s.Last() ==> StopsLast(s.cli[k].crx)
  {
    ReachableInv(c, chunks, s);
    if k >= 1 {
      assert Link(s.thr[k - 1], s.box[k], s.thr[k]);
    }
    if k < s.Last() {
      assert Handshake(s.thr[k], s.rec[k], s.cli[k]);
    }
  }

  /** A child is told to stop only after it has finished one job for every chunk
      its thread was given, and nobody gives the thread another one. */
  lemma ChildStopsAfterLastJob(c: Config, chunks: seq<nat>, s: State, k: nat)
    requires Reachable(c, chunks, s) && k < s.Last()
    requires s.cli[k].pc.Fetch? && s.rec[k].cmd.STOP?
    ensures s.cli[k].jobs == |s.box[k].inn| && s.cli[k].crx == Jobs(|s.box[k].inn|)
    ensures k >= 1 ==> s.box[k].tx == s.box[k].rx == Jobs(|s.box[k].inn|) + [STOP]
  {
    ReachableInv(c, chunks, s);
    assert Handshake(s.thr[k], s.rec[k], s.cli[k]);
    assert StageAt(c, s, k);
    if k >= 1 { assert Link(s.thr[k - 1], s.box[k], s.thr[k]); }
  }

  /** When all threads have returned, each module has received its JOBs and then one
      STOP, and so has each child. */
  lemma EveryoneGotOneStop(c: Config, chunks: seq<nat>, s: State, k: nat)
    requires Reachable(c, chunks, s) && AllReturned(s) && k < |s.thr|
    ensures k >= 1 ==> s.box[k].tx == s.box[k].rx == Jobs(|s.box[k].inn|) + [STOP]
    ensures k < s.Last() ==> s.cli[k].crx == Jobs(|s.box[k].inn|) + [STOP]
  {
    ReachableInv(c, chunks, s);
    assert Role(|s.thr|, k, s.thr[k]);
    if k >= 1 {
      assert Link(s.thr[k - 1], s.box[k], s.thr[k]);
      assert Role(|s.thr|, k - 1, s.thr[k - 1]);
    }
    if k < s.Last() {
      assert Handshake(s.thr[k], s.rec[k], s.cli[k]);
      assert StageAt(c, s, k);
    }
  }

  // --------------------------------------------------------- conservation

  datatype Spot = InRing(i: nat) | InHand(k: nat) | InBox(k: nat)

  /** Chunk `o` is at this position. */
  predicate AtSpot(s: State, o: nat, p: Spot)
    requires s.WellFormed()
  {
    match p
    case InRing(i) => i < |s.free| && s.free[i] == o
    case InHand(k) => k < |s.thr| && Holds(s.thr[k]) && s.thr[k].offset == o
    case InBox(k) => 1 <= k < |s.thr| && InMail(s.box[k], s.thr[k]) && s.box[k].dataoffset == o
  }

  function PlaceOf(p: Spot): Place {
    match p
    case InRing(_) => Free
    case InHand(k) => Held(k)
    case InBox(k) => Mail(k)
  }

  lemma SpotIsPlace(s: State, o: nat, p: Spot)
    requires s.WellFormed() && OwnerInv(s) && AtSpot(s, o, p)
    ensures Owned(s, o, PlaceOf(p))
  {
    assert Located(s, o, PlaceOf(p));
  }

  /** At every step each chunk is at exactly one position: one cell of the ring, one
      thread's hands or one full mailbox; and nothing else is at any position. */
  lemma ChunkConservation(c: Config, chunks: seq<nat>, s: State, o: nat)
    requires Reachable(c, chunks, s)
    ensures o in chunks <==> exists p :: AtSpot(s, o, p)
    ensures forall p, q :: AtSpot(s, o, p) && AtSpot(s, o, q) ==> p == q
  {
    ReachableInv(c, chunks, s);
    forall p, q | AtSpot(s, o, p) && AtSpot(s, o, q)
      ensures p == q && o in s.owner
    {
      SpotIsPlace(s, o, p);
      SpotIsPlace(s, o, q);
    }
    if o in chunks {
      assert Owned(s, o, s.owner[o]);
      assert Located(s, o, s.owner[o]);
      match s.owner[o]
      case Free =>
        var i :| 0 <= i < |s.free| && s.free[i] == o;
        assert AtSpot(s, o, InRing(i));
      case Held(k) => assert AtSpot(s, o, InHand(k));
      case Mail(k) => assert AtSpot(s, o, InBox(k));
    }
    if p :| AtSpot(s, o, p) {
      assert AtSpot(s, o, p) && AtSpot(s, o, p);
      SpotIsPlace(s, o, p);
    }
  }

  /** A chunk about to be pushed is the one the ring has room for. */
  lemma RoomToPush(c: Config, s: State, k: nat)
    requires Inv(c, s) && k < |s.thr| && s.thr[k].pc.PushLock?
    ensures |s.free| < |s.owner.Keys|
  {
    assert Role(|s.thr|, k, s.thr[k]);
    var o := s.thr[k].offset;
    HeldIsOwned(s, k);
    forall i | 0 <= i < |s.free|
      ensures s.free[i] in s.owner.Keys - {o}
    {
      assert Located(s, s.free[i], Free);
      assert Owned(s, s.free[i], Free);
    }
    DistinctFits(s.free, s.owner.Keys - {o});
  }

  /** `ring_buffer_push` has no overflow check and needs none here: whenever a thread
      is about to push, the ring holds fewer chunks than it has room for. */
  lemma PushFindsRoom(c: Config, chunks: seq<nat>, s: State, k: nat)
    requires Reachable(c, chunks, s) && k < |s.thr| && s.thr[k].pc.PushLock?
    ensures |s.free| < |chunks|
  {
    ReachableInv(c, chunks, s);
    RoomToPush(c, s, k);
    ChunksDistinct(c, chunks, s);
    SetOfDistinct(chunks);
  }

  /** The chunks of a reachable pipeline are distinct. */
  lemma ChunksDistinct(c: Config, chunks: seq<nat>, s: State)
    requires Reachable(c, chunks, s)
    ensures Distinct(chunks)
  {}

  /** The counting semaphore is exact: what it shows plus the pop and the pushes in
      progress is what the ring holds, and a pop past it finds a chunk. */
  lemma RingSemaphore(c: Config, chunks: seq<nat>, s: State)
    requires Reachable(c, chunks, s)
    ensures s.sem + Bit(s.thr[0].pc.PopLock?) + Posting(s.thr) == |s.free|
    ensures s.thr[0].pc.PopLock? ==> s.free != []
  {
    ReachableInv(c, chunks, s);
  }
}

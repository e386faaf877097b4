/** What the pipeline's single decisions come to in every reachable state: which chunks are
    dropped, when the first chunk may be captured and the first STOP sent, and what is in
    a chunk that goes back to the ring. */
module PipelineDecisions {
  import opened Sequences
  import opened PipelineModel
  import opened PipelineInvariant
  import opened PipelineOwnership
  import opened PipelineSafety
  import opened PipelineTheorems
  import opened PipelineDeparture

  // --------------------------------------------------------------- verdicts

  /** The source passes on every chunk, any other stage those whose job's status is 0 or
      the -1 of a child that leaves. */
  lemma AcceptedMore(c: Config, k: nat, inn: seq<Data>, d: Data)
    ensures var (d', status) := c.act(k, |inn|, d);
            Accepted(c, k, inn + [d]) == Accepted(c, k, inn) + (if k == 0 || status == 0 || status == -1 then [d'] else [])
  {
    assert (inn + [d])[..|inn|] == inn;
  }

  /** A process thread about to judge a chunk drops it if and only if its child's last job
      returned neither 0 nor -1; otherwise it sends it on. */
  lemma DroppedExactly(c: Config, chunks: seq<nat>, s: State, k: nat)
    requires Reachable(c, chunks, s) && k < |s.thr| && s.thr[k].pc.Verdict?
    ensures 0 <= s.cli[k].jobs - 1 < |s.box[k].inn|
    ensures var j := s.cli[k].jobs - 1;
            var status, next := c.act(k, j, s.box[k].inn[j]).1, Step(c, s, Module(k)).thr[k];
            && (next.pc.PushLock? <==> status != 0 && status != -1)
            && (next.pc.SendWait? && next.cmd.JOB? <==> status == 0 || status == -1)
  {
    ReachableInv(c, chunks, s);
    assert Role(|s.thr|, k, s.thr[k]);
    assert StageAt(c, s, k);
    StepShape(s, k);
  }

  /** A child reports the status of its action, but 0 when it leaves on -1 or on a STOP. */
  lemma ReportedExactly(c: Config, s: State, k: nat)
    requires s.WellFormed() && ClientEnabled(s, k)
    ensures var q, r, r' := s.cli[k], s.rec[k], ClientStep(c, s, k).rec[k];
            var status := c.act(k, q.jobs, q.seen).1;
            && (q.pc.Act? ==> r'.result == if status == -1 then 0 else status)
            && (q.pc.Fetch? && r.cmd.STOP? ==> r'.result == 0)
            && (!q.pc.Act? && !(q.pc.Fetch? && r.cmd.STOP?) ==> r'.result == r.result)
  {}

  /** A STOP is passed on without a chunk: the last one stays named in the record and in
      the next mailbox. */
  lemma StopNamesNoChunk(s: State, k: nat)
    requires s.WellFormed() && ThreadEnabled(s, k) && s.thr[k].cmd.STOP?
    ensures forall j :: 0 <= j < |s.thr| ==>
              && ThreadStep(s, k).rec[j].offset == s.rec[j].offset
              && ThreadStep(s, k).box[j].dataoffset == s.box[j].dataoffset
  {
    StepShape(s, k);
  }

  // ------------------------------------------- before LIVE, before exit_flag

  /** Until the pipeline is live every chunk is in the ring, and until `exit_flag` is
      raised the source has no STOP to send. */
  predicate Early(chunks: seq<nat>, s: State)
    requires s.WellFormed()
  {
    && (!s.live ==> s.free == chunks && s.box[0].inn == [] && !s.thr[0].pc.PopWait? && !s.thr[0].pc.PopLock?)
    && (!s.exit ==> s.thr[0].cmd.JOB?)
  }

  lemma FreeIsNotElsewhere(s: State, o: nat, p: Place)
    requires s.WellFormed() && OwnerInv(s) && o in s.free && p != Free
    ensures !Owned(s, o, p)
  {
    assert Located(s, o, Free);
    assert Owned(s, o, Free);
  }

  /** While all chunks are in the ring nobody else has one. */
  lemma NobodyHolds(c: Config, s: State, k: nat)
    requires Inv(c, s) && k < |s.thr| && forall o :: o in s.owner ==> o in s.free
    ensures !Holds(s.thr[k]) && (k >= 1 ==> !InMail(s.box[k], s.thr[k]))
  {
    if Holds(s.thr[k]) {
      HeldIsOwned(s, k);
      FreeIsNotElsewhere(s, s.thr[k].offset, Held(k));
    }
    if k >= 1 && InMail(s.box[k], s.thr[k]) {
      MailIsOwned(s, k);
      FreeIsNotElsewhere(s, s.box[k].dataoffset, Mail(k));
    }
  }

  lemma EarlyKept(c: Config, chunks: seq<nat>, s: State, a: Actor)
    requires Inv(c, s) && s.owner.Keys == Elements(chunks) && Early(chunks, s) && Enabled(s, a)
    ensures Early(chunks, Step(c, s, a))
  {
    match a
    case Module(k) =>
      StepShape(s, k);
      assert Role(|s.thr|, k, s.thr[k]);
      if !s.live { NobodyHolds(c, s, k); }
    case _ =>
  }

  lemma {:induction false} RunKeepsEarly(c: Config, chunks: seq<nat>, s: State, schedule: seq<Actor>)
    requires Inv(c, s) && s.owner.Keys == Elements(chunks) && Early(chunks, s) && Legal(c, s, schedule)
    ensures Early(chunks, Run(c, s, schedule))
    decreases |schedule|
  {
    if schedule != [] {
      StepKeepsInv(c, s, schedule[0]);
      EarlyKept(c, chunks, s, schedule[0]);
      RunKeepsEarly(c, chunks, Step(c, s, schedule[0]), schedule[1..]);
    }
  }

  lemma ReachableEarly(c: Config, chunks: seq<nat>, s: State)
    requires Reachable(c, chunks, s)
    ensures Inv(c, s) && s.owner.Keys == Elements(chunks) && Early(chunks, s)
  {
    var s0: State, schedule: seq<Actor> :|
      Init(s0, chunks) && Legal(c, s0, schedule) && Run(c, s0, schedule) == s;
    InitInv(c, s0, chunks);
    RunKeepsInv(c, s0, schedule);
    RunKeepsEarly(c, chunks, s0, schedule);
  }

  lemma {:induction false} NothingGiven(c: Config, s: State, k: nat)
    requires Inv(c, s) && k < |s.thr| && s.box[0].inn == [] && forall o :: o in s.owner ==> o in s.free
    ensures s.box[k].inn == []
    ensures k < s.Last() ==> s.thr[k].acc == [] && s.cli[k].jobs == 0
  {
    if k > 0 {
      NothingGiven(c, s, k - 1);
      assert FlowAt(s, k);
    }
    NobodyHolds(c, s, k);
    if k < s.Last() { assert StageAt(c, s, k); }
  }

  /** Before the switch to LIVE nothing is captured: every chunk is in the ring, in its
      place, no stage has been given or has passed on anything, and no child has worked. */
  lemma NothingBeforeLive(c: Config, chunks: seq<nat>, s: State, k: nat)
    requires Reachable(c, chunks, s) && !s.live && k < |s.thr|
    ensures s.free == chunks && s.box[k].inn == []
    ensures k < s.Last() ==> s.thr[k].acc == [] && s.cli[k].jobs == 0
  {
    ReachableEarly(c, chunks, s);
    forall o | o in s.owner
      ensures o in s.free
    {
      assert o in s.owner.Keys;
    }
    NothingGiven(c, s, k);
  }

  lemma {:induction false} NoStopYet(s: State, k: nat)
    requires s.WellFormed() && RoleInv(s) && LinkInv(s) && k < |s.thr| && s.thr[0].cmd.JOB?
    ensures s.thr[k].cmd.JOB?
  {
    if k > 0 {
      NoStopYet(s, k - 1);
      assert Link(s.thr[k - 1], s.box[k], s.thr[k]);
    }
  }

  lemma NoStopInMail(t: Thread, b: Mailbox, t': Thread)
    requires Link(t, b, t') && t.cmd.JOB? && t'.cmd.JOB?
    ensures STOP !in b.tx && STOP !in b.rx
  {
    assert b.rx == Jobs(|b.inn|);
  }

  /** Before `exit_flag` is raised no STOP has been written, read or passed to a child, and
      no thread has returned. */
  lemma NoStopBeforeExit(c: Config, chunks: seq<nat>, s: State, k: nat)
    requires Reachable(c, chunks, s) && !s.exit && k < |s.thr|
    ensures !s.thr[k].pc.Done?
    ensures k >= 1 ==> STOP !in s.box[k].tx && STOP !in s.box[k].rx
    ensures k < s.Last() ==> STOP !in s.cli[k].crx
  {
    ReachableEarly(c, chunks, s);
    NoStopYet(s, k);
    assert Role(|s.thr|, k, s.thr[k]);
    if k >= 1 {
      NoStopYet(s, k - 1);
      NoStopInMail(s.thr[k - 1], s.box[k], s.thr[k]);
    }
    if k < s.Last() { StopSeenExactly(s.thr[k], s.rec[k], s.cli[k]); }
  }

  // --------------------------------------------------------- cleared chunks

  /** `after` is `before` with its first character, if any, replaced by a terminator. */
  predicate CutShort(before: Data, after: Data) {
    if before == "" then after == ""
    else |after| == |before| && after[0] == '\0' && after[1..] == before[1..]
  }

  /** What the finalizer holds is what it was given, and after the clearing that text cut
      short. */
  predicate FinalizerOk(s: State)
    requires s.WellFormed()
  {
    var t, inn := s.thr[s.Last()], s.box[s.Last()].inn;
    && (t.cmd.JOB? && (t.pc.RecvPost? || t.pc.Clear?) ==> inn != [] && s.Read(t.offset) == inn[|inn| - 1])
    && (t.pc.PushLock? ==> inn != [] && CutShort(inn[|inn| - 1], s.Read(t.offset)))
  }

  lemma FinalizerKeptOwn(c: Config, s: State)
    requires Inv(c, s) && FinalizerOk(s) && ThreadEnabled(s, s.Last())
    ensures FinalizerOk(ThreadStep(s, s.Last()))
  {
    assert Role(|s.thr|, s.Last(), s.thr[s.Last()]);
    StepShape(s, s.Last());
  }

  lemma FinalizerKeptOther(c: Config, s: State, a: Actor)
    requires Inv(c, s) && FinalizerOk(s) && Enabled(s, a) && a != Module(s.Last())
    ensures FinalizerOk(Step(c, s, a))
  {
    var n, t, s' := s.Last(), s.thr[s.Last()], Step(c, s, a);
    assert Role(|s.thr|, n, t);
    if a.Module? { StepShape(s, a.k); }
    assert s'.thr[n] == t && s'.box[n].inn == s.box[n].inn;
    if Holds(t) {
      HeldIsOwned(s, n);
      if a.Module? { ReadStaysThread(s, a.k, t.offset, Held(n)); }
      if a.Child? { ReadStaysChild(c, s, a.k, t.offset, Held(n)); }
      assert s'.Read(t.offset) == s.Read(t.offset);
    }
  }

  lemma {:induction false} RunKeepsFinalizer(c: Config, s: State, schedule: seq<Actor>)
    requires Inv(c, s) && FinalizerOk(s) && Legal(c, s, schedule)
    ensures FinalizerOk(Run(c, s, schedule))
    decreases |schedule|
  {
    if schedule != [] {
      StepKeepsInv(c, s, schedule[0]);
      if schedule[0] == Module(s.Last()) { FinalizerKeptOwn(c, s); } else { FinalizerKeptOther(c, s, schedule[0]); }
      RunKeepsFinalizer(c, Step(c, s, schedule[0]), schedule[1..]);
    }
  }

  /** The chunk the finalizer is about to push is the last one it was given, with a
      terminator for its first character and the same rest, or empty if it was. */
  lemma PushedIsCutShort(c: Config, chunks: seq<nat>, s: State)
    requires Reachable(c, chunks, s) && s.thr[s.Last()].pc.PushLock?
    ensures var inn, now := s.box[s.Last()].inn, s.Read(s.thr[s.Last()].offset);
            && inn != []
            && var given := inn[|inn| - 1];
               if given == "" then now == "" else |now| == |given| && now[0] == '\0' && now[1..] == given[1..]
  {
    var s0: State, schedule: seq<Actor> :|
      Init(s0, chunks) && Legal(c, s0, schedule) && Run(c, s0, schedule) == s;
    InitInv(c, s0, chunks);
    RunKeepsFinalizer(c, s0, schedule);
  }

  /** Nobody writes into a chunk that is in the ring. */
  lemma FreeUntouched(c: Config, s: State, a: Actor, o: nat)
    requires Inv(c, s) && Enabled(s, a) && o in s.free
    ensures Step(c, s, a).Read(o) == s.Read(o)
  {
    assert Located(s, o, Free);
    assert Owned(s, o, Free);
    if a.Module? { ReadStaysThread(s, a.k, o, Free); }
    if a.Child? { ReadStaysChild(c, s, a.k, o, Free); }
  }

  /** Chunk `o` is in the ring all along a run. */
  predicate StaysFree(c: Config, s: State, schedule: seq<Actor>, o: nat)
    requires s.WellFormed() && Legal(c, s, schedule)
    decreases |schedule|
  {
    o in s.free && (schedule != [] ==> StaysFree(c, Step(c, s, schedule[0]), schedule[1..], o))
  }

  lemma {:induction false} RunLeavesFree(c: Config, s: State, schedule: seq<Actor>, o: nat)
    requires Inv(c, s) && Legal(c, s, schedule) && StaysFree(c, s, schedule, o)
    ensures Run(c, s, schedule).Read(o) == s.Read(o) && o in Run(c, s, schedule).free
    decreases |schedule|
  {
    if schedule != [] {
      StepKeepsInv(c, s, schedule[0]);
      FreeUntouched(c, s, schedule[0], o);
      RunLeavesFree(c, Step(c, s, schedule[0]), schedule[1..], o);
    }
  }

  /** A chunk that the finalizer has pushed reads as an empty text for as long as it stays
      in the ring. */
  lemma RingHoldsEmptyTexts(c: Config, chunks: seq<nat>, s: State, schedule: seq<Actor>)
    requires Reachable(c, chunks, s) && s.thr[s.Last()].pc.PushLock? && Enabled(s, Module(s.Last()))
    requires Legal(c, Step(c, s, Module(s.Last())), schedule)
    requires StaysFree(c, Step(c, s, Module(s.Last())), schedule, s.thr[s.Last()].offset)
    ensures var text := Run(c, Step(c, s, Module(s.Last())), schedule).Read(s.thr[s.Last()].offset);
            text == "" || text[0] == '\0'
  {
    var o := s.thr[s.Last()].offset;
    PushedIsCutShort(c, chunks, s);
    ReachableInv(c, chunks, s);
    StepKeepsInv(c, s, Module(s.Last()));
    RunLeavesFree(c, Step(c, s, Module(s.Last())), schedule, o);
  }
}

/** What every step of every thread and child keeps, for any number of stages. */
module PipelineInvariant {
  import opened Arithmetic
  import opened Sequences
  import opened PipelineModel

  function Opt<T>(b: bool, x: T): seq<T> { if b then [x] else [] }

  function Jobs(n: nat): seq<Cmd> { seq(n, _ => JOB) }

  // ---------------------------------------------------------- vocabulary

  /** Inside the next module's mailbox, filling it in. */
  predicate Sending(t: Thread) { t.pc.SendWrite? || t.pc.SendPost? }

  /** Inside its own mailbox, taking the command over. */
  predicate Receiving(t: Thread) { t.pc.RecvRead? || t.pc.RecvPost? }

  /** A posted command the module of this mailbox has not read yet. */
  predicate Full(b: Mailbox, t: Thread) { b.newCmd > 0 || t.pc.RecvRead? }

  predicate InMail(b: Mailbox, t: Thread) { Full(b, t) && b.cmd.JOB? }

  /** The thread has the chunk at `offset` in its hands. */
  predicate Holds(t: Thread) {
    t.cmd.JOB? && (t.pc.RecvPost? || t.pc.JobWrite? || t.pc.JobPost? || t.pc.JobWait? || t.pc.Verdict?
                   || t.pc.SendWait? || t.pc.SendWrite? || t.pc.SendPost? || t.pc.Clear? || t.pc.PushLock?)
  }

  /** The chunk in hand still has to be judged. */
  predicate Undecided(t: Thread) {
    t.cmd.JOB? && (t.pc.RecvPost? || t.pc.JobWrite? || t.pc.JobPost? || t.pc.JobWait? || t.pc.Verdict?)
  }

  /** The chunk in hand goes to the next module. */
  predicate Forwarding(t: Thread) {
    t.cmd.JOB? && (t.pc.SendWait? || t.pc.SendWrite? || t.pc.SendPost?)
  }

  predicate SentStop(t: Thread) {
    t.cmd.STOP? && (t.pc.SendPost? || t.pc.JobWrite? || t.pc.JobPost? || t.pc.JobWait? || t.pc.Done?)
  }

  /** The child has dealt with the command its thread is waiting for. */
  predicate Answered(r: Record, q: Client) { q.pc.Reply? || r.semResult > 0 }

  // ----------------------------------------------------------- invariants

  /** Which program points and commands a thread of each kind can be at. */
  predicate Role(n: nat, k: nat, t: Thread) {
    match t.pc
    case Top => k == 0 && t.cmd.JOB?
    case Gate => k == 0 && t.cmd.JOB?
    case PopWait => k == 0 && t.cmd.JOB?
    case PopLock => k == 0 && t.cmd.JOB?
    case RecvWait => k > 0 && t.cmd.JOB?
    case RecvRead => k > 0 && t.cmd.JOB?
    case RecvPost => k > 0
    case Verdict => 0 < k < n - 1 && t.cmd.JOB?
    case Clear => k == n - 1 && t.cmd.JOB?
    case PushLock => k > 0 && t.cmd.JOB?
    case PushPost => k > 0 && t.cmd.JOB?
    case Done => t.cmd.STOP?
    case _ => k < n - 1
  }

  predicate RoleInv(s: State)
    requires s.WellFormed()
  {
    forall k :: 0 <= k < |s.thr| ==> Role(|s.thr|, k, s.thr[k])
  }

  /** The mailbox protocol between a sender and a receiver: the two semaphores and
      the two critical regions share one token, nothing is overwritten, and a STOP
      is followed by nothing. */
  predicate Link(t: Thread, b: Mailbox, t': Thread) {
    && b.newCmd + b.result + Bit(Sending(t)) + Bit(Receiving(t')) == 1
    && (t.pc.SendPost? ==> b.cmd == t.cmd && (t.cmd.JOB? ==> b.dataoffset == t.offset))
    && b.tx == b.rx + Opt(Full(b, t') || t.pc.SendPost?, b.cmd)
    && b.rx == Jobs(|b.inn|) + Opt(t'.cmd.STOP?, STOP)
    && (t'.cmd.STOP? ==> !Full(b, t') && SentStop(t) && !t.pc.SendPost?)
    && (SentStop(t) && !t.pc.SendPost? && t'.cmd.JOB? ==> Full(b, t') && b.cmd.STOP?)
    && (Full(b, t') && b.cmd.STOP? ==> SentStop(t) && !t.pc.SendPost?)
  }

  predicate LinkInv(s: State)
    requires s.WellFormed()
  {
    && s.box[0].newCmd == 0 && s.box[0].result == 1 && s.box[0].cmd.JOB?
    && forall k :: 1 <= k < |s.thr| ==> Link(s.thr[k - 1], s.box[k], s.thr[k])
  }

  /** The job/result handshake of a thread with its child. */
  predicate Handshake(t: Thread, r: Record, q: Client) {
    && r.semJob + r.semResult + Bit(q.pc.Fetch? || q.pc.Act? || q.pc.Reply?) + Bit(!t.pc.JobWait?) == 1
    && (t.pc.JobPost? || t.pc.JobWait? ==> r.cmd == t.cmd && (t.cmd.JOB? ==> r.offset == t.offset))
    && (q.pc.Act? ==> t.cmd.JOB?)
    && q.crx == Jobs(q.jobs + Bit(q.pc.Act?))
                + Opt(t.cmd.STOP? && (t.pc.Done? || (t.pc.JobWait? && Answered(r, q))), STOP)
  }

  predicate HandshakeInv(s: State)
    requires s.WellFormed()
  {
    forall k :: 0 <= k < s.Last() ==> Handshake(s.thr[k], s.rec[k], s.cli[k])
  }

  /** Chunk `o` really is at place `p`. */
  predicate Located(s: State, o: nat, p: Place)
    requires s.WellFormed()
  {
    match p
    case Free => o in s.free
    case Held(k) => k < |s.thr| && Holds(s.thr[k]) && s.thr[k].offset == o
    case Mail(k) => 1 <= k < |s.thr| && InMail(s.box[k], s.thr[k]) && s.box[k].dataoffset == o
  }

  predicate Owned(s: State, o: nat, p: Place) {
    o in s.owner && s.owner[o] == p
  }

  /** Each chunk is at the place `owner` names and at no other. */
  ghost predicate OwnerInv(s: State)
    requires s.WellFormed()
  {
    && Distinct(s.free)
    && forall o: nat, p: Place :: Owned(s, o, p) <==> Located(s, o, p)
  }

  /** Threads between the critical section of a push and its `sem_post`. */
  function Posting(thr: seq<Thread>): nat {
    if thr == [] then 0 else Posting(thr[..|thr| - 1]) + Bit(thr[|thr| - 1].pc.PushPost?)
  }

  /** The ring semaphore plus the operations in progress is what the ring holds. */
  predicate RingInv(s: State)
    requires s.WellFormed()
  {
    s.sem + Bit(s.thr[0].pc.PopLock?) + Posting(s.thr) == |s.free|
  }

  /** What a stage passed on is what the reference says about the chunks it was
      given and has judged; the chunk in hand is the last one given, before or
      after the child's action. */
  predicate Stage(c: Config, k: nat, t: Thread, inn: seq<Data>, r: Record, q: Client, d: Data) {
    && (q.pc.Act? ==> q.seen == d)
    && if !Undecided(t) then
         t.acc == Accepted(c, k, inn) && q.jobs == |inn|
       else
         inn != [] &&
         var j := |inn| - 1;
         t.acc == Accepted(c, k, inn[..j]) &&
         if !Worked(t, r, q) then
           q.jobs == j && d == inn[j]
         else
           q.jobs == j + 1 && d == c.act(k, j, inn[j]).0 && r.result == Report(c.act(k, j, inn[j]).1)
  }

  /** The child has acted on the chunk in hand. */
  predicate Worked(t: Thread, r: Record, q: Client) {
    t.pc.Verdict? || (t.pc.JobWait? && Answered(r, q))
  }

  predicate StageAt(c: Config, s: State, k: nat)
    requires s.WellFormed() && k < |s.thr|
  {
    Stage(c, k, s.thr[k], s.box[k].inn, s.rec[k], s.cli[k], s.Read(s.thr[k].offset))
  }

  predicate StageInv(c: Config, s: State)
    requires s.WellFormed()
  {
    forall k :: 0 <= k < s.Last() ==> StageAt(c, s, k)
  }

  /** What a stage passed on is what the next one was given, plus the chunk in the
      mailbox between them, plus the chunk being forwarded. */
  predicate Flow(acc: seq<Data>, t: Thread, d: Data, b: Mailbox, t': Thread, d': Data) {
    acc == b.inn + Opt(InMail(b, t'), d') + Opt(Forwarding(t), d)
  }

  predicate FlowAt(s: State, k: nat)
    requires s.WellFormed() && 1 <= k < |s.thr|
  {
    Flow(s.thr[k - 1].acc, s.thr[k - 1], s.Read(s.thr[k - 1].offset), s.box[k], s.thr[k], s.Read(s.box[k].dataoffset))
  }

  predicate FlowInv(s: State)
    requires s.WellFormed()
  {
    forall k :: 1 <= k < |s.thr| ==> FlowAt(s, k)
  }

  ghost predicate Inv(c: Config, s: State) {
    && s.WellFormed()
    && RoleInv(s) && LinkInv(s) && HandshakeInv(s)
    && OwnerInv(s) && RingInv(s) && StageInv(c, s) && FlowInv(s)
  }

  // ---------------------------------------------------------- preservation

  lemma RoleKept(n: nat, k: nat, t: Thread, b: Mailbox, r: Record, d: Data, exit: bool, live: bool, head: nat)
    requires k < n && 2 <= n && Role(n, k, t) && (k == 0 ==> b.cmd.JOB?)
    ensures Role(n, k, ThreadNext(n, k, t, b, r, d, exit, live, head))
  {}

  lemma JobsGrow(n: nat)
    ensures Jobs(n + 1) == Jobs(n) + [JOB]
  {}

  /** The sender of a mailbox moves. */
  lemma LinkSend(n: nat, k: nat, t: Thread, b0: Mailbox, r: Record, d: Data, exit: bool, live: bool, head: nat,
                 b: Mailbox, t': Thread)
    requires k + 1 < n && Role(n, k, t) && Link(t, b, t')
    requires t.pc.SendWait? ==> b.result > 0
    ensures Link(ThreadNext(n, k, t, b0, r, d, exit, live, head), NextBox(t, b), t')
  {
  }

  /** The receiver of a mailbox moves. */
  lemma LinkReceive(n: nat, k: nat, t: Thread, b: Mailbox, t': Thread,
                    r: Record, d0: Data, d: Data, exit: bool, live: bool, head: nat)
    requires 1 <= k < n && Role(n, k, t') && Link(t, b, t')
    requires t'.pc.RecvWait? ==> b.newCmd > 0
    ensures Link(t, OwnBox(t', b, d), ThreadNext(n, k, t', b, r, d0, exit, live, head))
  {
    JobsGrow(|b.inn|);
  }

  lemma HandshakeThread(n: nat, k: nat, t: Thread, b: Mailbox, r: Record, q: Client, d: Data,
                        exit: bool, live: bool, head: nat)
    requires k + 1 < n && Role(n, k, t) && Handshake(t, r, q)
    requires t.pc.JobWait? ==> r.semResult > 0
    ensures Handshake(ThreadNext(n, k, t, b, r, d, exit, live, head), OwnRecord(t, r), q)
  {}

  lemma HandshakeChild(c: Config, k: nat, t: Thread, r: Record, q: Client, d: Data)
    requires Handshake(t, r, q) && !q.pc.Gone? && (q.pc.Idle? ==> r.semJob > 0)
    ensures Handshake(t, ClientRecord(c, k, q, r), ClientNext(c, k, q, r, d))
  {
    JobsGrow(q.jobs);
  }

  /** The thread of stage `k` takes a chunk over; `d'` is what it contains. */
  lemma StageTakes(c: Config, n: nat, k: nat, t: Thread, b: Mailbox, r: Record, q: Client, d: Data, d': Data,
                    exit: bool, live: bool, head: nat)
    requires k + 1 < n && Role(n, k, t) && Handshake(t, r, q) && Stage(c, k, t, b.inn, r, q, d)
    requires t.pc.PopLock? || t.pc.RecvRead?
    ensures Stage(c, k, ThreadNext(n, k, t, b, r, d, exit, live, head), OwnBox(t, b, d').inn, OwnRecord(t, r), q, d')
  {
    assert (b.inn + [d'])[..|b.inn|] == b.inn;
  }

  /** The thread of stage `k` learns the child's result and judges the chunk. */
  lemma StageJudges(c: Config, n: nat, k: nat, t: Thread, b: Mailbox, r: Record, q: Client, d: Data, d': Data,
                    exit: bool, live: bool, head: nat)
    requires k + 1 < n && Role(n, k, t) && Handshake(t, r, q) && Stage(c, k, t, b.inn, r, q, d)
    requires t.pc.JobWait? || t.pc.Verdict?
    requires t.pc.JobWait? ==> r.semResult > 0
    requires d' == d
    ensures Stage(c, k, ThreadNext(n, k, t, b, r, d, exit, live, head), OwnBox(t, b, d').inn, OwnRecord(t, r), q, d')
  {}

  /** The thread of stage `k` takes any other step. */
  lemma StageRest(c: Config, n: nat, k: nat, t: Thread, b: Mailbox, r: Record, q: Client, d: Data, d': Data,
                    exit: bool, live: bool, head: nat)
    requires k + 1 < n && Role(n, k, t) && Handshake(t, r, q) && Stage(c, k, t, b.inn, r, q, d)
    requires !t.pc.PopLock? && !t.pc.RecvRead? && !t.pc.JobWait? && !t.pc.Verdict?
    requires d' == d
    ensures Stage(c, k, ThreadNext(n, k, t, b, r, d, exit, live, head), OwnBox(t, b, d').inn, OwnRecord(t, r), q, d')
  {
    var u, r' := ThreadNext(n, k, t, b, r, d, exit, live, head), OwnRecord(t, r);
    assert u.acc == t.acc && OwnBox(t, b, d').inn == b.inn && r'.result == r.result;
    assert Undecided(u) == Undecided(t);
    assert Undecided(t) ==> !Worked(t, r, q) && !Worked(u, r', q);
  }

  /** The child of stage `k` moves. */
  lemma StageChild(c: Config, k: nat, t: Thread, inn: seq<Data>, r: Record, q: Client, d: Data, d': Data)
    requires Handshake(t, r, q) && !q.pc.Gone? && (q.pc.Idle? ==> r.semJob > 0)
    requires Stage(c, k, t, inn, r, q, d)
    requires d' == if q.pc.Act? then c.act(k, q.jobs, q.seen).0 else d
    ensures Stage(c, k, t, inn, ClientRecord(c, k, q, r), ClientNext(c, k, q, r, d), d')
  {}

  /** The sender of a mailbox moves; `d1` is the chunk the mailbox names afterwards. */
  lemma FlowSend(n: nat, k: nat, t: Thread, b0: Mailbox, r: Record, d: Data, exit: bool, live: bool, head: nat,
                 b: Mailbox, t': Thread, d': Data, d1: Data, d1': Data)
    requires k + 1 < n && Role(n, k, t) && Link(t, b, t')
    requires t.pc.SendWait? ==> b.result > 0
    requires Flow(t.acc, t, d, b, t', d')
    requires !t.pc.PopLock? && !t.pc.RecvRead? ==> d1 == d
    requires d1' == if t.pc.SendPost? && t.cmd.JOB? then d else d'
    ensures var u := ThreadNext(n, k, t, b0, r, d, exit, live, head);
            Flow(u.acc, u, d1, NextBox(t, b), t', d1')
  {}

  /** The receiver of a mailbox moves. */
  lemma FlowReceive(n: nat, k: nat, t: Thread, d: Data, b: Mailbox, t': Thread, d': Data,
                    r: Record, d0: Data, exit: bool, live: bool, head: nat)
    requires 1 <= k < n && Role(n, k, t') && Link(t, b, t')
    requires t'.pc.RecvWait? ==> b.newCmd > 0
    requires Flow(t.acc, t, d, b, t', d')
    ensures Flow(t.acc, t, d, OwnBox(t', b, d'), ThreadNext(n, k, t', b, r, d0, exit, live, head), d')
  {}

  /** The four steps that move a chunk from one place to another. */
  predicate Moves(t: Thread, b: Mailbox) {
    t.pc.PopLock? || (t.pc.RecvRead? && b.cmd.JOB?) || (t.pc.SendPost? && t.cmd.JOB?) || t.pc.PushLock?
  }

  lemma HoldsKept(n: nat, k: nat, t: Thread, b: Mailbox, r: Record, d: Data, exit: bool, live: bool, head: nat)
    requires k < n && 2 <= n && Role(n, k, t) && !Moves(t, b)
    ensures var u := ThreadNext(n, k, t, b, r, d, exit, live, head);
            Holds(u) == Holds(t) && (Holds(t) ==> u.offset == t.offset)
  {}

  lemma MailKeptSend(n: nat, k: nat, t: Thread, b: Mailbox, t': Thread)
    requires k + 1 < n && Role(n, k, t) && Link(t, b, t') && !(t.pc.SendPost? && t.cmd.JOB?)
    ensures InMail(NextBox(t, b), t') == InMail(b, t')
    ensures InMail(b, t') ==> NextBox(t, b).dataoffset == b.dataoffset
  {}

  lemma MailKeptReceive(n: nat, k: nat, t: Thread, b: Mailbox, t': Thread,
                        r: Record, d: Data, d': Data, exit: bool, live: bool, head: nat)
    requires 1 <= k < n && Role(n, k, t') && Link(t, b, t') && !(t'.pc.RecvRead? && b.cmd.JOB?)
    requires t'.pc.RecvWait? ==> b.newCmd > 0
    ensures var u := ThreadNext(n, k, t', b, r, d, exit, live, head);
            InMail(OwnBox(t', b, d'), u) == InMail(b, t')
    ensures OwnBox(t', b, d').dataoffset == b.dataoffset
  {}
}

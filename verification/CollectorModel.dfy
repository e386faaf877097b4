/** The collector barrier: which object frames are added to.

    The pipeline's `first_action` hands the current object's name to the pipeline
    and makes a new one; the collector thread passes the new name to every source
    and waits until all of them have asked for the next. Objects are numbered in the
    order in which they are made, from 0. No exit flag is raised. */
module CollectorModel {

  /** `first_action`: waits until the sources are done with the object; copies its name into
      the chunk; makes a new object and stores its name; tells the collector. */
  datatype FirstPc = Waiting | Handing | Naming | Posting

  /** `collect_data_thread`: waits for a name; gives it to each source and lets the source
      through; waits for every source to ask for the next; tells `first_action`. */
  datatype CollectorPc = AwaitName | Copy(i: nat) | Release(i: nat) | Collect(i: nat) | Announce

  /** A source's thread before its first frame, and `new_frame_action`: between
      frames, about to ask for the next object, waiting for it, about to add the frame to
      the object, about to count it. */
  datatype SourcePc = Start | Ready | Break | Closed | Add | Count

  /** A source's two semaphores, its copy of the object's name and its frame counter.
      Auxiliary: how many names it was given, the object each frame went to, which
      frames opened an object, and what the callback said of each. */
  datatype Source = Source(pc: SourcePc, empty: nat, data: nat, name: int, frames: nat,
                           epoch: nat, log: seq<int>, opens: seq<bool>, det: seq<bool>)

  /** `name` is the name the collector holds. Auxiliary: the objects handed to the pipeline. */
  datatype State = State(limit: nat, first: FirstPc, pc: CollectorPc, empty: nat, data: nat,
                         name: int, handed: seq<int>, src: seq<Source>)

  datatype Actor = First | Collector | Frame(i: nat, detected: bool)

  // ----------------------------------------------------------------- steps

  /** A frame opens a new object when the callback says so or the limit is reached. */
  predicate StartsObject(limit: nat, q: Source, detected: bool)
    requires limit > 0
  {
    detected || q.frames % limit == 0
  }

  /** One step of a source; `detected` is what the callback reports for the frame, or
      false where there is no callback. */
  function SourceNext(limit: nat, q: Source, detected: bool): Source
    requires limit > 0
  {
    match q.pc
    case Start => if q.empty > 0 then q.(pc := Ready, empty := q.empty - 1) else q
    case Ready =>
      var opening := StartsObject(limit, q, detected);
      q.(pc := if opening then Break else Add, frames := if opening then 0 else q.frames,
          opens := q.opens + [opening], det := q.det + [detected])
    case Break => q.(pc := Closed, data := q.data + 1)
    case Closed => if q.empty > 0 then q.(pc := Add, empty := q.empty - 1) else q
    case Add => q.(pc := Count, log := q.log + [q.name])
    case Count => q.(pc := Ready, frames := q.frames + 1)
  }

  /** What the collector does to the source it has come to. */
  function Served(pc: CollectorPc, name: int, q: Source): Source {
    match pc
    case Copy(_) => q.(name := name, epoch := q.epoch + 1)
    case Release(_) => q.(empty := q.empty + 1)
    case Collect(_) => if q.data > 0 then q.(data := q.data - 1) else q
    case _ => q
  }

  /** The source the collector has come to, if any. */
  predicate At(pc: CollectorPc, n: nat, i: nat) {
    i < n && (pc == Copy(i) || pc == Release(i) || pc == Collect(i))
  }

  function CollectorNext(pc: CollectorPc, n: nat): CollectorPc {
    match pc
    case AwaitName => Copy(0)
    case Copy(i) => if i < n then Release(i) else Collect(0)
    case Release(i) => Copy(i + 1)
    case Collect(i) => if i < n then Collect(i + 1) else Announce
    case Announce => AwaitName
  }

  predicate Enabled(s: State, a: Actor) {
    match a
    case First => s.first.Waiting? ==> s.data > 0
    case Collector =>
      && (s.pc.AwaitName? ==> s.empty > 0)
      && (s.pc.Collect? && s.pc.i < |s.src| ==> s.src[s.pc.i].data > 0)
    case Frame(i, _) =>
      i < |s.src| && (s.src[i].pc.Start? || s.src[i].pc.Closed? ==> s.src[i].empty > 0)
  }

  function Step(s: State, a: Actor): State
    requires s.limit > 0 && Enabled(s, a)
  {
    match a
    case First =>
      (match s.first
       case Waiting => s.(first := Handing, data := s.data - 1)
       case Handing => s.(first := Naming, handed := s.handed + [s.name])
       case Naming => s.(first := Posting, name := s.name + 1)
       case Posting => s.(first := Waiting, empty := s.empty + 1))
    case Collector =>
      var n := |s.src|;
      s.(pc := CollectorNext(s.pc, n),
         empty := if s.pc.AwaitName? then s.empty - 1 else s.empty,
         data := if s.pc.Announce? then s.data + 1 else s.data,
         src := if s.pc.Copy? || s.pc.Release? || s.pc.Collect? then
                  (if s.pc.i < n then s.src[s.pc.i := Served(s.pc, s.name, s.src[s.pc.i])] else s.src)
                else s.src)
    case Frame(i, detected) =>
      s.(src := s.src[i := SourceNext(s.limit, s.src[i], detected)])
  }

  /** The semaphores as `collector_init` and `source_init` leave them: the collector's
      `data_ready` is 1, every other one 0; object 0 has been made. */
  predicate Init(s: State) {
    && s.limit > 0 && s.first.Waiting? && s.pc.AwaitName?
    && s.empty == 0 && s.data == 1 && s.name == 0 && s.handed == []
    && forall i :: 0 <= i < |s.src| ==> s.src[i] == Source(Start, 0, 0, s.src[i].name, 0, 0, [], [], [])
  }

  predicate Legal(s: State, schedule: seq<Actor>)
    requires s.limit > 0
    decreases |schedule|
  {
    schedule == [] || (Enabled(s, schedule[0]) && Legal(Step(s, schedule[0]), schedule[1..]))
  }

  function Run(s: State, schedule: seq<Actor>): (s': State)
    requires s.limit > 0 && Legal(s, schedule)
    ensures s'.limit == s.limit && |s'.src| == |s.src|
    decreases |schedule|
  {
    if schedule == [] then s else Run(Step(s, schedule[0]), schedule[1..])
  }
}

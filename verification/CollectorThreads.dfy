/** The collector thread, the sources and `first_action` on the structures they
    share, one method for each step that can be interleaved with others. */
module CollectorThreads {
  import opened CollectorModel
  import opened CollectorBarrier

  /** `struct data_source`. */
  class DataSource {
    const frameLimit: nat
    var emptyReady: nat
    var dataReady: nat
    var data: int
    var framesInObject: nat
    var pc: SourcePc
    ghost var epoch: nat
    ghost var log: seq<int>
    ghost var opens: seq<bool>
    ghost var det: seq<bool>

    constructor (frameLimit: nat)
      ensures AsSource() == Source(Start, 0, 0, data, 0, 0, [], [], []) && this.frameLimit == frameLimit
    {
      this.frameLimit := frameLimit;
      emptyReady, dataReady, framesInObject, data, pc := 0, 0, 0, -1, Start;
      epoch, log, opens, det := 0, [], [], [];
    }

    ghost function AsSource(): Source
      reads this
    {
      Source(pc, emptyReady, dataReady, data, framesInObject, epoch, log, opens, det)
    }

    // the source's thread waits for its first object
    method WaitStart()
      requires pc.Start? && emptyReady > 0 && frameLimit > 0
      modifies this
      ensures AsSource() == SourceNext(frameLimit, old(AsSource()), false)
    {
      emptyReady := emptyReady - 1;
      pc := Ready;
    }

    // the test for a new object; `detected` is what the callback returned
    method NewFrame(detected: bool)
      requires pc.Ready? && frameLimit > 0
      modifies this
      ensures AsSource() == SourceNext(frameLimit, old(AsSource()), detected)
    {
      det := det + [detected];
      if detected || framesInObject % frameLimit == 0 {
        framesInObject := 0;
        pc := Break;
        opens := opens + [true];
      } else {
        pc := Add;
        opens := opens + [false];
      }
    }

    // tells the collector that the object is finished here
    method PostData()
      requires pc.Break? && frameLimit > 0
      modifies this
      ensures AsSource() == SourceNext(frameLimit, old(AsSource()), false)
    {
      dataReady := dataReady + 1;
      pc := Closed;
    }

    // waits for the next object's name
    method WaitEmpty()
      requires pc.Closed? && emptyReady > 0 && frameLimit > 0
      modifies this
      ensures AsSource() == SourceNext(frameLimit, old(AsSource()), false)
    {
      emptyReady := emptyReady - 1;
      pc := Add;
    }

    // the frame goes to the object the source has the name of
    method AddFrame()
      requires pc.Add? && frameLimit > 0
      modifies this
      ensures AsSource() == SourceNext(frameLimit, old(AsSource()), false)
    {
      log := log + [data];
      pc := Count;
    }

    // counts the frame
    method CountFrame()
      requires pc.Count? && frameLimit > 0
      modifies this
      ensures AsSource() == SourceNext(frameLimit, old(AsSource()), false)
    {
      framesInObject := framesInObject + 1;
      pc := Ready;
    }

    method Advance(detected: bool)
      requires frameLimit > 0 && (pc.Start? || pc.Closed? ==> emptyReady > 0)
      modifies this
      ensures AsSource() == SourceNext(frameLimit, old(AsSource()), detected)
    {
      match pc
      case Start => WaitStart();
      case Ready => NewFrame(detected);
      case Break => PostData();
      case Closed => WaitEmpty();
      case Add => AddFrame();
      case Count => CountFrame();
    }
  }

  /** `struct data_collector`, with the places of its thread and of `first_action`. */
  class DataCollector {
    const sources: seq<DataSource>
    const frameLimit: nat
    var emptyReady: nat
    var dataReady: nat
    var data: int
    var pc: CollectorPc
    var first: FirstPc
    ghost var handed: seq<int>

    /** `collector_init`, after the first name has been generated. */
    constructor (sources: seq<DataSource>, frameLimit: nat)
      requires frameLimit > 0
      requires forall i, j :: 0 <= i < j < |sources| ==> sources[i] != sources[j]
      requires forall i :: 0 <= i < |sources| ==>
                 sources[i].frameLimit == frameLimit && sources[i].AsSource() == Source(Start, 0, 0, sources[i].data, 0, 0, [], [], [])
      ensures Ok() && Init(Abs()) && this.sources == sources && this.frameLimit == frameLimit
    {
      this.sources, this.frameLimit := sources, frameLimit;
      emptyReady, dataReady, data, pc, first, handed := 0, 1, 0, AwaitName, Waiting, [];
      new;
      InitInv(Abs());
    }

    ghost function Sources(): seq<Source>
      reads sources
    {
      seq(|sources|, i requires 0 <= i < |sources| reads sources => sources[i].AsSource())
    }

    ghost function Abs(): State
      reads this, sources
    {
      State(frameLimit, first, pc, emptyReady, dataReady, data, handed, Sources())
    }

    ghost predicate Shape()
      reads this, sources
    {
      && frameLimit > 0
      && (forall i, j :: 0 <= i < j < |sources| ==> sources[i] != sources[j])
      && (forall i :: 0 <= i < |sources| ==> sources[i].frameLimit == frameLimit)
    }

    ghost predicate Ok()
      reads this, sources
    {
      Shape() && Inv(Abs())
    }

    /** One step of `first_action`; `chunk` is what it has written for the pipeline. */
    method FirstAction(chunk: int) returns (chunk': int)
      requires Shape() && CollectorModel.Enabled(Abs(), First)
      modifies this`first, this`dataReady, this`emptyReady, this`data, this`handed
      ensures Shape() && Abs() == Step(old(Abs()), First)
      ensures chunk' == if old(first).Handing? then old(data) else chunk
    {
      chunk' := chunk;
      match first
      case Waiting =>
        dataReady := dataReady - 1;
        first := Handing;
      case Handing =>
        chunk' := data;
        handed := handed + [data];
        first := Naming;
      case Naming =>
        data := data + 1;
        first := Posting;
      case Posting =>
        emptyReady := emptyReady + 1;
        first := Waiting;
    }

    /** The body of one of the collector's loops, for the source it has come to. */
    method ServeSource(i: nat)
      requires Shape() && i < |sources| && At(pc, |sources|, i) && (pc.Collect? ==> sources[i].dataReady > 0)
      modifies sources[i]
      ensures Shape() && Sources() == old(Sources())[i := Served(pc, data, old(Sources())[i])]
    {
      var src := sources[i];
      match pc
      case Copy(_) =>
        src.data := data;
        src.epoch := src.epoch + 1;
      case Release(_) =>
        src.emptyReady := src.emptyReady + 1;
      case Collect(_) =>
        src.dataReady := src.dataReady - 1;
    }

    /** One step of `collect_data_thread`. */
    method CollectData()
      requires Shape() && CollectorModel.Enabled(Abs(), Collector)
      modifies this`pc, this`dataReady, this`emptyReady, sources
      ensures Shape() && Abs() == Step(old(Abs()), Collector)
    {
      var n := |sources|;
      match pc
      case AwaitName =>
        emptyReady := emptyReady - 1;
        pc := Copy(0);
      case Copy(i) =>
        if i < n { ServeSource(i); pc := Release(i); } else { pc := Collect(0); }
      case Release(i) =>
        if i < n { ServeSource(i); }
        pc := Copy(i + 1);
      case Collect(i) =>
        if i < n { ServeSource(i); pc := Collect(i + 1); } else { pc := Announce; }
      case Announce =>
        dataReady := dataReady + 1;
        pc := AwaitName;
    }

    /** One step of source `i`. */
    method SourceStep(i: nat, detected: bool)
      requires Shape() && CollectorModel.Enabled(Abs(), Frame(i, detected))
      modifies sources
      ensures Shape() && Abs() == Step(old(Abs()), Frame(i, detected))
    {
      assert Sources()[i] == sources[i].AsSource();
      sources[i].Advance(detected);
      assert Sources() == old(Sources())[i := sources[i].AsSource()];
    }

    /** Lets one actor move. */
    method Advance(a: Actor, chunk: int) returns (chunk': int)
      requires Ok() && CollectorModel.Enabled(Abs(), a)
      modifies this, sources
      ensures Ok() && Abs() == Step(old(Abs()), a)
      ensures a.First? && old(first).Handing? ==> chunk' == old(data)
    {
      InvKept(Abs(), a);
      chunk' := chunk;
      match a {
        case First => chunk' := FirstAction(chunk);
        case Collector => CollectData();
        case Frame(i, detected) => SourceStep(i, detected);
      }
    }
  }

  /** Any interleaving of the collector, the sources and `first_action`. */
  method Execute(c: DataCollector, schedule: seq<Actor>) returns (chunk: int)
    requires c.Ok() && Legal(c.Abs(), schedule)
    modifies c, c.sources
    ensures c.Ok() && c.Abs() == Run(old(c.Abs()), schedule)
  {
    chunk := -1;
    var i := 0;
    while i < |schedule|
      invariant 0 <= i <= |schedule|
      invariant c.Ok() && Legal(c.Abs(), schedule[i..])
      invariant Run(c.Abs(), schedule[i..]) == Run(old(c.Abs()), schedule)
    {
      assert schedule[i..][1..] == schedule[i + 1..];
      chunk := c.Advance(schedule[i], chunk);
      i := i + 1;
    }
  }
}

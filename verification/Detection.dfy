/** The object break detector: three counters, updated once per frame, that stand
    for everything seen since the last break. */
module Detection {

  /** What `findRadius` returns, as a `float`; NaN passes neither threshold test. */
  datatype Radius = NaN | MinusInfinity | Finite(r: real) | PlusInfinity

  predicate Small(f: Radius) { f.MinusInfinity? || (f.Finite? && f.r < 135.0) }

  predicate Large(f: Radius) { f.PlusInfinity? || (f.Finite? && f.r >= 150.0) }

  const OBJECT_FRAMES: nat := 16
  const EMPTY_FRAMES: nat := 8

  // ------------------------------------------- definition over the history

  /** The number of frames of a segment up to and including its last large one. */
  function ThroughLastLarge(seg: seq<Radius>): (n: nat)
    ensures n <= |seg| && (n > 0 ==> Large(seg[n - 1]))
    ensures forall i :: n <= i < |seg| ==> !Large(seg[i])
  {
    if seg == [] then 0
    else if Large(seg[|seg| - 1]) then |seg|
    else ThroughLastLarge(seg[..|seg| - 1])
  }

  function CountSmall(seg: seq<Radius>): (n: nat)
    ensures n <= |seg|
  {
    if seg == [] then 0
    else CountSmall(seg[..|seg| - 1]) + (if Small(seg[|seg| - 1]) then 1 else 0)
  }

  /** The last frame of the segment is a break: it is small, there have been enough
      small frames since the last large one, and the segment through that large one
      is long enough. */
  predicate Break(seg: seq<Radius>) {
    && seg != [] && Small(seg[|seg| - 1])
    && CountSmall(seg[ThroughLastLarge(seg)..]) >= EMPTY_FRAMES
    && ThroughLastLarge(seg) >= OBJECT_FRAMES
  }

  /** A segment in the making: no frame of it was a break. */
  predicate Unbroken(seg: seq<Radius>) {
    forall n :: 0 < n <= |seg| ==> !Break(seg[..n])
  }

  /** A finished one: its last frame, and no other, was a break. */
  predicate Segment(seg: seq<Radius>) {
    Break(seg) && Unbroken(seg[..|seg| - 1])
  }

  function Flatten(segs: seq<seq<Radius>>): seq<Radius> {
    if segs == [] then [] else Flatten(segs[..|segs| - 1]) + segs[|segs| - 1]
  }

  /** A finished segment is at least 24 frames long. */
  lemma SegmentLength(seg: seq<Radius>)
    requires Break(seg)
    ensures |seg| >= 24
  {}

  lemma {:induction false} CountIsCardinality(seg: seq<Radius>, n: nat)
    requires n <= |seg|
    ensures CountSmall(seg[n..]) == |set i | n <= i < |seg| && Small(seg[i])|
  {
    var k, all := |seg| - 1, set i | n <= i < |seg| && Small(seg[i]);
    if n == |seg| {
      assert all == {};
    } else {
      var front := seg[..k];
      CountIsCardinality(front, n);
      assert seg[n..][..k - n] == front[n..];
      var before := set i | n <= i < k && Small(front[i]);
      assert all == before + if Small(seg[k]) then {k} else {};
    }
  }

  /** The definition in numbers: the last frame is below 135, and after some frame of at
      least 150 that is the 16th or a later one there is none of at least 150 but at least
      eight below 135. */
  lemma BreakInNumbers(seg: seq<Radius>)
    ensures Break(seg) <==>
              var below := (f: Radius) => f.MinusInfinity? || (f.Finite? && f.r < 135.0);
              var large := (f: Radius) => f.PlusInfinity? || (f.Finite? && f.r >= 150.0);
              && seg != [] && below(seg[|seg| - 1])
              && exists m :: 15 <= m < |seg| && large(seg[m]) && (forall i :: m < i < |seg| ==> !large(seg[i]))
                             && |set i | m < i < |seg| && below(seg[i])| >= 8
  {
    var n := ThroughLastLarge(seg);
    CountIsCardinality(seg, n);
    var below := (f: Radius) => f.MinusInfinity? || (f.Finite? && f.r < 135.0);
    var large := (f: Radius) => f.PlusInfinity? || (f.Finite? && f.r >= 150.0);
    forall m | 15 <= m < |seg| && large(seg[m]) && forall i :: m < i < |seg| ==> !large(seg[i])
      ensures m + 1 == n
    {
      assert Large(seg[m]);
    }
    assert (set i | n <= i < |seg| && Small(seg[i])) == (set i | n - 1 < i < |seg| && below(seg[i]));
  }

  /** How a history splits into finished segments and one in the making. */
  ghost predicate Splits(history: seq<Radius>, segs: seq<seq<Radius>>, open: seq<Radius>) {
    && history == Flatten(segs) + open
    && (forall i :: 0 <= i < |segs| ==> Segment(segs[i]))
    && Unbroken(open)
  }

  lemma {:induction false} FlattenHead(segs: seq<seq<Radius>>)
    requires segs != []
    ensures Flatten(segs) == segs[0] + Flatten(segs[1..])
    decreases |segs|
  {
    var n, tail := |segs| - 1, segs[1..];
    if n > 0 {
      var front := segs[..n];
      FlattenHead(front);
      assert tail[..n - 1] == front[1..] && tail[n - 1] == segs[n];
      Associate(segs[0], Flatten(front[1..]), segs[n]);
    }
  }

  lemma Associate(a: seq<Radius>, b: seq<Radius>, c: seq<Radius>)
    ensures (a + b) + c == a + (b + c)
  {}

  lemma PrefixesOfOne(a: seq<Radius>, x: seq<Radius>, b: seq<Radius>, y: seq<Radius>)
    requires a + x == b + y && |a| <= |b|
    ensures a <= b
  {
    assert b == (b + y)[..|b|];
    assert a == (a + x)[..|a|];
  }

  /** A break is not hidden inside an unbroken stretch. */
  lemma NoBreakInside(a: seq<Radius>, b: seq<Radius>)
    requires a <= b && Break(a)
    ensures !Unbroken(b) && (|a| < |b| ==> !Unbroken(b[..|b| - 1]))
  {
    assert b[..|a|] == a;
    if |a| < |b| { assert b[..|b| - 1][..|a|] == a; }
  }

  /** Of two segments that begin the same history neither is longer. */
  lemma FirstBreakUnique(a: seq<Radius>, x: seq<Radius>, b: seq<Radius>, y: seq<Radius>)
    requires a + x == b + y && Segment(a) && Segment(b)
    ensures a == b && x == y
  {
    if |a| <= |b| {
      PrefixesOfOne(a, x, b, y);
      NoBreakInside(a, b);
    } else {
      PrefixesOfOne(b, y, a, x);
      NoBreakInside(b, a);
    }
    assert x == (a + x)[|a|..] && y == (b + y)[|b|..];
  }

  /** A split without its first segment is a split of what follows it. */
  lemma SplitHead(history: seq<Radius>, segs: seq<seq<Radius>>, open: seq<Radius>) returns (rest: seq<Radius>)
    requires segs != [] && Splits(history, segs, open)
    ensures history == segs[0] + rest && Splits(rest, segs[1..], open) && Segment(segs[0])
  {
    rest := Flatten(segs[1..]) + open;
    FlattenHead(segs);
  }

  lemma SplitIsOpen(history: seq<Radius>, open: seq<Radius>)
    requires Splits(history, [], open)
    ensures history == open
  {}

  /** An unbroken history has no finished segment. */
  lemma UnbrokenHasNone(history: seq<Radius>, segs: seq<seq<Radius>>, open: seq<Radius>)
    requires Splits(history, segs, open) && Unbroken(history)
    ensures segs == []
  {
    if segs != [] {
      var rest := SplitHead(history, segs, open);
      assert segs[0] <= history;
      NoBreakInside(segs[0], history);
    }
  }

  /** Every history splits in one way only. */
  lemma {:induction false} SplitUnique(history: seq<Radius>, segs: seq<seq<Radius>>, open: seq<Radius>,
                                       segs': seq<seq<Radius>>, open': seq<Radius>)
    requires Splits(history, segs, open) && Splits(history, segs', open')
    ensures segs == segs' && open == open'
    decreases |history|
  {
    if segs == [] {
      SplitIsOpen(history, open);
      UnbrokenHasNone(history, segs', open');
      SplitIsOpen(history, open');
    } else if segs' == [] {
      SplitIsOpen(history, open');
      UnbrokenHasNone(history, segs, open);
    } else {
      var x := SplitHead(history, segs, open);
      var y := SplitHead(history, segs', open');
      FirstBreakUnique(segs[0], x, segs'[0], y);
      SegmentLength(segs[0]);
      SplitUnique(x, segs[1..], open, segs'[1..], open');
      assert segs == [segs[0]] + segs[1..] && segs' == [segs'[0]] + segs'[1..];
    }
  }

  // ------------------------------------------------------------ the counters

  /** How one more frame changes what the definition looks at. */
  lemma OneMoreLarge(open: seq<Radius>, f: Radius)
    requires Large(f)
    ensures ThroughLastLarge(open + [f]) == |open| + 1
    ensures CountSmall((open + [f])[|open| + 1..]) == 0
  {
    assert (open + [f])[|open| + 1..] == [];
  }

  lemma OneMoreOther(open: seq<Radius>, f: Radius)
    requires !Large(f)
    ensures ThroughLastLarge(open + [f]) == ThroughLastLarge(open)
    ensures var n := ThroughLastLarge(open);
            CountSmall((open + [f])[n..]) == CountSmall(open[n..]) + (if Small(f) then 1 else 0)
  {
    var n := ThroughLastLarge(open);
    assert (open + [f])[..|open|] == open;
    assert (open + [f])[n..] == open[n..] + [f];
    CountSmallMore(open[n..], f);
  }

  lemma CountSmallMore(q: seq<Radius>, f: Radius)
    ensures CountSmall(q + [f]) == CountSmall(q) + (if Small(f) then 1 else 0)
  {
    assert (q + [f])[..|q|] == q;
  }

  /** What the three counters stand for: frames through the last large one, small
      frames since, and all others since. */
  predicate Counts(open: seq<Radius>, obj: nat, empty: nat, non: nat) {
    && obj == ThroughLastLarge(open)
    && empty == CountSmall(open[obj..])
    && obj + empty + non == |open|
  }

  /** How the counters have to change for one more frame, and when it is a break. */
  lemma CountsStep(open: seq<Radius>, f: Radius, obj: nat, empty: nat, non: nat)
    requires Counts(open, obj, empty, non)
    ensures Small(f) ==> Counts(open + [f], obj, empty + 1, non)
    ensures Large(f) ==> Counts(open + [f], obj + 1 + empty + non, 0, 0)
    ensures !Small(f) && !Large(f) ==> Counts(open + [f], obj, empty, non + 1)
    ensures Break(open + [f]) <==> Small(f) && empty + 1 >= EMPTY_FRAMES && obj >= OBJECT_FRAMES
  {
    if Large(f) { OneMoreLarge(open, f); } else { OneMoreOther(open, f); }
  }

  lemma StillUnbroken(open: seq<Radius>, f: Radius)
    requires Unbroken(open) && !Break(open + [f])
    ensures Unbroken(open + [f])
  {
    var next := open + [f];
    forall n | 0 < n <= |next|
      ensures !Break(next[..n])
    {
      if n == |next| { assert next[..n] == next; } else { assert next[..n] == open[..n]; }
    }
  }

  lemma SplitsWithBreak(history: seq<Radius>, segs: seq<seq<Radius>>, open: seq<Radius>, f: Radius)
    requires Splits(history, segs, open) && Break(open + [f])
    ensures Splits(history + [f], segs + [open + [f]], [])
  {
    var next := open + [f];
    assert next[..|open|] == open;
    assert (segs + [next])[..|segs|] == segs;
    assert history + [f] == Flatten(segs) + next;
  }

  lemma SplitsWithout(history: seq<Radius>, segs: seq<seq<Radius>>, open: seq<Radius>, f: Radius)
    requires Splits(history, segs, open) && !Break(open + [f])
    ensures Splits(history + [f], segs, open + [f])
  {
    StillUnbroken(open, f);
    assert history + [f] == Flatten(segs) + (open + [f]);
  }

  /** The static variables of `object_detection_callback`. */
  class Detector {
    var framesObjCnt: nat
    var framesEmptyCnt: nat
    var framesNonCnt: nat
    var newObject: int
    ghost var segments: seq<seq<Radius>>
    ghost var open: seq<Radius>

    constructor ()
      ensures Valid() && segments == [] && open == []
    {
      framesObjCnt, framesEmptyCnt, framesNonCnt, newObject := 0, 0, 0, 0;
      segments, open := [], [];
    }

    ghost function History(): seq<Radius>
      reads this
    {
      Flatten(segments) + open
    }

    /** The three counters summarise the segment in the making, whatever was before. */
    ghost predicate Valid()
      reads this
    {
      && Splits(History(), segments, open)
      && newObject == 0
      && Counts(open, framesObjCnt, framesEmptyCnt, framesNonCnt)
    }

    /** Adds a frame to the history. */
    ghost method Remember(radius: Radius)
      requires Splits(History(), segments, open)
      modifies this`segments, this`open
      ensures History() == old(History()) + [radius] && Splits(History(), segments, open)
      ensures if Break(old(open) + [radius]) then segments == old(segments) + [old(open) + [radius]] && open == []
              else segments == old(segments) && open == old(open) + [radius]
    {
      var history, next := History(), open + [radius];
      if Break(next) {
        SplitsWithBreak(history, segments, open, radius);
        segments, open := segments + [next], [];
      } else {
        SplitsWithout(history, segments, open, radius);
        open := next;
      }
      assert History() == history + [radius];
    }

    /** The callback on its counters: given that they stand for the frames `seg` since
        the last break, it reports 1 exactly when the new frame makes a break of them,
        and leaves the counters standing for what follows the break. */
    method Tally(radius: Radius, ghost seg: seq<Radius>) returns (result: int)
      requires newObject == 0 && Counts(seg, framesObjCnt, framesEmptyCnt, framesNonCnt)
      modifies this`framesObjCnt, this`framesEmptyCnt, this`framesNonCnt, this`newObject
      ensures newObject == 0 && result == (if Break(seg + [radius]) then 1 else 0)
      ensures Counts(if result == 1 then [] else seg + [radius], framesObjCnt, framesEmptyCnt, framesNonCnt)
    {
      CountsStep(seg, radius, framesObjCnt, framesEmptyCnt, framesNonCnt);
      if Small(radius) && newObject == 0 {
        framesEmptyCnt := framesEmptyCnt + 1;
        if framesObjCnt >= OBJECT_FRAMES && framesEmptyCnt >= EMPTY_FRAMES {
          newObject := 1;
          newObject := 0;
          framesObjCnt, framesNonCnt, framesEmptyCnt := 0, 0, 0;
          return 1;
        }
      } else if Large(radius) {
        framesObjCnt := framesObjCnt + 1;
        framesObjCnt := framesObjCnt + framesEmptyCnt;
        framesEmptyCnt := 0;
        framesObjCnt := framesObjCnt + framesNonCnt;
        framesNonCnt := 0;
      } else {
        framesNonCnt := framesNonCnt + 1;
      }
      return 0;
    }

    /** One frame: reports 1 exactly when the definition over the history has a break
        there, and goes on from an empty segment. */
    method ObjectDetectionCallback(radius: Radius) returns (result: int)
      requires Valid()
      modifies this
      ensures Valid() && History() == old(History()) + [radius]
      ensures result == if Break(old(open) + [radius]) then 1 else 0
      ensures result == 1 <==>
                var seg := old(open) + [radius];
                var below := (f: Radius) => f.MinusInfinity? || (f.Finite? && f.r < 135.0);
                var large := (f: Radius) => f.PlusInfinity? || (f.Finite? && f.r >= 150.0);
                && below(radius)
                && exists m :: 15 <= m < |seg| && large(seg[m]) && (forall i :: m < i < |seg| ==> !large(seg[i]))
                               && |set i | m < i < |seg| && below(seg[i])| >= 8
      ensures if result == 1 then segments == old(segments) + [old(open) + [radius]] && open == []
              else segments == old(segments) && open == old(open) + [radius]
    {
      BreakInNumbers(open + [radius]);
      result := Tally(radius, open);
      Remember(radius);
    }
  }
}

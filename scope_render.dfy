/** The decisions the scope's paint handler takes: which samples of a channel enter
    its trace and in what order, and the numbers written along both axes. Pixel
    coordinates are kept only as far as the keep/skip test needs them. */
module ScopeRender {
  import opened ScopeChannels

  /** One element of a channel's path: the index of the sample (0 = oldest retained)
      and the sample itself. The first kept sample starts the path, the rest extend it. */
  datatype PathOp = MoveTo(index: nat, sample: Point) | LineTo(index: nat, sample: Point)

  /** A horizontal-axis label: milliseconds, or whole seconds for long timebases. */
  datatype TimeLabel = Millis(ms: int) | Seconds(s: int)

  /** What the paint handler produces for one channel of the list. */
  datatype Trace = Skipped | Drawn(path: seq<PathOp>)

  /** The decisions of one paint: vertical labels (percent), horizontal labels, and a
      trace per channel of the list, in list order. */
  datatype Frame = Frame(vertical: seq<int>, horizontal: seq<TimeLabel>, traces: seq<Trace>)

  /** Horizontal pixel offset of a sample at time `t` in a plot `width` wide: the
      window spans ten divisions of `timebase` and ends at the channel's highest time. */
  function PixelX(width: real, timebase: int, highest: real, t: real): real
    requires timebase != 0
  {
    var xScale := width / (timebase as real * 10.0);
    var maxTime := timebase * 10;
    xScale * (maxTime as real - (highest - t))
  }

  /** A sample enters the path when its pixel offset is not left of the plot. */
  predicate Kept(width: real, timebase: int, highest: real, t: real)
    requires timebase != 0
  {
    PixelX(width, timebase, highest, t) >= 0.0
  }

  /** The indices below `n` of samples that enter the path, in increasing order. */
  function KeptIndices(s: seq<Point>, highest: real, width: real, timebase: int, n: nat): (ks: seq<nat>)
    requires timebase != 0 && n <= |s|
    ensures forall j :: 0 <= j < |ks| ==> ks[j] < n
    decreases n
  {
    if n == 0 then []
    else
      var ks := KeptIndices(s, highest, width, timebase, n - 1);
      if Kept(width, timebase, highest, s[n - 1].time) then ks + [n - 1] else ks
  }

  /** KeptIndices holds exactly the kept indices below `n`, in increasing order. */
  lemma {:induction false} KeptIndicesExact(s: seq<Point>, highest: real, width: real, timebase: int, n: nat)
    requires timebase != 0 && n <= |s|
    ensures var ks := KeptIndices(s, highest, width, timebase, n);
            && (forall j :: 0 <= j < |ks| ==> Kept(width, timebase, highest, s[ks[j]].time))
            && (forall i :: 0 <= i < n && Kept(width, timebase, highest, s[i].time) ==> i in ks)
            && (forall j, k :: 0 <= j < k < |ks| ==> ks[j] < ks[k])
    decreases n
  {
    if n > 0 {
      KeptIndicesExact(s, highest, width, timebase, n - 1);
    }
  }

  /** The path through the samples at `ks`: a move to the first, lines to the rest. */
  function PathThrough(ks: seq<nat>, s: seq<Point>): (path: seq<PathOp>)
    requires forall j :: 0 <= j < |ks| ==> ks[j] < |s|
    ensures |path| == |ks|
    ensures forall j :: 0 <= j < |ks| ==>
              path[j].index == ks[j] && path[j].sample == s[ks[j]] && (path[j].MoveTo? <==> j == 0)
  {
    seq(|ks|, j requires 0 <= j < |ks| =>
      if j == 0 then MoveTo(ks[j], s[ks[j]]) else LineTo(ks[j], s[ks[j]]))
  }

  /** A channel's path for retained samples `s` (oldest first): every sample but the
      newest is visited, oldest first; a sample left of the window is skipped without
      ending the scan; the first kept sample is a move, the others are lines. */
  function TraceOf(s: seq<Point>, highest: real, width: real, timebase: int): (path: seq<PathOp>)
    requires timebase != 0
    ensures forall j :: 0 <= j < |path| ==>
              && path[j].index < |s| - 1
              && path[j].sample == s[path[j].index]
              && Kept(width, timebase, highest, path[j].sample.time)
    ensures forall i :: 0 <= i < |s| - 1 && Kept(width, timebase, highest, s[i].time) ==>
              exists j :: 0 <= j < |path| && path[j].index == i
    ensures forall j, k :: 0 <= j < k < |path| ==> path[j].index < path[k].index
    ensures forall j :: 0 <= j < |path| ==> (path[j].MoveTo? <==> j == 0)
  {
    var n := Max(0, |s| - 1);
    KeptIndicesExact(s, highest, width, timebase, n);
    var ks := KeptIndices(s, highest, width, timebase, n);
    assert forall j :: 0 <= j < |ks| ==> ks[j] < n && Kept(width, timebase, highest, s[ks[j]].time);
    PathThrough(ks, s)
  }

  /** With a plot of positive width and a positive timebase, a sample is kept exactly
      when it is at most ten divisions older than the channel's highest time. */
  lemma KeptWithinWindow(width: real, timebase: int, highest: real, t: real)
    requires width > 0.0 && timebase > 0
    ensures Kept(width, timebase, highest, t) <==> highest - t <= (10 * timebase) as real
  {
    var xScale := width / (timebase as real * 10.0);
    var d := (timebase * 10) as real - (highest - t);
    assert xScale > 0.0;
    assert PixelX(width, timebase, highest, t) == xScale * d;
    if d >= 0.0 {
      assert xScale * d >= 0.0;
    } else {
      assert xScale * d < 0.0;
    }
  }

  /** The newest sample sits at the right edge of the plot. */
  lemma NewestAtRightEdge(width: real, timebase: int, highest: real)
    requires timebase != 0
    ensures PixelX(width, timebase, highest, highest) == width
  {
    var xScale := width / (timebase as real * 10.0);
    assert PixelX(width, timebase, highest, highest) == xScale * (timebase as real * 10.0);
  }

  /** Which samples a channel draws, in window terms: with positive width and timebase,
      index i is on the path exactly when it is not the newest sample and lies within
      ten divisions of the highest time. */
  lemma TraceWindow(s: seq<Point>, highest: real, width: real, timebase: int, i: int)
    requires width > 0.0 && timebase > 0
    ensures (exists j :: 0 <= j < |TraceOf(s, highest, width, timebase)| &&
                         TraceOf(s, highest, width, timebase)[j].index == i)
            <==> 0 <= i < |s| - 1 && highest - s[i].time <= (10 * timebase) as real
  {
    var path := TraceOf(s, highest, width, timebase);
    if 0 <= i < |s| - 1 {
      KeptWithinWindow(width, timebase, highest, s[i].time);
    }
    if j :| 0 <= j < |path| && path[j].index == i {
      KeptWithinWindow(width, timebase, highest, path[j].sample.time);
    }
  }

  /** One step of the paint handler's scan: sample i is appended, as a move when
      nothing was kept before it and as a line otherwise, exactly when it is kept. */
  lemma ScanStep(s: seq<Point>, highest: real, width: real, timebase: int, i: nat)
    requires timebase != 0 && i < |s|
    ensures var ks := KeptIndices(s, highest, width, timebase, i);
            && KeptIndices(s, highest, width, timebase, i + 1)
               == (if Kept(width, timebase, highest, s[i].time) then ks + [i] else ks)
            && PathThrough(ks + [i], s)
               == PathThrough(ks, s) + [if ks == [] then MoveTo(i, s[i]) else LineTo(i, s[i])]
  {
    var ks := KeptIndices(s, highest, width, timebase, i);
    var op := if ks == [] then MoveTo(i, s[i]) else LineTo(i, s[i]);
    assert PathThrough(ks + [i], s)[|ks|] == op;
  }

  /** The path of one channel, built as the paint handler builds it: a scan of every
      retained sample but the newest, with a `first` flag choosing move or line. */
  method TraceChannel(ch: ScopeChannel, width: real, timebase: int) returns (path: seq<PathOp>)
    requires ch.Valid() && timebase != 0
    ensures path == TraceOf(ch.Samples(), ch.highestTime, width, timebase)
  {
    ghost var s := ch.Samples();
    path := [];
    var first := true;
    var n := ch.Count();
    assert n == |s|;
    var i := 0;
    while i < n - 1
      invariant 0 <= i <= Max(0, n - 1)
      invariant first <==> KeptIndices(s, ch.highestTime, width, timebase, i) == []
      invariant path == PathThrough(KeptIndices(s, ch.highestTime, width, timebase, i), s)
    {
      var p := ch.GetPoint(i);
      var x := PixelX(width, timebase, ch.highestTime, p.time);
      assert p == s[i];
      ScanStep(s, ch.highestTime, width, timebase, i);
      if x >= 0.0 {
        path := path + [if first then MoveTo(i, p) else LineTo(i, p)];
        first := false;
      }
      i := i + 1;
    }
    assert i == Max(0, n - 1);
  }

  /** The vertical-axis labels, top to bottom: 100% down to 0% in steps of 10. */
  method VerticalLabels() returns (labels: seq<int>)
    ensures |labels| == 11
    ensures forall i :: 0 <= i < 11 ==> labels[i] == 100 - 10 * i
  {
    labels := [];
    var percent := 100;
    for i := 0 to 11
      invariant |labels| == i && percent == 100 - 10 * i
      invariant forall j :: 0 <= j < i ==> labels[j] == 100 - 10 * j
    {
      labels := labels + [percent];
      percent := percent - 10;
    }
  }

  /** The horizontal-axis labels, left to right: i * timebase for i = 0..10, in
      milliseconds when the timebase is under 1000, otherwise in whole seconds (the
      integer quotient by 1000). */
  method HorizontalLabels(timebase: int) returns (labels: seq<TimeLabel>)
    ensures |labels| == 11
    ensures forall i :: 0 <= i < 11 ==>
              labels[i] == if timebase < 1000 then Millis(i * timebase) else Seconds(i * timebase / 1000)
  {
    labels := [];
    var time := 0;
    for i := 0 to 11
      invariant |labels| == i && time == i * timebase
      invariant forall j :: 0 <= j < i ==>
                  labels[j] == if timebase < 1000 then Millis(j * timebase) else Seconds(j * timebase / 1000)
    {
      // In the seconds branch time >= 0, so this quotient is the truncating one.
      var text := if timebase < 1000 then Millis(time) else Seconds(time / 1000);
      labels := labels + [text];
      time := time + timebase;
    }
  }
}

/** The scope widget: the ordered list of channels it shows, its timebase and its
    running flag; it routes level notifications into the channels and decides what a
    paint draws. */
module ScopeWidgets {
  import opened ScopeChannels
  import opened ScopeIngest
  import opened ScopeRender

  /** A request the widget makes of the listener of a universe. */
  datatype ListenerRequest = Monitor(universe: int, address: int) | Unmonitor(universe: int, address: int)

  /** `s` without any occurrence of `x`, the rest in their original order. */
  function RemoveAll<T(==)>(s: seq<T>, x: T): (r: seq<T>)
    ensures x !in r
    ensures forall y :: y in r ==> y in s
    ensures forall y :: y in s && y != x ==> multiset(r)[y] == multiset(s)[y]
    ensures x !in s ==> r == s
  {
    if s == [] then []
    else
      assert s == [s[0]] + s[1..];
      if s[0] == x then RemoveAll(s[1..], x) else [s[0]] + RemoveAll(s[1..], x)
  }

  /** Removing distributes over concatenation, so the relative order of the
      remaining channels is kept. */
  lemma {:induction false} RemoveAllAppend<T>(a: seq<T>, b: seq<T>, x: T)
    ensures RemoveAll(a + b, x) == RemoveAll(a, x) + RemoveAll(b, x)
  {
    if a == [] {
      assert a + b == b;
    } else {
      assert (a + b)[0] == a[0] && (a + b)[1..] == a[1..] + b;
      RemoveAllAppend(a[1..], b, x);
    }
  }

  /** What routing and level combination read from a channel. */
  ghost function IdentOf(c: ScopeChannel): Ident
    reads c
  {
    Ident(c.universe, c.address, c.sixteenBit)
  }

  /** The identities of a channel list, entry by entry. */
  ghost function IdentsOf(chs: seq<ScopeChannel>): (ids: seq<Ident>)
    reads set c | c in chs
    ensures |ids| == |chs|
    ensures forall j :: 0 <= j < |chs| ==> ids[j] == IdentOf(chs[j])
  {
    if chs == [] then [] else IdentsOf(chs[..|chs| - 1]) + [IdentOf(chs[|chs| - 1])]
  }

  /** The enabled flags of a channel list, entry by entry. */
  ghost function EnabledOf(chs: seq<ScopeChannel>): (e: seq<bool>)
    reads set c | c in chs
    ensures |e| == |chs|
    ensures forall j :: 0 <= j < |chs| ==> e[j] == chs[j].enabled
  {
    if chs == [] then [] else EnabledOf(chs[..|chs| - 1]) + [chs[|chs| - 1].enabled]
  }

  /** Each channel object of a list mapped to its points since its last clear. */
  ghost function HistoriesOf(chs: seq<ScopeChannel>): (h: map<ScopeChannel, seq<Point>>)
    reads set c | c in chs
    ensures forall c :: c in chs ==> c in h && h[c] == c.History
    ensures forall j :: 0 <= j < |chs| ==> chs[j] in h && h[chs[j]] == chs[j].History
  {
    if chs == [] then map[]
    else
      var n := |chs| - 1;
      assert forall c :: c in chs ==> c in chs[..n] || c == chs[n];
      HistoriesOf(chs[..n])[chs[n] := chs[n].History]
  }

  /** `HistoriesOf` tracks exactly the listed channels. */
  lemma {:induction false} HistoriesOfKeys(chs: seq<ScopeChannel>)
    ensures HistoriesOf(chs).Keys == set c | c in chs
  {
    if chs != [] {
      var n := |chs| - 1;
      HistoriesOfKeys(chs[..n]);
      assert chs == chs[..n] + [chs[n]];
    }
  }

  /** The channels have the identities `ids` and enabled flags `en`. */
  ghost predicate Keeps(chs: seq<ScopeChannel>, ids: seq<Ident>, en: seq<bool>)
    reads set j | 0 <= j < |chs| :: chs[j]
  {
    && |ids| == |chs| && |en| == |chs|
    && forall j :: 0 <= j < |chs| ==> IdentOf(chs[j]) == ids[j] && chs[j].enabled == en[j]
  }

  /** During a pass: the channels keep the identities `ids` and flags `en` they had
      when it began, and each holds the points the pass state `st` assigns it. */
  ghost predicate Tracks(chs: seq<ScopeChannel>, ids: seq<Ident>, en: seq<bool>, st: PassState)
    reads set j | 0 <= j < |chs| :: chs[j]
  {
    && Keeps(chs, ids, en)
    && forall j :: 0 <= j < |chs| ==> chs[j] in st.histories && chs[j].History == st.histories[chs[j]]
  }

  class ScopeWidget {
    /** Milliseconds per horizontal division. */
    var timebase: int
    var running: bool
    var channels: seq<ScopeChannel>
    /** The monitor/unmonitor requests made of the listeners, oldest first. */
    ghost var Requests: seq<ListenerRequest>

    /** The channel objects of the list. */
    ghost function Channels(): (cs: set<ScopeChannel>)
      reads this
      ensures forall j :: 0 <= j < |channels| ==> channels[j] in cs
    {
      set c | c in channels
    }

    /** The channel objects of the list and their sample arrays. */
    ghost function Footprint(): (fp: set<object>)
      reads this
      ensures this !in fp
    {
      (set j | 0 <= j < |channels| :: channels[j] as object)
        + (set j | 0 <= j < |channels| :: channels[j].points as object)
    }

    /** Every channel keeps its ring invariant, and distinct channel objects have
        distinct sample storage. */
    ghost predicate Valid()
      reads this, Footprint()
    {
      && (forall j :: 0 <= j < |channels| ==> channels[j].Valid())
      && (forall j, k :: 0 <= j < |channels| && 0 <= k < |channels| && channels[j] != channels[k] ==>
            channels[j].points != channels[k].points)
    }

    /** A new widget is stopped, shows no channels and has a timebase of 10 ms. */
    constructor ()
      ensures Valid()
      ensures timebase == 10 && !running && channels == [] && Requests == []
    {
      timebase := 10;
      running := false;
      channels := [];
      Requests := [];
    }

    /** Changes the timebase only; the samples stay. */
    method SetTimebase(value: int)
      requires Valid()
      modifies this`timebase
      ensures Valid()
      ensures timebase == value
    {
      timebase := value;
    }

    /** Appends `c` to the channel list and asks its universe's listener to monitor
        its address. */
    method AddChannel(c: ScopeChannel)
      requires Valid() && c.Valid()
      requires forall j :: 0 <= j < |channels| && channels[j] != c ==> channels[j].points != c.points
      modifies this`channels, this`Requests
      ensures Valid()
      ensures channels == old(channels) + [c]
      ensures Requests == old(Requests) + [Monitor(c.universe, c.address)]
    {
      channels := channels + [c];
      Requests := Requests + [Monitor(c.universe, c.address)];
    }

    /** Removes every occurrence of `c` from the channel list and asks its universe's
        listener to stop monitoring its address. */
    method RemoveChannel(c: ScopeChannel)
      requires Valid()
      modifies this`channels, this`Requests
      ensures Valid()
      ensures channels == RemoveAll(old(channels), c)
      ensures Requests == old(Requests) + [Unmonitor(c.universe, c.address)]
    {
      ghost var before := channels;
      channels := RemoveAll(channels, c);
      Requests := Requests + [Unmonitor(c.universe, c.address)];
      forall j | 0 <= j < |channels|
        ensures exists k :: 0 <= k < |before| && before[k] == channels[j]
      {
        assert channels[j] in channels;
      }
    }

    /** Starts the scope: every channel in the list is cleared and ingest is switched on. */
    method Start()
      requires Valid()
      modifies this`running, Channels()
      ensures Valid()
      ensures running
      ensures forall j :: 0 <= j < |channels| ==>
                && channels[j].History == [] && channels[j].size == 0
                && channels[j].last == 0 && channels[j].highestTime == 0.0
                && IdentOf(channels[j]) == old(IdentOf(channels[j]))
                && channels[j].enabled == old(channels[j].enabled)
    {
      running := true;
      var chs := channels;
      for i := 0 to |chs|
        invariant running && channels == chs && Valid()
        invariant forall j :: 0 <= j < |chs| ==>
                    IdentOf(chs[j]) == old(IdentOf(chs[j])) && chs[j].enabled == old(chs[j].enabled)
        invariant forall j :: 0 <= j < i ==>
                    chs[j].History == [] && chs[j].size == 0 && chs[j].last == 0 && chs[j].highestTime == 0.0
      {
        assert chs[i] in chs;
        chs[i].Clear();
      }
    }

    /** Stops ingest; the samples stay for inspection. */
    method Stop()
      requires Valid()
      modifies this`running
      ensures Valid()
      ensures !running
    {
      running := false;
    }

    /** The level-change handler. `listenerUniverse` is the universe of the listener
        that sent the notification and `fine` the level it holds at address + 1. While
        stopped nothing changes; while running the handler walks the channel list as
        the intended Pass describes, every matching entry combining the notification's
        own coarse level (as written, the source rewrites the point's level in place
        and carries it to later entries; see CarriedLevelCounterexample). Either way
        every channel keeps its identity and enabled flag. */
    method DataReady(address: int, p: Point, listenerUniverse: int, fine: Byte)
      requires Valid()
      modifies Footprint()
      ensures Valid()
      ensures !running ==>
                Tracks(channels, old(IdentsOf(channels)), old(EnabledOf(channels)),
                       PassState(old(HistoriesOf(channels)), p.level))
      ensures running ==>
                Tracks(channels, old(IdentsOf(channels)), old(EnabledOf(channels)),
                       Pass(channels, old(IdentsOf(channels)), old(HistoriesOf(channels)),
                            Event(listenerUniverse, address, p, fine), timebase, false))
    {
      if running {
        Walk(Event(listenerUniverse, address, p, fine));
      }
    }

    /** The walk over the channel list that DataReady performs while running. */
    method Walk(ev: Event)
      requires Valid()
      modifies Footprint()
      ensures Valid()
      ensures Tracks(channels, old(IdentsOf(channels)), old(EnabledOf(channels)),
                     Pass(channels, old(IdentsOf(channels)), old(HistoriesOf(channels)), ev, timebase, false))
    {
      ghost var ids := IdentsOf(channels);
      ghost var en := EnabledOf(channels);
      ghost var h := HistoriesOf(channels);
      var chs := channels;
      ghost var st := PassState(h, ev.point.level);
      for i := 0 to |chs|
        invariant channels == chs && Valid()
        invariant st == Pass(chs[..i], ids[..i], h, ev, timebase, false)
        invariant Tracks(chs, ids, en, st)
      {
        PassExtend(chs, ids, h, ev, timebase, false, i);
        Offer(i, ev, ids, en, st);
        st := Step(st, chs[i], ids[i], ev, timebase, false);
      }
      assert chs[..|chs|] == chs && ids[..|chs|] == ids;
    }

    /** The handler's body for entry `i` of the channel list: a matching entry drops
        a point closer than a hundredth of the timebase to its highest time, and
        otherwise stores the notification's time with its coarse level * 255, plus the
        fine byte for sixteen-bit channels. The channels move as Step says. */
    method Offer(i: nat, ev: Event, ghost ids: seq<Ident>, ghost en: seq<bool>, ghost st: PassState)
      requires Valid() && i < |channels|
      requires Tracks(channels, ids, en, st)
      modifies channels[i], channels[i].points
      ensures Valid()
      ensures Tracks(channels, ids, en, Step(st, channels[i], ids[i], ev, timebase, false))
    {
      var ch := channels[i];
      var p := ev.point;
      if ch.address == ev.address && ch.universe == ev.universe {
        if p.time - ch.highestTime < timebase as real / 100.0 {
          return;
        }
        var level := if ch.sixteenBit then p.level * 255.0 + ev.fine as real else p.level * 255.0;
        Store(i, Point(p.time, level), ids, en, st);
      }
    }

    /** Appends `p` to entry `i`'s channel, which the pass state then records. */
    method Store(i: nat, p: Point, ghost ids: seq<Ident>, ghost en: seq<bool>, ghost st: PassState)
      requires Valid() && i < |channels|
      requires Tracks(channels, ids, en, st)
      modifies channels[i], channels[i].points
      ensures Valid()
      ensures Tracks(channels, ids, en, st.(histories := st.histories[channels[i] := st.histories[channels[i]] + [p]]))
    {
      var ch := channels[i];
      ghost var r := st.(histories := st.histories[ch := ch.History + [p]]);
      ch.AddPoint(p);
      forall j | 0 <= j < |channels|
        ensures channels[j] in r.histories && channels[j].History == r.histories[channels[j]]
      {
        if channels[j] != ch {
          assert channels[j].History == old(channels[j].History);
        }
      }
    }

    /** The decisions of one paint over a plot `width` wide: both axes' labels and,
        per channel in list order, nothing for a disabled channel and otherwise the
        path of its retained samples. */
    method Paint(width: real) returns (frame: Frame)
      requires Valid() && timebase != 0
      ensures frame.vertical == seq(11, i => 100 - 10 * i)
      ensures |frame.horizontal| == 11
      ensures forall i :: 0 <= i < 11 ==>
                frame.horizontal[i] == if timebase < 1000 then Millis(i * timebase)
                                       else Seconds(i * timebase / 1000)
      ensures |frame.traces| == |channels|
      ensures forall j :: 0 <= j < |channels| ==>
                frame.traces[j] == if !channels[j].enabled then Skipped
                                   else Drawn(TraceOf(channels[j].Samples(), channels[j].highestTime,
                                                      width, timebase))
    {
      var vertical := VerticalLabels();
      var horizontal := HorizontalLabels(timebase);
      var traces := [];
      for j := 0 to |channels|
        invariant |traces| == j
        invariant forall k :: 0 <= k < j ==>
                    traces[k] == if !channels[k].enabled then Skipped
                                 else Drawn(TraceOf(channels[k].Samples(), channels[k].highestTime,
                                                    width, timebase))
      {
        var ch := channels[j];
        if !ch.enabled {
          traces := traces + [Skipped];
          continue;
        }
        var path := TraceChannel(ch, width, timebase);
        traces := traces + [Drawn(path)];
      }
      frame := Frame(vertical, horizontal, traces);
    }
  }
}

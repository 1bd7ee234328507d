/** The ingest step of the scope: one level-change notification from a listener is
    routed to every channel watching the same (universe, address), thinned out by the
    decimation rule and turned into a stored level. */
module ScopeIngest {
  import opened ScopeChannels

  type Byte = x: int | 0 <= x < 256

  /** What routing and level combination look at in a channel. */
  datatype Ident = Ident(universe: int, address: int, sixteenBit: bool)

  /** One notification: the sending listener's universe, the changed address, the
      point (time and coarse level) and the fine byte the listener holds at the next
      address. */
  datatype Event = Event(universe: int, address: int, point: Point, fine: Byte)

  /** The state threaded through one pass over the channel list: each channel
      object's points since its last clear, and the level currently held in the
      handler's point. */
  datatype PassState = PassState(histories: map<ScopeChannel, seq<Point>>, level: real)

  /** Routing: the notification concerns the channel's universe and address. */
  predicate Matches(id: Ident, ev: Event)
  {
    id.universe == ev.universe && id.address == ev.address
  }

  /** Decimation: a point closer than a hundredth of the timebase to the channel's
      highest time is dropped. */
  predicate TooSoon(h: seq<Point>, time: real, timebase: int)
  {
    time - Highest(h) < timebase as real / 100.0
  }

  /** Coarse/fine combination: coarse * 255 + fine for sixteen-bit channels, coarse * 255
      otherwise. */
  function Combine(coarse: real, fine: Byte, sixteenBit: bool): (r: real)
    ensures 0.0 <= coarse <= 255.0 ==> 0.0 <= r <= 65280.0
    ensures !sixteenBit ==> r == coarse * 255.0
    ensures sixteenBit ==> r - fine as real == coarse * 255.0
  {
    if sixteenBit then coarse * 255.0 + fine as real else coarse * 255.0
  }

  /** What one channel does with one point offered to it. */
  function Ingest(h: seq<Point>, p: Point, timebase: int): seq<Point>
  {
    if TooSoon(h, p.time, timebase) then h else h + [p]
  }

  /** The handler's body for one entry of the channel list. A matching,
      non-decimated entry stores a point at the event's time whose level combines a
      coarse level with the fine byte. With `inPlace` (the handler as written) the
      coarse level is the one currently held in the handler's point, and the stored
      level replaces it for the entries that follow; without it (the intended
      handler) the coarse level is the notification's own and the held level stays.
      A channel the map does not track is left alone; the widget tracks all of its
      channels. */
  function Step(s: PassState, c: ScopeChannel, id: Ident, ev: Event, timebase: int, inPlace: bool): (r: PassState)
    ensures r.histories.Keys == s.histories.Keys
    ensures !inPlace ==> r.level == s.level
  {
    if !Matches(id, ev) || c !in s.histories then s
    else if TooSoon(s.histories[c], ev.point.time, timebase) then s
    else
      var y := Combine(if inPlace then s.level else ev.point.level, ev.fine, id.sixteenBit);
      PassState(s.histories[c := s.histories[c] + [Point(ev.point.time, y)]],
                if inPlace then y else s.level)
  }

  /** One pass of the handler over the channel list `chs` (with their identities
      `ids`), starting from the histories `h` and the event's own coarse level. */
  function Pass(chs: seq<ScopeChannel>, ids: seq<Ident>, h: map<ScopeChannel, seq<Point>>,
                ev: Event, timebase: int, inPlace: bool): (r: PassState)
    requires |chs| == |ids|
    ensures r.histories.Keys == h.Keys
    ensures !inPlace ==> r.level == ev.point.level
    decreases |chs|
  {
    if |chs| == 0 then PassState(h, ev.point.level)
    else
      var n := |chs| - 1;
      Step(Pass(chs[..n], ids[..n], h, ev, timebase, inPlace), chs[n], ids[n], ev, timebase, inPlace)
  }

  /** A pass over one more entry is the pass over the shorter prefix followed by one
      step for that entry: the handler walks the list front to back. */
  lemma PassExtend(chs: seq<ScopeChannel>, ids: seq<Ident>, h: map<ScopeChannel, seq<Point>>,
                   ev: Event, timebase: int, inPlace: bool, i: nat)
    requires |chs| == |ids| && i < |chs|
    ensures Pass(chs[..i + 1], ids[..i + 1], h, ev, timebase, inPlace)
            == Step(Pass(chs[..i], ids[..i], h, ev, timebase, inPlace), chs[i], ids[i], ev, timebase, inPlace)
  {
    assert chs[..i + 1][..i] == chs[..i] && ids[..i + 1][..i] == ids[..i];
  }

  /** A channel that no matching entry of the list refers to keeps its points. */
  lemma {:induction false} PassLeavesOthers(chs: seq<ScopeChannel>, ids: seq<Ident>,
                                            h: map<ScopeChannel, seq<Point>>, ev: Event,
                                            timebase: int, inPlace: bool, c: ScopeChannel)
    requires |chs| == |ids|
    requires c in h
    requires forall j :: 0 <= j < |chs| && chs[j] == c ==> !Matches(ids[j], ev)
    ensures Pass(chs, ids, h, ev, timebase, inPlace).histories[c] == h[c]
    decreases |chs|
  {
    if |chs| > 0 {
      var n := |chs| - 1;
      PassLeavesOthers(chs[..n], ids[..n], h, ev, timebase, inPlace, c);
    }
  }

  /** With a positive timebase every channel takes at most one point per
      notification: once a point is stored, the channel's highest time equals the
      event's time and a repeated entry is decimated. Every stored point is at least a
      hundredth of the timebase past the channel's previous highest time. */
  lemma {:induction false} PassAtMostOnePoint(chs: seq<ScopeChannel>, ids: seq<Ident>,
                                              h: map<ScopeChannel, seq<Point>>, ev: Event,
                                              timebase: int, inPlace: bool, c: ScopeChannel)
    requires |chs| == |ids|
    requires c in h
    requires timebase > 0
    ensures var r := Pass(chs, ids, h, ev, timebase, inPlace).histories[c];
            || r == h[c]
            || ((exists y :: r == h[c] + [Point(ev.point.time, y)]) &&
                ev.point.time - Highest(h[c]) >= timebase as real / 100.0)
    decreases |chs|
  {
    if |chs| > 0 {
      var n := |chs| - 1;
      PassAtMostOnePoint(chs[..n], ids[..n], h, ev, timebase, inPlace, c);
      var s := Pass(chs[..n], ids[..n], h, ev, timebase, inPlace);
      if chs[n] == c && s.histories[c] != h[c] {
        var y :| s.histories[c] == h[c] + [Point(ev.point.time, y)];
        assert Highest(s.histories[c]) == ev.point.time;
        assert TooSoon(s.histories[c], ev.point.time, timebase);
      }
    }
  }

  /** When exactly one entry of the list matches the notification, the channel it
      names gets exactly what Ingest prescribes for the combined level. */
  lemma {:induction false} PassLoneMatch(chs: seq<ScopeChannel>, ids: seq<Ident>,
                                         h: map<ScopeChannel, seq<Point>>, ev: Event,
                                         timebase: int, inPlace: bool, k: nat)
    requires |chs| == |ids|
    requires k < |chs| && chs[k] in h && Matches(ids[k], ev)
    requires forall j :: 0 <= j < |chs| && j != k ==> !Matches(ids[j], ev)
    ensures Pass(chs, ids, h, ev, timebase, inPlace).histories[chs[k]]
            == Ingest(h[chs[k]], Point(ev.point.time, Combine(ev.point.level, ev.fine, ids[k].sixteenBit)), timebase)
    decreases |chs|
  {
    var n := |chs| - 1;
    if k == n {
      PassLeavesOthers(chs[..n], ids[..n], h, ev, timebase, inPlace, chs[k]);
      PassUntouchedLevel(chs[..n], ids[..n], h, ev, timebase, inPlace);
    } else {
      PassLoneMatch(chs[..n], ids[..n], h, ev, timebase, inPlace, k);
    }
  }

  /** Without a matching entry the carried level is the event's own coarse level. */
  lemma {:induction false} PassUntouchedLevel(chs: seq<ScopeChannel>, ids: seq<Ident>,
                                              h: map<ScopeChannel, seq<Point>>, ev: Event,
                                              timebase: int, inPlace: bool)
    requires |chs| == |ids|
    requires forall j :: 0 <= j < |chs| ==> !Matches(ids[j], ev)
    ensures Pass(chs, ids, h, ev, timebase, inPlace).level == ev.point.level
    ensures Pass(chs, ids, h, ev, timebase, inPlace).histories == h
    decreases |chs|
  {
    if |chs| > 0 {
      var n := |chs| - 1;
      PassUntouchedLevel(chs[..n], ids[..n], h, ev, timebase, inPlace);
    }
  }

  /** Points are stored at least a hundredth of the timebase apart, counting from
      time 0 after a clear. */
  ghost predicate Spaced(h: seq<Point>, timebase: int)
  {
    forall k :: 0 <= k < |h| ==> h[k].time - Highest(h[..k]) >= timebase as real / 100.0
  }

  /** A pass keeps every channel's points spaced by the decimation threshold. */
  lemma {:induction false} PassKeepsSpacing(chs: seq<ScopeChannel>, ids: seq<Ident>,
                                            h: map<ScopeChannel, seq<Point>>, ev: Event,
                                            timebase: int, inPlace: bool, c: ScopeChannel)
    requires |chs| == |ids|
    requires c in h && Spaced(h[c], timebase)
    ensures Spaced(Pass(chs, ids, h, ev, timebase, inPlace).histories[c], timebase)
    decreases |chs|
  {
    if |chs| > 0 {
      var n := |chs| - 1;
      PassKeepsSpacing(chs[..n], ids[..n], h, ev, timebase, inPlace, c);
      var s := Pass(chs[..n], ids[..n], h, ev, timebase, inPlace);
      var r := Pass(chs, ids, h, ev, timebase, inPlace);
      if r.histories[c] != s.histories[c] {
        var old_h := s.histories[c];
        var new_h := r.histories[c];
        assert |new_h| == |old_h| + 1 && new_h[..|old_h|] == old_h;
        forall k | 0 <= k < |new_h|
          ensures new_h[k].time - Highest(new_h[..k]) >= timebase as real / 100.0
        {
          if k < |old_h| {
            assert new_h[..k] == old_h[..k];
          }
        }
      }
    }
  }

  /** Two eight-bit channel objects watching the same address. As written, the
      second one gets the first one's stored level multiplied by 255 again, because
      the handler rewrites its point's level in place before moving on; the intended
      handler stores coarse * 255 in both. */
  lemma CarriedLevelCounterexample(a: ScopeChannel, b: ScopeChannel)
    requires a != b
    ensures var ev := Event(1, 1, Point(100.0, 200.0), 0);
            var chs, ids := [a, b], [Ident(1, 1, false), Ident(1, 1, false)];
            var h := map[a := [], b := []];
            && Pass(chs, ids, h, ev, 10, true).histories[a] == [Point(100.0, 51000.0)]
            && Pass(chs, ids, h, ev, 10, true).histories[b] == [Point(100.0, 13005000.0)]
            && Pass(chs, ids, h, ev, 10, false).histories[a] == [Point(100.0, 51000.0)]
            && Pass(chs, ids, h, ev, 10, false).histories[b] == [Point(100.0, 51000.0)]
  {
    var ev := Event(1, 1, Point(100.0, 200.0), 0);
    var chs, ids := [a, b], [Ident(1, 1, false), Ident(1, 1, false)];
    var h := map[a := [], b := []];
    assert chs[..1] == [a] && ids[..1] == [Ident(1, 1, false)];
    assert [a][..0] == [] && ids[..1][..0] == [];
    var s1 := Pass([a], [Ident(1, 1, false)], h, ev, 10, true);
    assert s1 == Step(Pass([], [], h, ev, 10, true), a, Ident(1, 1, false), ev, 10, true);
    assert s1.histories[a] == [Point(100.0, 51000.0)] && s1.level == 51000.0;
    var t1 := Pass([a], [Ident(1, 1, false)], h, ev, 10, false);
    assert t1 == Step(Pass([], [], h, ev, 10, false), a, Ident(1, 1, false), ev, 10, false);
    assert t1.histories[b] == [];
  }

  /** In the intended pass a coarse level in 0..255 only ever stores levels in
      0..65280, in every channel, however many entries match. */
  lemma {:induction false} IntendedPassLevelsBounded(chs: seq<ScopeChannel>, ids: seq<Ident>,
                                                     h: map<ScopeChannel, seq<Point>>, ev: Event,
                                                     timebase: int, c: ScopeChannel)
    requires |chs| == |ids|
    requires c in h
    requires 0.0 <= ev.point.level <= 255.0
    ensures var r := Pass(chs, ids, h, ev, timebase, false).histories[c];
            && |h[c]| <= |r| && r[..|h[c]|] == h[c]
            && forall k :: |h[c]| <= k < |r| ==> 0.0 <= r[k].level <= 65280.0
    decreases |chs|
  {
    if |chs| > 0 {
      var n := |chs| - 1;
      IntendedPassLevelsBounded(chs[..n], ids[..n], h, ev, timebase, c);
      var s := Pass(chs[..n], ids[..n], h, ev, timebase, false).histories[c];
      var r := Pass(chs, ids, h, ev, timebase, false).histories[c];
      if r != s {
        assert r[..|s|] == s;
        assert r[..|h[c]|] == s[..|h[c]|];
      }
    }
  }

  /** In the intended pass every channel of the map gets exactly what Ingest
      prescribes for the point its first matching entry combines, however many
      entries of the list name it or share its (universe, address); the later
      matching entries of the same channel are decimated. (A channel without a
      matching entry keeps its points: PassLeavesOthers.) */
  lemma {:induction false} IntendedPassPerChannel(chs: seq<ScopeChannel>, ids: seq<Ident>,
                                                  h: map<ScopeChannel, seq<Point>>, ev: Event,
                                                  timebase: int, c: ScopeChannel, k: nat)
    requires |chs| == |ids| && timebase > 0 && c in h
    requires k < |chs| && chs[k] == c && Matches(ids[k], ev)
    requires forall j :: 0 <= j < k && chs[j] == c ==> !Matches(ids[j], ev)
    ensures Pass(chs, ids, h, ev, timebase, false).histories[c]
            == Ingest(h[c], Point(ev.point.time, Combine(ev.point.level, ev.fine, ids[k].sixteenBit)), timebase)
    decreases |chs|
  {
    var n := |chs| - 1;
    var s := Pass(chs[..n], ids[..n], h, ev, timebase, false);
    if k == n {
      PassLeavesOthers(chs[..n], ids[..n], h, ev, timebase, false, c);
    } else {
      IntendedPassPerChannel(chs[..n], ids[..n], h, ev, timebase, c, k);
      if chs[n] == c && Matches(ids[n], ev) && s.histories[c] != h[c] {
        assert Highest(s.histories[c]) == ev.point.time;
        assert TooSoon(s.histories[c], ev.point.time, timebase);
      }
    }
  }

  /** Right after a clear the highest time is 0, so a first point earlier than a
      hundredth of the timebase is dropped. */
  lemma ClearedChannelDropsEarlyPoint(p: Point, timebase: int)
    ensures Ingest([], p, timebase) == [] <==> p.time < timebase as real / 100.0
  {
  }
}

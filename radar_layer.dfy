/** The radar layer: the frame list loaded from the radar index, the animation cursor
    advanced by an interval timer, the timer handle kept in `intervalRef`, and the stack of
    tile layers drawn for the frames. */
module RadarLayer {
  import opened Wrappers

  /** One radar frame descriptor: its epoch time in seconds and its tile-path fragment. */
  datatype Frame = Frame(time: int, path: string)

  /** `data.radar`: the two frame lists, either of which may be missing. */
  datatype RadarIndex = RadarIndex(past: Option<seq<Frame>>, nowcast: Option<seq<Frame>>)

  /** How `fetchFrames` ends: a parsed radar index, or any thrown error (logged only). */
  datatype FetchOutcome = Loaded(radar: RadarIndex) | FetchFailed(message: string)

  // ---------------------------------------------------------------------------
  // The frame list

  /** `[...(past || []), ...(nowcast || [])]`: every past frame, then every nowcast frame,
      each group in feed order. */
  function AllFrames(radar: RadarIndex): (r: seq<Frame>)
    ensures |r| == |radar.past.GetOr([])| + |radar.nowcast.GetOr([])|
    ensures r[..|radar.past.GetOr([])|] == radar.past.GetOr([])
    ensures r[|radar.past.GetOr([])|..] == radar.nowcast.GetOr([])
  {
    radar.past.GetOr([]) + radar.nowcast.GetOr([])
  }

  predicate Chronological(frames: seq<Frame>) {
    forall i, j :: 0 <= i < j < |frames| ==> frames[i].time < frames[j].time
  }

  /** When each list is chronological and the last past frame precedes the first nowcast
      frame, the combined list is chronological: concatenation never reorders. */
  lemma AllFramesChronological(radar: RadarIndex)
    requires Chronological(radar.past.GetOr([])) && Chronological(radar.nowcast.GetOr([]))
    requires forall p, q :: p in radar.past.GetOr([]) && q in radar.nowcast.GetOr([]) ==> p.time < q.time
    ensures Chronological(AllFrames(radar))
  {
  }

  // ---------------------------------------------------------------------------
  // The animation cursor

  /** The tick update `prevIndex + 1`, or 0 once that reaches the frame count: the
      successor modulo the count, so an in-range cursor stays in range. */
  function NextIndex(prev: nat, count: nat): (r: nat)
    ensures prev < count ==> r < count && r == (prev + 1) % count
  {
    if prev + 1 >= count then 0 else prev + 1
  }

  /** The cursor after `k` ticks from `start`. */
  function Ticks(start: nat, k: nat, count: nat): nat
    decreases k
  {
    if k == 0 then start else NextIndex(Ticks(start, k - 1, count), count)
  }

  /** Ticking `a` times and then `b` times is ticking `a + b` times. */
  lemma {:induction false} TicksCompose(start: nat, a: nat, b: nat, count: nat)
    ensures Ticks(start, a + b, count) == Ticks(Ticks(start, a, count), b, count)
    decreases b
  {
    if b > 0 {
      TicksCompose(start, a, b - 1, count);
    }
  }

  /** Before the end of the list, the cursor after `k` ticks from 0 is `k`. */
  lemma {:induction false} TicksBelowCount(k: nat, count: nat)
    requires k < count
    ensures Ticks(0, k, count) == k
    decreases k
  {
    if k > 0 {
      TicksBelowCount(k - 1, count);
    }
  }

  /** A full cycle: `count` ticks from 0 return to 0 and visit every index exactly once on
      the way, in the order 0, 1, ..., count - 1. */
  lemma FullCycle(count: nat)
    requires count > 0
    ensures Ticks(0, count, count) == 0
    ensures forall k :: 0 <= k < count ==> Ticks(0, k, count) == k
  {
    TicksBelowCount(count - 1, count);
    forall k | 0 <= k < count ensures Ticks(0, k, count) == k {
      TicksBelowCount(k, count);
    }
  }

  /** The animation is periodic: `count` more ticks bring the cursor back to where it was. */
  lemma Periodic(k: nat, count: nat)
    requires count > 0
    ensures Ticks(0, count + k, count) == Ticks(0, k, count)
  {
    TicksCompose(0, count, k, count);
    FullCycle(count);
  }

  /** With three frames the cursor goes 0, 1, 2 and back to 0. */
  lemma ThreeFrameCycle()
    ensures Ticks(0, 1, 3) == 1 && Ticks(0, 2, 3) == 2 && Ticks(0, 3, 3) == 0
  {
  }

  // ---------------------------------------------------------------------------
  // Rendering

  const TileBaseUrl := "https://tilecache.rainviewer.com"
  /** Tile size 256, colour scheme 2, smoothing and snow both on. */
  const TileSuffix := "/256/{z}/{x}/{y}/2/1_1.png"

  /** The tile URL template of a frame: the base host, the frame's path, the fixed suffix. */
  function TileUrl(path: string): (url: string)
    ensures |url| == |TileBaseUrl| + |path| + |TileSuffix|
  {
    TileBaseUrl + path + TileSuffix
  }

  /** The path a tile URL was built from. */
  function PathOfUrl(url: string): string
    requires |url| >= |TileBaseUrl| + |TileSuffix|
  {
    url[|TileBaseUrl|..|url| - |TileSuffix|]
  }

  /** The URL determines the path, so distinct paths give distinct tile URLs. */
  lemma TileUrlRoundTrip(path: string)
    ensures PathOfUrl(TileUrl(path)) == path
    ensures TileUrl(path)[..|TileBaseUrl|] == TileBaseUrl
    ensures TileUrl(path)[|TileBaseUrl| + |path|..] == TileSuffix
  {
  }

  lemma TileUrlInjective(p: string, q: string)
    ensures TileUrl(p) == TileUrl(q) ==> p == q
  {
    TileUrlRoundTrip(p);
    TileUrlRoundTrip(q);
  }

  /** The two opacities a tile layer is given: 0.8 for the shown frame, 0 otherwise. */
  datatype Opacity = Shown | Hidden

  const VisibleZIndex := 5
  const HiddenZIndex := 4

  /** The props of one `TileLayer`. */
  datatype TileLayer = TileLayer(key: int, url: string, opacity: Opacity, zIndex: int)

  /** The layer drawn for frame `index` when the cursor is at `current`. */
  function LayerAt(frame: Frame, index: nat, current: nat): (r: TileLayer)
    ensures r.key == frame.time && r.url == TileUrl(frame.path)
    ensures r.opacity == Shown <==> index == current
    ensures r.zIndex == VisibleZIndex <==> index == current
    ensures r.zIndex == HiddenZIndex <==> index != current
  {
    TileLayer(
      frame.time,
      TileUrl(frame.path),
      if index == current then Shown else Hidden,
      if index == current then VisibleZIndex else HiddenZIndex)
  }

  /** What the component returns: `None` (`null`) for an empty frame list, else one layer
      per frame, in frame order. */
  function Render(frames: seq<Frame>, current: nat): (r: Option<seq<TileLayer>>)
    ensures r.None? <==> frames == []
    ensures r.Some? ==> |r.value| == |frames|
  {
    if |frames| == 0 then None
    else Some(seq(|frames|, i requires 0 <= i < |frames| => LayerAt(frames[i], i, current)))
  }

  /** The number of layers that are shown. */
  function CountShown(layers: seq<TileLayer>): nat
    decreases |layers|
  {
    if layers == [] then 0
    else CountShown(layers[..|layers| - 1]) + (if layers[|layers| - 1].opacity == Shown then 1 else 0)
  }

  /** Only the layer at `at` is shown, so the count of shown layers is one. */
  lemma {:induction false} CountShownSingle(layers: seq<TileLayer>, at: nat)
    requires at < |layers|
    requires forall i :: 0 <= i < |layers| ==> (layers[i].opacity == Shown <==> i == at)
    ensures CountShown(layers) == 1
    decreases |layers|
  {
    var n := |layers| - 1;
    if n == at {
      CountShownNone(layers[..n]);
    } else {
      CountShownSingle(layers[..n], at);
    }
  }

  lemma {:induction false} CountShownNone(layers: seq<TileLayer>)
    requires forall i :: 0 <= i < |layers| ==> layers[i].opacity == Hidden
    ensures CountShown(layers) == 0
    decreases |layers|
  {
    if layers != [] {
      CountShownNone(layers[..|layers| - 1]);
    }
  }

  /** For an in-range cursor exactly one layer is visible: the cursor's layer has opacity 0.8
      and zIndex 5, every other layer opacity 0 and zIndex 4, and each layer keeps its frame's
      key and tile URL. */
  lemma ExactlyOneShown(frames: seq<Frame>, current: nat)
    requires current < |frames|
    ensures Render(frames, current).Some?
    ensures var layers := Render(frames, current).value;
      && CountShown(layers) == 1
      && (forall i :: 0 <= i < |layers| ==>
            && (layers[i].opacity == Shown <==> i == current)
            && (layers[i].zIndex == VisibleZIndex <==> i == current)
            && (layers[i].zIndex == HiddenZIndex <==> i != current)
            && layers[i].key == frames[i].time
            && layers[i].url == TileUrl(frames[i].path))
  {
    CountShownSingle(Render(frames, current).value, current);
  }

  // ---------------------------------------------------------------------------
  // The component's state

  /** The radar layer component between mount and unmount. `intervalRef` is
      `intervalRef.current` (`None` is `null`); `liveTimers` are the interval handles this
      component has installed and not yet cleared; `tickCount` is the `frames.length` the
      live interval's callback closed over. Timer handles are positive, hence truthy. */
  class RadarLayerState {
    var frames: seq<Frame>
    var current: nat
    var intervalRef: Option<nat>
    var liveTimers: set<nat>
    var tickCount: nat
    var nextHandle: nat
    var mounted: bool
    var awaitingFetch: bool

    ghost predicate Valid()
      reads this
    {
      && 1 <= nextHandle
      && (intervalRef.Some? ==> 1 <= intervalRef.value < nextHandle)
      // at most one live interval, and it is the one the ref holds
      && liveTimers <= (if intervalRef.Some? then {intervalRef.value} else {})
      && (!mounted ==> liveTimers == {})
      // while mounted, the animation runs exactly when there are frames
      && (mounted ==> (liveTimers != {} <==> |frames| > 0))
      && (liveTimers != {} ==> tickCount == |frames|)
      // the cursor is in range (and 0 with no frames)
      && (|frames| > 0 ==> current < |frames|)
      && (|frames| == 0 ==> current == 0)
      && (awaitingFetch ==> frames == [] && intervalRef == None)
    }

    /** The first render and the mount effect: empty frames, cursor 0, a null ref, and the
        one frame fetch issued. */
    constructor ()
      ensures Valid()
      ensures frames == [] && current == 0 && intervalRef == None && liveTimers == {}
      ensures mounted && awaitingFetch
    {
      frames := [];
      current := 0;
      intervalRef := None;
      liveTimers := {};
      tickCount := 0;
      nextHandle := 1;
      mounted := true;
      awaitingFetch := true;
    }

    /** `clearInterval(handle)`. */
    method ClearInterval(handle: nat)
      modifies this`liveTimers
      ensures liveTimers == old(liveTimers) - {handle}
    {
      liveTimers := liveTimers - {handle};
    }

    /** `setInterval(tick, 700)`: a fresh handle, live from now on, whose callback sees
        the current frame count. */
    method SetInterval() returns (handle: nat)
      modifies this`liveTimers, this`nextHandle, this`tickCount
      ensures handle == old(nextHandle) && nextHandle == old(nextHandle) + 1
      ensures liveTimers == old(liveTimers) + {handle}
      ensures tickCount == |frames|
    {
      handle := nextHandle;
      nextHandle := nextHandle + 1;
      liveTimers := liveTimers + {handle};
      tickCount := |frames|;
    }

    /** The effect that runs when `frames` changes: with frames present, clear the interval
        the ref holds, then install a new one in the ref; with no frames, nothing. */
    method OnFramesChanged()
      requires mounted && !awaitingFetch
      requires |frames| > 0 ==> current < |frames|
      requires |frames| == 0 ==> current == 0
      requires 1 <= nextHandle && (intervalRef.Some? ==> 1 <= intervalRef.value < nextHandle)
      requires liveTimers <= (if intervalRef.Some? then {intervalRef.value} else {})
      requires |frames| == 0 ==> liveTimers == {}
      modifies this`liveTimers, this`nextHandle, this`tickCount, this`intervalRef
      ensures Valid()
      ensures |frames| > 0 ==>
        intervalRef == Some(old(nextHandle)) && liveTimers == {old(nextHandle)} && tickCount == |frames|
      ensures |frames| == 0 ==> unchanged(this`liveTimers, this`nextHandle, this`tickCount, this`intervalRef)
    {
      if |frames| > 0 {
        if intervalRef.Some? {
          ClearInterval(intervalRef.value);
        }
        var handle := SetInterval();
        intervalRef := Some(handle);
      }
    }

    /** The response of the frame fetch. While mounted, a loaded index sets `frames` to
        past then nowcast, resets the cursor and re-runs the frames effect; a failure
        changes nothing. A response after unmount changes nothing either. */
    method ApplyFetch(outcome: FetchOutcome)
      requires Valid() && awaitingFetch
      modifies this
      ensures Valid() && !awaitingFetch
      ensures mounted == old(mounted)
      ensures mounted && outcome.Loaded? ==>
        && frames == AllFrames(outcome.radar) && current == 0
        && (|frames| > 0 ==> intervalRef == Some(old(nextHandle)) && liveTimers == {old(nextHandle)})
        && (|frames| == 0 ==> intervalRef == None && liveTimers == {})
      ensures !mounted || outcome.FetchFailed? ==>
        frames == old(frames) && current == old(current) &&
        intervalRef == old(intervalRef) && liveTimers == old(liveTimers)
    {
      awaitingFetch := false;
      if mounted && outcome.Loaded? {
        frames := AllFrames(outcome.radar);
        current := 0;
        OnFramesChanged();
      }
    }

    /** One firing of a live interval: `setCurrentFrameIndex(prev => ...)` with the frame
        count the callback closed over, which is the current one. */
    method Tick(handle: nat)
      requires Valid() && handle in liveTimers
      modifies this`current
      ensures Valid()
      ensures current == NextIndex(old(current), |frames|)
      ensures current < |frames|
    {
      current := NextIndex(current, tickCount);
    }

    /** The mount effect's cleanup: clear the interval the ref holds, if any. */
    method Unmount()
      requires Valid() && mounted
      modifies this`liveTimers, this`mounted
      ensures Valid() && !mounted && liveTimers == {}
    {
      if intervalRef.Some? {
        ClearInterval(intervalRef.value);
      }
      mounted := false;
    }

    /** At most one interval is ever live. */
    lemma AtMostOneLive()
      requires Valid()
      ensures |liveTimers| <= 1
    {
      var bound := if intervalRef.Some? then {intervalRef.value} else {};
      assert |bound| <= 1;
      SubsetCardinality(liveTimers, bound);
    }

    /** The layers currently drawn. */
    function View(): (r: Option<seq<TileLayer>>)
      reads this
      requires Valid()
      ensures r.None? <==> frames == []
      ensures r.Some? ==> CountShown(r.value) == 1
      ensures frames != [] ==> r == Render(frames, current)
    {
      if frames == [] then None
      else
        ExactlyOneShown(frames, current);
        Render(frames, current)
    }
  }

  lemma SubsetCardinality(a: set<nat>, b: set<nat>)
    requires a <= b
    ensures |a| <= |b|
  {
    assert b == a + (b - a);
  }

  /** The three-frame animation in terms of the component: load, then three ticks visit
      0, 1, 2 and return to 0 with exactly one layer shown each time; unmount stops it. */
  method ThreeFrameAnimation(f0: Frame, f1: Frame, f2: Frame)
  {
    var layer := new RadarLayerState();
    layer.ApplyFetch(Loaded(RadarIndex(Some([f0, f1, f2]), None)));
    assert layer.frames == [f0, f1, f2] && layer.current == 0;
    var handle := layer.intervalRef.value;
    assert layer.View().Some? && CountShown(layer.View().value) == 1;
    layer.Tick(handle);
    assert layer.current == 1;
    layer.Tick(handle);
    assert layer.current == 2;
    layer.Tick(handle);
    assert layer.current == 0;
    layer.Unmount();
    assert layer.liveTimers == {};
  }
}

/**
 Translation of a receiver's legacy signalling (selected, pinned and
 recv-video endpoint sets plus a maximum frame height) into a map from
 endpoint id to video constraints, as done by the bridge's
 VideoConstraintsCompatibility class.
 */
module VideoConstraintsCompat {

  /** Java `int` range. */
  const INT_MIN: int := -0x8000_0000
  const INT_MAX: int := 0x7fff_ffff
  type Int32 = x: int | INT_MIN <= x <= INT_MAX

  datatype Option<T> = None | Some(value: T)

  /**
   The constraints a receiver puts on one sender's video: an ideal height,
   and optionally a preferred height and a preferred frame rate.
   */
  datatype VideoConstraints = VideoConstraints(
    idealHeight: Int32,
    preferredHeight: Option<Int32>,
    preferredFps: Option<real>)

  /** The one-argument constructor: an ideal height and no preferences. */
  function IdealOnly(height: Int32): VideoConstraints
  {
    VideoConstraints(height, None, None)
  }

  /** The bridge configuration values read while computing constraints. */
  datatype BitrateControllerConfig = BitrateControllerConfig(
    onstageIdealHeightPx: Int32,
    onstagePreferredHeightPx: Int32,
    onstagePreferredFramerate: real,
    thumbnailMaxHeightPx: Int32,
    thumbnailVideoConstraints: VideoConstraints)

  /** The four fields last signalled by the receiving endpoint. */
  datatype Signaling = Signaling(
    pinned: set<string>,
    selected: set<string>,
    recvVideo: set<string>,
    maxFrameHeight: Int32)

  /** What the receiver is assumed to have signalled before any message. */
  const InitialSignaling: Signaling := Signaling({}, {}, {}, INT_MAX)

  /** Java's `Math.min` on two ints. */
  function Min(a: Int32, b: Int32): (r: Int32)
    ensures r <= a && r <= b
    ensures r == a || r == b
  {
    if a <= b then a else b
  }

  /** Exactly one selected endpoint means large view; none or several mean tile view. */
  predicate InLargeView(s: Signaling)
  {
    |s.selected| == 1
  }

  /** Large view is exactly a selection of one single endpoint. */
  lemma LargeViewIsSingleSelection(s: Signaling)
    ensures InLargeView(s) <==> exists e :: e in s.selected && s.selected == {e}
    ensures |s.selected| == 0 ==> !InLargeView(s)
    ensures |s.selected| >= 2 ==> !InLargeView(s)
  {
    if InLargeView(s) {
      var e :| e in s.selected;
      assert |s.selected - {e}| == 0;
      assert s.selected == {e};
    }
  }

  /** The constraints of the on-stage (selected) endpoint in large view. */
  function OnstageConstraints(s: Signaling, cfg: BitrateControllerConfig): VideoConstraints
  {
    VideoConstraints(
      Min(cfg.onstageIdealHeightPx, s.maxFrameHeight),
      Some(cfg.onstagePreferredHeightPx),
      Some(cfg.onstagePreferredFramerate))
  }

  /** The constraints of every pinned endpoint. */
  function PinnedConstraints(s: Signaling, cfg: BitrateControllerConfig): VideoConstraints
  {
    IdealOnly(Min(cfg.thumbnailMaxHeightPx, s.maxFrameHeight))
  }

  /**
   The constraints given to the recv-video endpoints, computed with the two
   nested conditionals of the source. Whatever the view, both choices end
   in the thumbnail constraints.
   */
  function RecvVideoViewConstraints(s: Signaling, cfg: BitrateControllerConfig): (c: VideoConstraints)
    ensures c == cfg.thumbnailVideoConstraints
  {
    var tileViewConstraints :=
      if InLargeView(s) then IdealOnly(Min(cfg.onstageIdealHeightPx, s.maxFrameHeight))
      else cfg.thumbnailVideoConstraints;
    if InLargeView(s) then cfg.thumbnailVideoConstraints else tileViewConstraints
  }

  /** Every endpoint of `endpoints` mapped to the same constraints. */
  function Uniform(endpoints: set<string>, c: VideoConstraints): (m: map<string, VideoConstraints>)
    ensures m.Keys == endpoints
    ensures forall e :: e in m ==> m[e] == c
  {
    map e | e in endpoints :: c
  }

  /** First layer: the recv-video endpoints. */
  function RecvVideoLayer(s: Signaling, cfg: BitrateControllerConfig): (m: map<string, VideoConstraints>)
    ensures m.Keys == s.recvVideo
    ensures forall e :: e in m ==> m[e] == cfg.thumbnailVideoConstraints
  {
    if s.recvVideo != {} then Uniform(s.recvVideo, RecvVideoViewConstraints(s, cfg)) else map[]
  }

  /** Second layer: the selected endpoint, in large view only. */
  function SelectedLayer(s: Signaling, cfg: BitrateControllerConfig): (m: map<string, VideoConstraints>)
    ensures m.Keys == if |s.selected| == 1 then s.selected else {}
    ensures forall e :: e in m ==> m[e] == OnstageConstraints(s, cfg)
  {
    if InLargeView(s) then Uniform(s.selected, OnstageConstraints(s, cfg)) else map[]
  }

  /** Third layer: the pinned endpoints. */
  function PinnedLayer(s: Signaling, cfg: BitrateControllerConfig): (m: map<string, VideoConstraints>)
    ensures m.Keys == s.pinned
    ensures forall e :: e in m ==> m[e] == PinnedConstraints(s, cfg)
  {
    if s.pinned != {} then Uniform(s.pinned, PinnedConstraints(s, cfg)) else map[]
  }

  /**
   The constraints map for signalling `s`: the three layers, each later one
   overriding the earlier ones on the endpoints they share.
   */
  function VideoConstraintsOf(s: Signaling, cfg: BitrateControllerConfig): (r: map<string, VideoConstraints>)
    // exactly the recv-video and pinned endpoints, plus the selected one in large view
    ensures r.Keys == s.recvVideo + s.pinned + (if |s.selected| == 1 then s.selected else {})
    // pinned is written last, so it wins even over a selected endpoint
    ensures forall e :: e in s.pinned ==>
      r[e] == IdealOnly(Min(cfg.thumbnailMaxHeightPx, s.maxFrameHeight))
    ensures forall e :: e in s.selected && |s.selected| == 1 && e !in s.pinned ==>
      r[e] == VideoConstraints(
        Min(cfg.onstageIdealHeightPx, s.maxFrameHeight),
        Some(cfg.onstagePreferredHeightPx),
        Some(cfg.onstagePreferredFramerate))
    // every other endpoint is a recv-video one and gets the thumbnail constraints, in either view
    ensures forall e :: e in r && e !in s.pinned && !(|s.selected| == 1 && e in s.selected) ==>
      e in s.recvVideo && r[e] == cfg.thumbnailVideoConstraints
  {
    var recv, selected, pinned := RecvVideoLayer(s, cfg), SelectedLayer(s, cfg), PinnedLayer(s, cfg);
    recv + selected + pinned
  }

  /** In tile view, and with nothing selected, the selected set has no effect at all. */
  lemma TileViewIgnoresSelected(s: Signaling, cfg: BitrateControllerConfig)
    requires |s.selected| != 1
    ensures VideoConstraintsOf(s, cfg) == VideoConstraintsOf(s.(selected := {}), cfg)
    ensures forall e :: e in s.selected && e !in s.recvVideo && e !in s.pinned ==>
      e !in VideoConstraintsOf(s, cfg)
  {
    var s0 := s.(selected := {});
    assert SelectedLayer(s, cfg) == map[] == SelectedLayer(s0, cfg);
    assert RecvVideoLayer(s, cfg) == RecvVideoLayer(s0, cfg);
    assert PinnedLayer(s, cfg) == PinnedLayer(s0, cfg);
  }

  /** An endpoint both pinned and selected gets the pinned constraints, without preferences. */
  lemma PinnedWinsOverSelected(s: Signaling, cfg: BitrateControllerConfig, e: string)
    requires e in s.pinned && e in s.selected
    ensures e in VideoConstraintsOf(s, cfg)
    ensures VideoConstraintsOf(s, cfg)[e] == PinnedConstraints(s, cfg)
    ensures VideoConstraintsOf(s, cfg)[e].preferredHeight == None
    ensures VideoConstraintsOf(s, cfg)[e].preferredFps == None
  {
  }

  /** A recv-video endpoint that is neither pinned nor on stage gets the thumbnail constraints in both views. */
  lemma RecvOnlyIsThumbnail(s: Signaling, cfg: BitrateControllerConfig, e: string)
    requires e in s.recvVideo && e !in s.pinned && !(InLargeView(s) && e in s.selected)
    ensures e in VideoConstraintsOf(s, cfg)
    ensures VideoConstraintsOf(s, cfg)[e] == cfg.thumbnailVideoConstraints
    ensures VideoConstraintsOf(s, cfg)[e] == VideoConstraintsOf(s.(selected := {}), cfg)[e]
  {
  }

  /**
   The ideal height of a pinned or on-stage endpoint never exceeds the
   signalled maximum, and equals the configured height under the initial
   maximum `INT_MAX`.
   */
  lemma IdealHeightCapped(s: Signaling, cfg: BitrateControllerConfig, e: string)
    requires e in s.pinned || (InLargeView(s) && e in s.selected)
    ensures e in VideoConstraintsOf(s, cfg)
    ensures VideoConstraintsOf(s, cfg)[e].idealHeight <= s.maxFrameHeight
    ensures s.maxFrameHeight == INT_MAX ==>
      VideoConstraintsOf(s, cfg)[e].idealHeight ==
        (if e in s.pinned then cfg.thumbnailMaxHeightPx else cfg.onstageIdealHeightPx)
  {
  }

  /** Nothing signalled, nothing constrained. */
  lemma NoEndpointsNoConstraints(s: Signaling, cfg: BitrateControllerConfig)
    requires s.pinned == {} && s.selected == {} && s.recvVideo == {}
    ensures VideoConstraintsOf(s, cfg) == map[]
  {
  }

  /** The receiver's signalling state, updated in place by its setters. */
  class VideoConstraintsCompatibility {
    var pinnedEndpoints: set<string>
    var selectedEndpoints: set<string>
    var recvVideoEndpoints: set<string>
    var maxFrameHeight: Int32

    /** The four fields as one value. */
    function Signal(): Signaling
      reads this
    {
      Signaling(pinnedEndpoints, selectedEndpoints, recvVideoEndpoints, maxFrameHeight)
    }

    constructor ()
      ensures Signal() == InitialSignaling
    {
      pinnedEndpoints := {};
      selectedEndpoints := {};
      recvVideoEndpoints := {};
      maxFrameHeight := INT_MAX;
    }

    /**
     Fills a fresh map layer by layer from the current fields; changes no
     field (there is no `modifies` clause).
     */
    method ComputeVideoConstraints(cfg: BitrateControllerConfig) returns (r: map<string, VideoConstraints>)
      ensures r == VideoConstraintsOf(Signal(), cfg)
    {
      var s := Signal();
      r := map[];
      if s.recvVideo != {} {
        r := Uniform(s.recvVideo, RecvVideoViewConstraints(s, cfg));
      }
      ghost var afterRecv := r;
      assert afterRecv == RecvVideoLayer(s, cfg);
      if InLargeView(s) {
        r := r + Uniform(s.selected, OnstageConstraints(s, cfg));
      }
      assert r == afterRecv + SelectedLayer(s, cfg);
      ghost var afterSelected := r;
      if s.pinned != {} {
        r := r + Uniform(s.pinned, PinnedConstraints(s, cfg));
      }
      assert r == afterSelected + PinnedLayer(s, cfg);
    }

    method SetPinnedEndpoints(newPinnedEndpoints: set<string>)
      modifies this
      ensures Signal() == old(Signal()).(pinned := newPinnedEndpoints)
    {
      pinnedEndpoints := newPinnedEndpoints;
    }

    method SetMaxFrameHeight(newMaxFrameHeight: Int32)
      modifies this
      ensures Signal() == old(Signal()).(maxFrameHeight := newMaxFrameHeight)
    {
      maxFrameHeight := newMaxFrameHeight;
    }

    method SetSelectedEndpoints(newSelectedEndpoints: set<string>)
      modifies this
      ensures Signal() == old(Signal()).(selected := newSelectedEndpoints)
    {
      selectedEndpoints := newSelectedEndpoints;
    }

    method SetRecvVideoEndpoints(newRecvVideoEndpoints: set<string>)
      modifies this
      ensures Signal() == old(Signal()).(recvVideo := newRecvVideoEndpoints)
    {
      recvVideoEndpoints := newRecvVideoEndpoints;
    }
  }
}

/** The `Animation` class: the tables loaded once from the exported description, and the
    playback state that `change_layer`, `change_tag` and `update` change in place. Each method
    is proved to leave the state the matching function of the playback module gives. */
module Aseprite {
  import opened Wrappers
  import opened Labels
  import opened Metadata
  import opened Playback

  class Animation {
    const format: string
    const imageSize: Size
    const scale: int
    const frames: FrameTable
    const frameTags: map<string, Tag>
    const layers: map<string, Layer>
    /** The key order of `frameTags` and `layers`, as the dictionaries keep it. */
    const tagNames: seq<string>
    const layerNames: seq<string>

    var currentLayer: string
    var currentTag: string
    var currentFrame: nat
    /** Time spent on the current frame, in milliseconds. */
    var elapsedTime: nat
    /** What the surface shows; None until it is first drawn. */
    var surface: Option<View>

    function State(): PlayState
      reads this
    {
      PlayState(currentLayer, currentTag, currentFrame, elapsedTime, surface)
    }

    /** The key orders list each table's keys once, and no level of the frame table is empty. */
    ghost predicate Valid() {
      && Populated(frames)
      && Distinct(tagNames) && (forall n :: n in tagNames <==> n in frameTags)
      && Distinct(layerNames) && (forall n :: n in layerNames <==> n in layers)
    }

    /** `__init__` up to and including `_parse`: the default layer and tag at frame 0 with no
        time spent, and the three tables read from the description. */
    constructor (desc: Description, defaultLayer: string, defaultTag: string)
      ensures Valid()
      ensures format == desc.meta.format && imageSize == desc.meta.size && scale == desc.meta.scale
      ensures frameTags == TableOf(desc.meta.frameTags) && tagNames == KeyOrder(desc.meta.frameTags)
      ensures layers == TableOf(desc.meta.layers) && layerNames == KeyOrder(desc.meta.layers)
      ensures frames == FrameTableOf(desc.frames)
      ensures State() == PlayState(defaultLayer, defaultTag, 0, 0, None)
    {
      var tagTable, tagOrder := LoadTable(desc.meta.frameTags);
      var layerTable, layerOrder := LoadTable(desc.meta.layers);
      var frameTable := LoadFrames(desc.frames);
      format, imageSize, scale := desc.meta.format, desc.meta.size, desc.meta.scale;
      frameTags, tagNames := tagTable, tagOrder;
      layers, layerNames := layerTable, layerOrder;
      frames := frameTable;
      currentLayer, currentTag, currentFrame, elapsedTime := defaultLayer, defaultTag, 0, 0;
      surface := None;
    }

    /** The whole of `__init__`: load, then draw the first frame; construction fails exactly when
        the default layer and tag have no frame 0. */
    static method Load(desc: Description, defaultLayer: string, defaultTag: string)
      returns (r: Result<Animation, Error>)
      ensures r.Ok? <==> Lookup(FrameTableOf(desc.frames), FrameKey(defaultLayer, defaultTag, 0)).Some?
      ensures r.Err? ==> r.error == FrameNotFound(FrameKey(defaultLayer, defaultTag, 0))
      ensures r.Ok? ==>
        && fresh(r.value) && r.value.Valid()
        && r.value.frames == FrameTableOf(desc.frames)
        && r.value.frameTags == TableOf(desc.meta.frameTags) && r.value.tagNames == KeyOrder(desc.meta.frameTags)
        && r.value.layers == TableOf(desc.meta.layers) && r.value.layerNames == KeyOrder(desc.meta.layers)
        && r.value.currentLayer == defaultLayer && r.value.currentTag == defaultTag
        && r.value.currentFrame == 0 && r.value.elapsedTime == 0
        && Shows(r.value.frames, r.value.State())
    {
      var a := new Animation(desc, defaultLayer, defaultTag);
      var status := a.CreateSurface();
      if status.Failed? {
        return Err(status.error);
      }
      return Ok(a);
    }

    /** `_get_frame`: the entry of the current layer, tag and frame, or the KeyError. */
    function CurrentFrameInfo(): (r: Result<FrameInfo, Error>)
      reads this
      ensures r.Ok? <==> currentLayer in frames && currentTag in frames[currentLayer]
                         && currentFrame in frames[currentLayer][currentTag]
      ensures r.Ok? ==> r.value == frames[currentLayer][currentTag][currentFrame]
      ensures r.Err? ==> r.error == FrameNotFound(FrameKey(currentLayer, currentTag, currentFrame))
    {
      FrameAt(frames, State())
    }

    /** `get_tag_frame_length`: `to - from` of the current tag, or the KeyError. */
    function TagFrameLength(): (r: Result<int, Error>)
      reads this
      ensures r.Ok? <==> currentTag in frameTags
      ensures r.Ok? ==> r.value == frameTags[currentTag].to - frameTags[currentTag].from
      ensures r.Err? ==> r.error == TagNotFound(currentTag)
    {
      TagSpan(frameTags, currentTag)
    }

    /** `get_frame_duration`, in milliseconds. */
    function FrameDuration(): (r: Result<nat, Error>)
      reads this
      ensures r.Ok? <==> Lookup(frames, KeyFor(State())).Some?
      ensures r.Ok? ==> r.value == Lookup(frames, KeyFor(State())).value.duration
      ensures r.Err? ==> r.error == FrameNotFound(KeyFor(State()))
    {
      match CurrentFrameInfo()
      case Ok(info) => Ok(info.duration)
      case Err(e) => Err(e)
    }

    /** The frame-geometry choice of `_create_surface`, as a query: the atlas rectangle of the
        current frame, the offset of its copy (`spriteSourceSize.x`, `spriteSourceSize.y`) and
        the surface size (`sourceSize`). */
    function VisibleRegion(): (r: Result<View, Error>)
      reads this
      ensures r.Ok? <==> Lookup(frames, KeyFor(State())).Some?
      ensures r.Ok? ==>
        var info := Lookup(frames, KeyFor(State())).value;
        && r.value.source == info.frame && r.value.canvas == info.sourceSize
        && r.value.offsetX == info.spriteSourceSize.x && r.value.offsetY == info.spriteSourceSize.y
      ensures r.Err? ==> r.error == FrameNotFound(KeyFor(State()))
    {
      match CurrentFrameInfo()
      case Ok(info) => Ok(ViewOf(info))
      case Err(e) => Err(e)
    }

    /** `get_layer_names`: every layer name once, in the order first seen. */
    function LayerNames(): (names: seq<string>)
      requires Valid()
      ensures Distinct(names) && forall n :: n in names <==> n in layers
    {
      layerNames
    }

    /** `get_tag_names`: every tag name once, in the order first seen. */
    function TagNames(): (names: seq<string>)
      requires Valid()
      ensures Distinct(names) && forall n :: n in names <==> n in frameTags
    {
      tagNames
    }

    /** `_create_surface`: draw the current frame, or raise when the table has none. */
    method CreateSurface() returns (status: Status)
      modifies this`surface
      ensures Outcome(State(), status) == Render(frames, old(State()))
    {
      var info := CurrentFrameInfo();
      if info.Err? {
        return Failed(info.error);
      }
      surface := Some(ViewOf(info.value));
      return Done;
    }

    /** `change_layer`. */
    method ChangeLayer(name: string) returns (status: Status)
      modifies this`currentLayer, this`currentFrame, this`elapsedTime, this`surface
      ensures Outcome(State(), status) == SwitchLayer(frames, old(State()), name)
    {
      status := Done;
      if currentLayer != name {
        currentLayer := name;
        currentFrame := 0;
        elapsedTime := 0;
        status := CreateSurface();
      }
    }

    /** `change_tag`. */
    method ChangeTag(name: string) returns (status: Status)
      modifies this`currentTag, this`currentFrame, this`elapsedTime, this`surface
      ensures Outcome(State(), status) == SwitchTag(frames, old(State()), name)
    {
      status := Done;
      if currentTag != name {
        currentTag := name;
        currentFrame := 0;
        elapsedTime := 0;
        status := CreateSurface();
      }
    }

    /** The body of the loop of `update`: take the duration read on entry off the time spent,
        step the index (back to 0 past the tag's span) and redraw. */
    method StepFrame(d: nat) returns (status: Status)
      requires elapsedTime >= d
      modifies this`currentFrame, this`elapsedTime, this`surface
      ensures Outcome(State(), status) == Pass(frames, frameTags, old(State()), d)
    {
      elapsedTime := elapsedTime - d;
      currentFrame := currentFrame + 1;
      var length := TagFrameLength();
      if length.Err? {
        return Failed(length.error);
      }
      if currentFrame > length.value {
        currentFrame := 0;
      }
      status := CreateSurface();
    }

    /** `update(delta)`: add the time, read the current frame's duration once, and while the time
        spent reaches it take it off, advance the index (back to 0 past the tag's span) and
        redraw. A KeyError leaves the state as far as it got. */
    method Update(delta: nat) returns (status: Status)
      requires PositiveDuration(frames, State())
      modifies this`currentFrame, this`elapsedTime, this`surface
      ensures var t := Advance(frames, frameTags, old(State()), delta);
        State() == t.state && status == t.status
    {
      elapsedTime := elapsedTime + delta;
      var duration := FrameDuration();
      if duration.Err? {
        return Failed(duration.error);
      }
      var d := duration.value;
      ghost var target := CatchUp(frames, frameTags, State(), d);
      assert Advance(frames, frameTags, old(State()), delta) == target;
      while elapsedTime >= d
        invariant currentLayer == old(currentLayer) && currentTag == old(currentTag)
        invariant CatchUp(frames, frameTags, State(), d).state == target.state
        invariant CatchUp(frames, frameTags, State(), d).status == target.status
        decreases elapsedTime
      {
        status := StepFrame(d);
        if status.Failed? {
          return;
        }
      }
      return Done;
    }
  }
}

/** The playback state machine of an animation: current layer, tag, frame index and time spent
    on the current frame, with its transitions as functions of the loaded tables. Time is in
    whole milliseconds. */
module Playback {
  import opened Wrappers
  import opened Labels
  import opened Metadata

  /** What `_create_surface` draws for a frame: the atlas rectangle it copies, the offset of
      the copy on the surface (`spriteSourceSize.x`, `spriteSourceSize.y`) and the surface size
      (`sourceSize`). */
  datatype View = View(source: Rect, offsetX: int, offsetY: int, canvas: Size)

  function ViewOf(info: FrameInfo): (v: View)
    ensures v.source == info.frame && v.canvas == info.sourceSize
    ensures v.offsetX == info.spriteSourceSize.x && v.offsetY == info.spriteSourceSize.y
  {
    View(info.frame, info.spriteSourceSize.x, info.spriteSourceSize.y, info.sourceSize)
  }

  /** `current_layer`, `current_tag`, `current_frame`, `elapsed_time` (ms) and the surface last
      drawn (None before the first drawing). */
  datatype PlayState = PlayState(layer: string, tag: string, frame: nat, elapsed: nat, view: Option<View>)

  datatype Status = Done | Failed(error: Error)

  /** The state a transition leaves and whether it ended normally or raised. */
  datatype Outcome = Outcome(state: PlayState, status: Status)

  /** The same for `update`, with the number of passes its catch-up loop made. */
  datatype Tick = Tick(state: PlayState, status: Status, steps: nat)

  function KeyFor(s: PlayState): FrameKey {
    FrameKey(s.layer, s.tag, s.frame)
  }

  /** `_get_frame`: the entry stored under the current triple, or the KeyError naming it. */
  function FrameAt(frames: FrameTable, s: PlayState): (r: Result<FrameInfo, Error>)
    ensures r.Ok? <==> Lookup(frames, KeyFor(s)).Some?
    ensures r.Ok? ==> Lookup(frames, KeyFor(s)) == Some(r.value)
    ensures r.Err? ==> r.error == FrameNotFound(KeyFor(s))
  {
    match Lookup(frames, KeyFor(s))
    case Some(info) => Ok(info)
    case None => Err(FrameNotFound(KeyFor(s)))
  }

  /** `get_tag_frame_length`: `to - from` of the named tag. */
  function TagSpan(tags: map<string, Tag>, name: string): (r: Result<int, Error>)
    ensures r.Ok? <==> name in tags
    ensures r.Ok? ==> r.value == tags[name].to - tags[name].from
    ensures r.Err? ==> r.error == TagNotFound(name)
  {
    if name in tags then Ok(tags[name].to - tags[name].from) else Err(TagNotFound(name))
  }

  /** The frame index after one advance within a tag of span `span`: the next index, or back to
      0; from an index inside the tag it stays inside the tag. */
  function NextIndex(i: nat, span: int): (j: nat)
    ensures j == 0 || j == i + 1
    ensures i <= span ==> j <= span
  {
    if i + 1 > span then 0 else i + 1
  }

  /** The index after `k` advances. */
  function Cycle(i: nat, span: int, k: nat): nat
    decreases k
  {
    if k == 0 then i else Cycle(NextIndex(i, span), span, k - 1)
  }

  lemma {:induction false} MulAtLeast(x: int, n: int)
    requires x >= 1 && n > 0
    ensures x * n >= n
    decreases x
  {
    if x > 1 {
      MulAtLeast(x - 1, n);
      assert x * n == (x - 1) * n + n;
    }
  }

  /** Euclidean division is determined by the quotient-remainder decomposition. */
  lemma DivModUnique(a: int, n: int, q: int, r: int)
    requires n > 0 && 0 <= r < n && a == q * n + r
    ensures a / n == q && a % n == r
  {
    var q0, r0 := a / n, a % n;
    assert a == q0 * n + r0;
    assert (q - q0) * n == r0 - r;
    if q > q0 {
      MulAtLeast(q - q0, n);
    } else if q < q0 {
      MulAtLeast(q0 - q, n);
    }
  }

  /** From an index inside the tag, `k` advances count `k` frames on, modulo the tag's frame
      count `span + 1`. */
  lemma {:induction false} CyclePeriod(i: nat, span: int, k: nat)
    requires i <= span
    ensures Cycle(i, span, k) == (i + k) % (span + 1)
    decreases k
  {
    if k > 0 {
      var n := span + 1;
      CyclePeriod(NextIndex(i, span), span, k - 1);
      if i + 1 > span {
        var q, r := (k - 1) / n, (k - 1) % n;
        DivModUnique(i + k, n, q + 1, r);
      }
    }
  }

  /** The span `to - from` is one less than the number of frames a tag cycles through: from
      frame 0 the indices run 1, 2, ..., span and the next advance is back at 0. */
  lemma CycleLength(span: int)
    requires span >= 0
    ensures Cycle(0, span, span + 1) == 0
    ensures forall k :: 0 < k <= span ==> Cycle(0, span, k) == k
  {
    CyclePeriod(0, span, span + 1);
    DivModUnique(span + 1, span + 1, 1, 0);
    forall k | 0 < k <= span ensures Cycle(0, span, k) == k {
      CyclePeriod(0, span, k);
      DivModUnique(k, span + 1, 0, k);
    }
  }

  /** The surface shows the frame at the current triple. */
  predicate Shows(frames: FrameTable, s: PlayState) {
    match FrameAt(frames, s)
    case Ok(info) => s.view == Some(ViewOf(info))
    case Err(_) => false
  }

  /** `_create_surface`: draw the current frame, or raise when it is missing. */
  function Render(frames: FrameTable, s: PlayState): (r: Outcome)
    ensures r.status == Done <==> FrameAt(frames, s).Ok?
    ensures r.status == Done ==> Shows(frames, r.state)
    ensures r.status.Failed? ==> r.state == s && r.status.error == FrameNotFound(KeyFor(s))
    ensures r.state.(view := s.view) == s
  {
    match FrameAt(frames, s)
    case Ok(info) => Outcome(s.(view := Some(ViewOf(info))), Done)
    case Err(e) => Outcome(s, Failed(e))
  }

  /** `change_layer`: with a new name, switch to it at frame 0 with no time spent and draw;
      with the current name, nothing happens. */
  function SwitchLayer(frames: FrameTable, s: PlayState, name: string): (r: Outcome)
    ensures name == s.layer ==> r == Outcome(s, Done)
    ensures name != s.layer ==>
      && r.state.layer == name && r.state.tag == s.tag
      && r.state.frame == 0 && r.state.elapsed == 0
      && (r.status == Done <==> Lookup(frames, FrameKey(name, s.tag, 0)).Some?)
      && (r.status == Done ==> Shows(frames, r.state))
      && (r.status.Failed? ==> r.state.view == s.view && r.status.error == FrameNotFound(FrameKey(name, s.tag, 0)))
  {
    if name == s.layer then Outcome(s, Done)
    else Render(frames, s.(layer := name, frame := 0, elapsed := 0))
  }

  /** `change_tag`: the same for the tag; a tag is always entered at frame 0, wherever it was
      left. */
  function SwitchTag(frames: FrameTable, s: PlayState, name: string): (r: Outcome)
    ensures name == s.tag ==> r == Outcome(s, Done)
    ensures name != s.tag ==>
      && r.state.tag == name && r.state.layer == s.layer
      && r.state.frame == 0 && r.state.elapsed == 0
      && (r.status == Done <==> Lookup(frames, FrameKey(s.layer, name, 0)).Some?)
      && (r.status == Done ==> Shows(frames, r.state))
      && (r.status.Failed? ==> r.state.view == s.view && r.status.error == FrameNotFound(FrameKey(s.layer, name, 0)))
  {
    if name == s.tag then Outcome(s, Done)
    else Render(frames, s.(tag := name, frame := 0, elapsed := 0))
  }

  /** One pass of the catch-up loop of `update` with the duration `d` read on entry: take `d`
      off the time spent, advance the index (back to 0 once it exceeds the tag's span) and
      redraw. It raises when the tag is unknown or the new frame is missing. */
  function Pass(frames: FrameTable, tags: map<string, Tag>, s: PlayState, d: nat): (r: Outcome)
    requires s.elapsed >= d
    ensures r.state.layer == s.layer && r.state.tag == s.tag && r.state.elapsed == s.elapsed - d
  {
    var moved := s.(elapsed := s.elapsed - d, frame := s.frame + 1);
    match TagSpan(tags, s.tag)
    case Err(e) => Outcome(moved, Failed(e))
    case Ok(span) => Render(frames, moved.(frame := NextIndex(s.frame, span)))
  }

  /** A pass ends normally exactly when the tag is known and the frame it steps to exists; the
      index steps to the next one of the tag (back to 0 past the span), or one on when the tag is
      unknown; a normal pass shows the new frame and a failing one keeps the surface and raises
      for the unknown tag or for the key of the frame it stepped to. */
  lemma PassOutcome(frames: FrameTable, tags: map<string, Tag>, s: PlayState, d: nat)
    requires s.elapsed >= d
    ensures var r := Pass(frames, tags, s, d);
      && (r.status == Done <==>
           s.tag in tags && Lookup(frames, FrameKey(s.layer, s.tag, NextIndex(s.frame, tags[s.tag].to - tags[s.tag].from))).Some?)
      && (s.tag in tags ==> r.state.frame == NextIndex(s.frame, tags[s.tag].to - tags[s.tag].from))
      && (s.tag !in tags ==> r.state.frame == s.frame + 1 && r.status == Failed(TagNotFound(s.tag)))
      && (s.tag in tags && r.status.Failed? ==>
           r.status.error == FrameNotFound(FrameKey(s.layer, s.tag, NextIndex(s.frame, tags[s.tag].to - tags[s.tag].from))))
      && (r.status == Done ==> Shows(frames, r.state))
      && (r.status.Failed? ==> r.state.view == s.view)
  {
  }

  /** The catch-up loop of `update`: passes while the time spent reaches `d`. Each pass consumes
      exactly `d`, whatever the duration of the frame it moves to. */
  function CatchUp(frames: FrameTable, tags: map<string, Tag>, s: PlayState, d: nat): (r: Tick)
    requires d > 0
    ensures r.state.layer == s.layer && r.state.tag == s.tag
    ensures r.status == Done ==> r.state.elapsed < d
    decreases s.elapsed
  {
    if s.elapsed < d then Tick(s, Done, 0)
    else
      var p := Pass(frames, tags, s, d);
      if p.status.Failed? then Tick(p.state, p.status, 1)
      else
        var rest := CatchUp(frames, tags, p.state, d);
        Tick(rest.state, rest.status, rest.steps + 1)
  }

  /** The frame current when `update` is called has a positive duration (with a zero duration
      its loop either never ends or ends in a KeyError from a later pass). */
  predicate PositiveDuration(frames: FrameTable, s: PlayState) {
    FrameAt(frames, s).Ok? ==> FrameAt(frames, s).value.duration > 0
  }

  /** `update(delta)`: add the time, read the current frame's duration once, then catch up. */
  function Advance(frames: FrameTable, tags: map<string, Tag>, s: PlayState, delta: nat): (r: Tick)
    requires PositiveDuration(frames, s)
    ensures r.state.layer == s.layer && r.state.tag == s.tag
    ensures FrameAt(frames, s).Err? ==>
      r == Tick(s.(elapsed := s.elapsed + delta), Failed(FrameAt(frames, s).error), 0)
    ensures FrameAt(frames, s).Ok? && r.status == Done ==> r.state.elapsed < FrameAt(frames, s).value.duration
  {
    var entered := s.(elapsed := s.elapsed + delta);
    match FrameAt(frames, s)
    case Err(e) => Tick(entered, Failed(e), 0)
    case Ok(info) => CatchUp(frames, tags, entered, info.duration)
  }

  /** With a current frame, `update(delta)` is the catch-up with that frame's duration from the
      state with `delta` added. */
  lemma AdvanceThenCatchUp(frames: FrameTable, tags: map<string, Tag>, s: PlayState, delta: nat)
    requires FrameAt(frames, s).Ok? && FrameAt(frames, s).value.duration > 0
    ensures Advance(frames, tags, s, delta)
      == CatchUp(frames, tags, s.(elapsed := s.elapsed + delta), FrameAt(frames, s).value.duration)
  {
  }

  /** The time spent before the catch-up from `s` is the time after plus `d` per pass, and the
      index is the one that many advances within the tag give. */
  ghost predicate Accounted(frames: FrameTable, tags: map<string, Tag>, s: PlayState, d: nat)
    requires d > 0
  {
    var r := CatchUp(frames, tags, s, d);
    && s.elapsed == r.state.elapsed + r.steps * d
    && (s.tag in tags ==> r.state.frame == Cycle(s.frame, tags[s.tag].to - tags[s.tag].from, r.steps))
  }

  /** The accounting holds from `s` when it holds from the state a normal first pass leaves. */
  lemma AccountingStep(frames: FrameTable, tags: map<string, Tag>, s: PlayState, d: nat)
    requires d > 0 && s.elapsed >= d && Pass(frames, tags, s, d).status == Done
    requires Accounted(frames, tags, Pass(frames, tags, s, d).state, d)
    ensures Accounted(frames, tags, s, d)
  {
    CatchUpStep(frames, tags, s, d);
    var rest := CatchUp(frames, tags, Pass(frames, tags, s, d).state, d);
    assert (rest.steps + 1) * d == rest.steps * d + d;
  }

  /** Each pass of the catch-up loop takes exactly `d` off the time spent and advances the
      index once: the time is conserved as `elapsed = elapsed' + steps * d`, and the index is the
      one `steps` advances give. */
  lemma {:induction false} CatchUpAccounting(frames: FrameTable, tags: map<string, Tag>, s: PlayState, d: nat)
    requires d > 0
    ensures var r := CatchUp(frames, tags, s, d);
      && s.elapsed == r.state.elapsed + r.steps * d
      && (s.tag in tags ==> r.state.frame == Cycle(s.frame, tags[s.tag].to - tags[s.tag].from, r.steps))
    decreases s.elapsed
  {
    if s.elapsed >= d && Pass(frames, tags, s, d).status == Done {
      CatchUpAccounting(frames, tags, Pass(frames, tags, s, d).state, d);
      AccountingStep(frames, tags, s, d);
    }
  }

  /** `update(delta)` conserves time: the time spent before plus `delta` is the time spent after
      plus one entry duration per pass, and the index has advanced once per pass. */
  lemma UpdateAccounting(frames: FrameTable, tags: map<string, Tag>, s: PlayState, delta: nat)
    requires PositiveDuration(frames, s)
    ensures var r := Advance(frames, tags, s, delta);
      && (FrameAt(frames, s).Ok? ==> s.elapsed + delta == r.state.elapsed + r.steps * FrameAt(frames, s).value.duration)
      && (s.tag in tags ==> r.state.frame == Cycle(s.frame, tags[s.tag].to - tags[s.tag].from, r.steps))
  {
    if FrameAt(frames, s).Ok? {
      CatchUpAccounting(frames, tags, s.(elapsed := s.elapsed + delta), FrameAt(frames, s).value.duration);
    }
  }

  /** When the time spent stays below the duration, `update` only adds the time. */
  lemma UpdateWithoutCatchUp(frames: FrameTable, tags: map<string, Tag>, s: PlayState, delta: nat)
    requires FrameAt(frames, s).Ok? && FrameAt(frames, s).value.duration > 0
    requires s.elapsed + delta < FrameAt(frames, s).value.duration
    ensures Advance(frames, tags, s, delta) == Tick(s.(elapsed := s.elapsed + delta), Done, 0)
  {
  }

  /** An index inside the current tag stays inside it: each pass maps `i` to `(i + 1) mod
      (span + 1)`, so after `steps` passes the index is `(i + steps) mod (span + 1)`. */
  lemma UpdateFrameBound(frames: FrameTable, tags: map<string, Tag>, s: PlayState, delta: nat)
    requires PositiveDuration(frames, s)
    requires s.tag in tags && s.frame <= tags[s.tag].to - tags[s.tag].from
    ensures var span, r := tags[s.tag].to - tags[s.tag].from, Advance(frames, tags, s, delta);
      r.state.frame <= span && r.state.frame == (s.frame + r.steps) % (span + 1)
  {
    var span, r := tags[s.tag].to - tags[s.tag].from, Advance(frames, tags, s, delta);
    UpdateAccounting(frames, tags, s, delta);
    CyclePeriod(s.frame, span, r.steps);
  }

  /** A catch-up that ends normally either made no pass or left the surface showing the frame
      it stopped at. */
  lemma {:induction false} CatchUpShows(frames: FrameTable, tags: map<string, Tag>, s: PlayState, d: nat)
    requires d > 0
    requires CatchUp(frames, tags, s, d).status == Done
    ensures var r := CatchUp(frames, tags, s, d);
      (r.steps == 0 && r.state == s) || Shows(frames, r.state)
    decreases s.elapsed
  {
    if s.elapsed >= d {
      CatchUpShows(frames, tags, Pass(frames, tags, s, d).state, d);
    }
  }

  /** After an `update` that ends normally the surface shows the current frame, if it did before. */
  lemma UpdateKeepsShowing(frames: FrameTable, tags: map<string, Tag>, s: PlayState, delta: nat)
    requires PositiveDuration(frames, s) && Shows(frames, s)
    requires Advance(frames, tags, s, delta).status == Done
    ensures Shows(frames, Advance(frames, tags, s, delta).state)
  {
    var entered := s.(elapsed := s.elapsed + delta);
    CatchUpShows(frames, tags, entered, FrameAt(frames, s).value.duration);
  }

  /** Advancing by exactly the duration of the current frame, from no time spent, moves one
      frame on and leaves no time spent, provided that next frame exists. */
  lemma UpdateByOneDuration(frames: FrameTable, tags: map<string, Tag>, s: PlayState)
    requires FrameAt(frames, s).Ok? && FrameAt(frames, s).value.duration > 0 && s.elapsed == 0
    requires s.tag in tags
    requires Lookup(frames, FrameKey(s.layer, s.tag, NextIndex(s.frame, tags[s.tag].to - tags[s.tag].from))).Some?
    ensures var r := Advance(frames, tags, s, FrameAt(frames, s).value.duration);
      && r.status == Done && r.steps == 1 && r.state.elapsed == 0
      && r.state.frame == NextIndex(s.frame, tags[s.tag].to - tags[s.tag].from)
  {
    var d := FrameAt(frames, s).value.duration;
    var p := Pass(frames, tags, s.(elapsed := d), d);
    assert p.status == Done;
    assert CatchUp(frames, tags, p.state, d) == Tick(p.state, Done, 0);
  }

  /** Every index of the tag's range has a frame for this layer. */
  predicate TagComplete(frames: FrameTable, tags: map<string, Tag>, layer: string, tag: string) {
    && tag in tags && tags[tag].to - tags[tag].from >= 0
    && forall i :: 0 <= i <= tags[tag].to - tags[tag].from ==> Lookup(frames, FrameKey(layer, tag, i)).Some?
  }

  /** Every frame of the layer's tag lasts `d`. */
  ghost predicate Uniform(frames: FrameTable, layer: string, tag: string, d: nat) {
    forall i :: Lookup(frames, FrameKey(layer, tag, i)).Some? ==> Lookup(frames, FrameKey(layer, tag, i)).value.duration == d
  }

  /** On a tag with a frame at every index the catch-up loop never raises. */
  lemma {:induction false} CatchUpCompletes(frames: FrameTable, tags: map<string, Tag>, s: PlayState, d: nat)
    requires d > 0 && TagComplete(frames, tags, s.layer, s.tag)
    requires s.frame <= tags[s.tag].to - tags[s.tag].from
    ensures CatchUp(frames, tags, s, d).status == Done
    decreases s.elapsed
  {
    if s.elapsed >= d {
      var span := tags[s.tag].to - tags[s.tag].from;
      assert Lookup(frames, FrameKey(s.layer, s.tag, NextIndex(s.frame, span))).Some?;
      CatchUpCompletes(frames, tags, Pass(frames, tags, s, d).state, d);
    }
  }

  /** A whole cycle: on a tag whose frames all last `d`, starting at frame 0 with no time spent,
      `update((span + 1) * d + e)` with `e < d` passes through every frame once and lands on
      frame 0 again with `e` spent (the index wraps once it passes the span, not at the span). */
  lemma FullCycle(frames: FrameTable, tags: map<string, Tag>, s: PlayState, d: nat, e: nat, delta: nat)
    requires d > 0 && e < d && TagComplete(frames, tags, s.layer, s.tag) && Uniform(frames, s.layer, s.tag, d)
    requires s.frame == 0 && s.elapsed == 0
    requires delta == (tags[s.tag].to - tags[s.tag].from + 1) * d + e
    ensures PositiveDuration(frames, s)
    ensures var r := Advance(frames, tags, s, delta);
      && r.status == Done && r.steps == tags[s.tag].to - tags[s.tag].from + 1
      && r.state.frame == 0 && r.state.elapsed == e
  {
    var span := tags[s.tag].to - tags[s.tag].from;
    assert Lookup(frames, FrameKey(s.layer, s.tag, 0)).Some?;
    var entered := s.(elapsed := delta);
    CatchUpCompletes(frames, tags, entered, d);
    var r := Advance(frames, tags, s, delta);
    UpdateAccounting(frames, tags, s, delta);
    DivModUnique(delta, d, span + 1, e);
    DivModUnique(delta, d, r.steps, r.state.elapsed);
    assert r.steps == span + 1;
    CyclePeriod(0, span, span + 1);
    DivModUnique(span + 1, span + 1, 1, 0);
    assert r.state.frame == Cycle(0, span, span + 1);
  }

  /** A pass that ends normally is followed by the rest of the catch-up from the state it leaves. */
  lemma CatchUpStep(frames: FrameTable, tags: map<string, Tag>, s: PlayState, d: nat)
    requires d > 0 && s.elapsed >= d && Pass(frames, tags, s, d).status == Done
    ensures var rest := CatchUp(frames, tags, Pass(frames, tags, s, d).state, d);
      CatchUp(frames, tags, s, d) == Tick(rest.state, rest.status, rest.steps + 1)
  {
  }

  /** A pass does not depend on the time spent beyond the `d` it takes off. */
  lemma PassShift(frames: FrameTable, tags: map<string, Tag>, s: PlayState, d: nat, b: nat)
    requires s.elapsed >= d
    ensures var p := Pass(frames, tags, s, d);
      Pass(frames, tags, s.(elapsed := s.elapsed + b), d) == Outcome(p.state.(elapsed := p.state.elapsed + b), p.status)
  {
  }

  /** Shifting the time by `b` before the catch-up from `s` ends where catching up first and then
      continuing with `b` more does. */
  ghost predicate ShiftAgrees(frames: FrameTable, tags: map<string, Tag>, s: PlayState, d: nat, b: nat)
    requires d > 0
  {
    var r := CatchUp(frames, tags, s, d);
    var whole := CatchUp(frames, tags, s.(elapsed := s.elapsed + b), d);
    var rest := CatchUp(frames, tags, r.state.(elapsed := r.state.elapsed + b), d);
    whole.state == rest.state && whole.status == rest.status
  }

  /** The shift agrees from `s` when it agrees from the state a normal first pass leaves. */
  lemma CatchUpShiftStep(frames: FrameTable, tags: map<string, Tag>, s: PlayState, d: nat, b: nat)
    requires d > 0 && s.elapsed >= d && Pass(frames, tags, s, d).status == Done
    requires ShiftAgrees(frames, tags, Pass(frames, tags, s, d).state, d, b)
    ensures ShiftAgrees(frames, tags, s, d, b)
  {
    CatchUpStep(frames, tags, s, d);
    PassShift(frames, tags, s, d, b);
    CatchUpStep(frames, tags, s.(elapsed := s.elapsed + b), d);
  }

  /** When the catch-up ends normally, no pass depends on time added beforehand: shifting the
      time first is the same as catching up and then continuing with the shift. */
  lemma {:induction false} CatchUpShift(frames: FrameTable, tags: map<string, Tag>, s: PlayState, d: nat, b: nat)
    requires d > 0 && CatchUp(frames, tags, s, d).status == Done
    ensures ShiftAgrees(frames, tags, s, d, b)
    decreases s.elapsed
  {
    if s.elapsed >= d {
      CatchUpShift(frames, tags, Pass(frames, tags, s, d).state, d, b);
      CatchUpShiftStep(frames, tags, s, d, b);
    }
  }

  /** On a tag whose frames all last the same, two updates by `a` and `b` end where one update by
      `a + b` does. */
  lemma UniformSplit(frames: FrameTable, tags: map<string, Tag>, s: PlayState, d: nat, a: nat, b: nat)
    requires d > 0 && FrameAt(frames, s).Ok? && Uniform(frames, s.layer, s.tag, d)
    requires PositiveDuration(frames, s) && Advance(frames, tags, s, a).status == Done
    ensures PositiveDuration(frames, Advance(frames, tags, s, a).state)
    ensures var second := Advance(frames, tags, Advance(frames, tags, s, a).state, b);
      var whole := Advance(frames, tags, s, a + b);
      second.state == whole.state && second.status == whole.status
  {
    var entered := s.(elapsed := s.elapsed + a);
    AdvanceThenCatchUp(frames, tags, s, a);
    var r := Advance(frames, tags, s, a);
    CatchUpShows(frames, tags, entered, d);
    assert FrameAt(frames, r.state).Ok? && FrameAt(frames, r.state).value.duration == d;
    AdvanceThenCatchUp(frames, tags, r.state, b);
    AdvanceThenCatchUp(frames, tags, s, a + b);
    assert entered.(elapsed := entered.elapsed + b) == s.(elapsed := s.elapsed + (a + b));
    CatchUpShift(frames, tags, entered, d, b);
  }

  /** The catch-up loop reads the duration once, so with frames of different durations splitting
      an update changes the result: frames of 100 ms and 50 ms, `update(150)` stops at frame 1,
      while `update(100)` then `update(50)` wraps back to frame 0. */
  lemma SplitUpdateDiffers()
    ensures
      var info := (d: nat) => FrameInfo(Rect(0, 0, 1, 1), Rect(0, 0, 1, 1), Size(1, 1), d);
      var frames: FrameTable := map["a" := map["t" := map[0 := info(100), 1 := info(50)]]];
      var tags := map["t" := Tag(0, 1, "forward")];
      var s := PlayState("a", "t", 0, 0, None);
      Advance(frames, tags, s, 150).state.frame == 1
      && PositiveDuration(frames, Advance(frames, tags, s, 100).state)
      && Advance(frames, tags, Advance(frames, tags, s, 100).state, 50).state.frame == 0
  {
  }
}

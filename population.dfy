/**
 The population engine (`struct Walkers` of src/main.rs): the per-walker step
 that each spawned thread runs, the fan-in that gathers the threads' results,
 and the class whose `Update` replaces the population once per frame.

 Threads and the channel are replaced by a sequential loop over the walkers
 in order; the random draws each thread makes are passed in as `Draws`.
 */
module Population {
  import opened Canvas
  import opened Frame
  import opened Agent

  /** The tunable parameters of a `Walkers`. */
  datatype Params = Params(turnChance: real, turnAngle: real, divisionChance: real, divisionAngle: real, speed: real)

  /**
   The draws one walker's step may make, each `gen_range(0..100)`: the turn
   roll, the turn's factor, the division roll and the child's turn factor.
   */
  datatype Draws = Draws(turnRoll: int, turnFactor: int, divisionRoll: int, divisionFactor: int)

  predicate ValidDraws(d: Draws)
  {
    && 0 <= d.turnRoll < 100 && 0 <= d.turnFactor < 100
    && 0 <= d.divisionRoll < 100 && 0 <= d.divisionFactor < 100
  }

  predicate AllValid(ds: seq<Draws>)
  {
    forall i :: 0 <= i < |ds| ==> ValidDraws(ds[i])
  }

  /** A roll succeeds when `draw / 100` is below the chance. */
  predicate Fires(draw: int, chance: real)
  {
    draw as real / 100.0 < chance
  }

  /**
   With the chances `Walkers::new` sets, only draw 0 succeeds: a walker turns
   with probability 1/100 and also divides with probability 1/100, although
   the division chance is set to 0.00001.
   */
  lemma DefaultChancesFireOnlyOnZero(draw: int)
    requires 0 <= draw < 100
    ensures Fires(draw, 0.01) <==> draw == 0
    ensures Fires(draw, 0.00001) <==> draw == 0
  {
  }

  const HALF_WIDTH: real := WIDTH as real / 2.0
  const HALF_HEIGHT: real := HEIGHT as real / 2.0

  // ---------------------------------------------------------------- wrap

  /** The horizontal test of the wrap, as written: its left-edge branch moves y. */
  function WrapX(s: WalkerState): WalkerState
  {
    if s.position.x >= HALF_WIDTH then
      var p := s.position.(x := s.position.x - WIDTH as real);
      s.(position := p, prevPosition := p)
    else if s.position.x <= -HALF_WIDTH then
      var p := s.position.(y := s.position.y + WIDTH as real);
      s.(position := p, prevPosition := p)
    else
      s
  }

  /** The vertical test of the wrap. */
  function WrapY(s: WalkerState): WalkerState
  {
    if s.position.y >= HALF_HEIGHT then
      var p := s.position.(y := s.position.y - HEIGHT as real);
      s.(position := p, prevPosition := p)
    else if s.position.y <= -HALF_HEIGHT then
      var p := s.position.(y := s.position.y + HEIGHT as real);
      s.(position := p, prevPosition := p)
    else
      s
  }

  /** Some branch of the wrap is taken. */
  predicate WrapFires(s: WalkerState)
  {
    || s.position.x >= HALF_WIDTH || s.position.x <= -HALF_WIDTH
    || WrapX(s).position.y >= HALF_HEIGHT || WrapX(s).position.y <= -HALF_HEIGHT
  }

  /**
   The toroidal wrap, as written. A taken branch cuts the trail
   (`prevPosition` becomes the new position); when none is taken nothing
   changes. The right edge moves x back by WIDTH; the left edge leaves x as it
   is and moves y by WIDTH instead, after which the vertical test may move y
   by HEIGHT.
   */
  function Wrapped(s: WalkerState): (t: WalkerState)
    ensures t.velocity == s.velocity && t.dead == s.dead
    ensures WrapFires(s) ==> t.prevPosition == t.position
    ensures !WrapFires(s) ==> t == s
    ensures s.position.x >= HALF_WIDTH ==> t.position.x == s.position.x - WIDTH as real
    ensures s.position.x < HALF_WIDTH ==> t.position.x == s.position.x
    ensures -HALF_WIDTH < s.position.x ==>
      && (s.position.y >= HALF_HEIGHT ==> t.position.y == s.position.y - HEIGHT as real)
      && (s.position.y <= -HALF_HEIGHT ==> t.position.y == s.position.y + HEIGHT as real)
      && (-HALF_HEIGHT < s.position.y < HALF_HEIGHT ==> t.position.y == s.position.y)
    ensures s.position.x <= -HALF_WIDTH ==>
      var y := s.position.y + WIDTH as real;
      t.position.y == (if y >= HALF_HEIGHT then y - HEIGHT as real else if y <= -HALF_HEIGHT then y + HEIGHT as real else y)
  {
    WrapY(WrapX(s))
  }

  /**
   The walker that leaves by the left edge at (-500, 0) is not brought back:
   its x stays at -500 and its y jumps to 389. The intended wrap puts it at
   (389, 0), the same point of the torus.
   */
  lemma LeftEdgeWrapMovesY()
    ensures var s := WalkerState(Vec2(-500.0, 0.0), Vec2(-499.5, 0.0), Vec2(-1.0, 0.0), false);
      && Wrapped(s).position == Vec2(-500.0, 389.0)
      && Wrapped(s).position.x < -HALF_WIDTH
      && WrappedIntended(s).position == Vec2(389.0, 0.0)
  {
  }

  function Shift(c: real, half: real, size: real): real
  {
    if c >= half then c - size else if c <= -half then c + size else c
  }

  /**
   The wrap as evidently intended, the left edge adding WIDTH to x. The result
   is the same point of the torus (each coordinate moves by a whole canvas
   size or not at all), a point within one canvas size of the box is brought
   into the closed box, and a moved walker draws no trail.
   */
  function WrappedIntended(s: WalkerState): (t: WalkerState)
    ensures t.velocity == s.velocity && t.dead == s.dead
    ensures var dx := t.position.x - s.position.x;
      dx == 0.0 || dx == WIDTH as real || dx == -(WIDTH as real)
    ensures var dy := t.position.y - s.position.y;
      dy == 0.0 || dy == HEIGHT as real || dy == -(HEIGHT as real)
    ensures -3.0 * HALF_WIDTH < s.position.x < 3.0 * HALF_WIDTH ==>
      -HALF_WIDTH <= t.position.x <= HALF_WIDTH
    ensures -3.0 * HALF_HEIGHT < s.position.y < 3.0 * HALF_HEIGHT ==>
      -HALF_HEIGHT <= t.position.y <= HALF_HEIGHT
    ensures t.position != s.position ==> t.prevPosition == t.position
    ensures t.position == s.position ==> t == s
  {
    var p := Vec2(Shift(s.position.x, HALF_WIDTH, WIDTH as real),
                  Shift(s.position.y, HALF_HEIGHT, HEIGHT as real));
    if p == s.position then s else s.(position := p, prevPosition := p)
  }

  // ---------------------------------------------------------------- sampling

  /** An image the step can sample: a real grid with at least one pixel. */
  predicate FrameReady(img: Image)
  {
    img.Valid() && img.width >= 1 && img.height >= 1
  }

  /**
   The column and row read for a walker at `p`: the position rescaled from
   the canvas onto the image, cast to `u32`, clamped to the image and flipped
   to a top-left origin. Always a pixel of the image.
   */
  function SampleIndex(img: Image, p: Vec2): (cr: (nat, nat))
    requires FrameReady(img)
    ensures cr.0 < img.width && cr.1 < img.height
  {
    var px := CastU32(Map(p.x, -HALF_WIDTH, HALF_WIDTH, 0.0, img.width as real));
    var py := CastU32(Map(p.y, -HALF_HEIGHT, HALF_HEIGHT, 0.0, img.height as real));
    (SampleColumn(px, img.width), SampleRow(py, img.height))
  }

  /** The centre of the canvas reads column 444, row 249 of a frame the canvas' size. */
  lemma CentreSample(img: Image)
    requires FrameReady(img) && img.width == WIDTH && img.height == HEIGHT
    ensures SampleIndex(img, Vec2(0.0, 0.0)) == (444, 249)
  {
    assert Map(0.0, -HALF_WIDTH, HALF_WIDTH, 0.0, WIDTH as real) == 444.5;
    assert Map(0.0, -HALF_HEIGHT, HALF_HEIGHT, 0.0, HEIGHT as real) == 250.0;
  }

  /** The pixel a walker at `p` reads. */
  function SampleAt(img: Image, p: Vec2): Rgba
    requires FrameReady(img)
  {
    var (col, row) := SampleIndex(img, p);
    img.GetPixel(col, row)
  }

  /**
   The death test: the walker is dead afterwards exactly when it was already
   dead or the pixel is white, and nothing else changes. A walker is never
   brought back to life.
   */
  function Killed(s: WalkerState, pixel: Rgba): (t: WalkerState)
    ensures t.dead == (s.dead || IsWhite(pixel))
    ensures t.(dead := s.dead) == s
  {
    if IsWhite(pixel) then s.(dead := true) else s
  }

  // ---------------------------------------------------------------- one step

  /** The walker after the turn roll. */
  function Steered(s: WalkerState, p: Params, d: Draws, rotate: Rotation): WalkerState
    requires ValidDraws(d)
  {
    if Fires(d.turnRoll, p.turnChance) then Turned(s, p.turnAngle, d.turnFactor, rotate) else s
  }

  /** The walker after `update(speed)`, before the wrap. */
  function Moved(s: WalkerState, p: Params, d: Draws, rotate: Rotation): WalkerState
    requires ValidDraws(d)
  {
    Advanced(Steered(s, p, d, rotate), p.speed)
  }

  /**
   What one thread sends for walker `s`: the child (when the division roll
   succeeds) and then the walker itself. The child is a copy taken after the
   turn and before the advance, turned once more: it keeps the walker's
   position, trail start and dead flag, and is neither wrapped nor tested.
   The walker is advanced, wrapped and tested against the pixel it lands on:
   either a wrap branch was taken and its trail is cut, or none was and its
   trail runs from its old position to the new one.
   */
  function StepSpec(s: WalkerState, p: Params, img: Image, d: Draws, rotate: Rotation): (group: seq<WalkerState>)
    requires FrameReady(img) && ValidDraws(d)
  {
    var turned := Steered(s, p, d, rotate);
    var children := if Fires(d.divisionRoll, p.divisionChance)
      then [Turned(turned, p.divisionAngle, d.divisionFactor, rotate)] else [];
    var wrapped := Wrapped(Advanced(turned, p.speed));
    children + [Killed(wrapped, SampleAt(img, wrapped.position))]
  }

  /** The shape and content of one thread's group, as described at `StepSpec`. */
  lemma StepShape(s: WalkerState, p: Params, img: Image, d: Draws, rotate: Rotation)
    requires FrameReady(img) && ValidDraws(d)
    ensures |StepSpec(s, p, img, d, rotate)| == if Fires(d.divisionRoll, p.divisionChance) then 2 else 1
    ensures |StepSpec(s, p, img, d, rotate)| == 2 ==>
      && StepSpec(s, p, img, d, rotate)[0].position == s.position && StepSpec(s, p, img, d, rotate)[0].prevPosition == s.prevPosition
      && StepSpec(s, p, img, d, rotate)[0].dead == s.dead
    ensures var w := StepSpec(s, p, img, d, rotate)[|StepSpec(s, p, img, d, rotate)| - 1];
      && w.velocity == Steered(s, p, d, rotate).velocity
      && w.dead == (s.dead || IsWhite(SampleAt(img, w.position)))
      && (WrapFires(Moved(s, p, d, rotate)) ==> w.prevPosition == w.position)
      && (!WrapFires(Moved(s, p, d, rotate)) ==>
            w.prevPosition == s.position && w.position == Translate(s.position, w.velocity, p.speed))
  {
  }

  /** Every walker's group, in the order of the walkers. */
  function StepAll(states: seq<WalkerState>, p: Params, img: Image, draws: seq<Draws>, rotate: Rotation)
    : (groups: seq<seq<WalkerState>>)
    requires (|states| == 0 || FrameReady(img)) && |draws| == |states| && AllValid(draws)
    ensures |groups| == |states|
    ensures forall i :: 0 <= i < |states| ==> groups[i] == StepSpec(states[i], p, img, draws[i], rotate)
    decreases |states|
  {
    if |states| == 0 then []
    else
      var n := |states| - 1;
      StepAll(states[..n], p, img, draws[..n], rotate) + [StepSpec(states[n], p, img, draws[n], rotate)]
  }

  /** Stepping walker `i` after walkers `0..i` appends its group to theirs. */
  lemma DispatchExtend(states: seq<WalkerState>, p: Params, img: Image, draws: seq<Draws>, rotate: Rotation, i: nat)
    requires (|states| == 0 || FrameReady(img)) && |draws| == |states| && AllValid(draws) && i < |states|
    ensures StepAll(states[..i + 1], p, img, draws[..i + 1], rotate)
         == StepAll(states[..i], p, img, draws[..i], rotate) + [StepSpec(states[i], p, img, draws[i], rotate)]
  {
    assert states[..i + 1][..i] == states[..i];
    assert draws[..i + 1][..i] == draws[..i];
  }

  // ---------------------------------------------------------------- fan-in

  /** The number of dead walkers in `ws`. */
  function DeadCount(ws: seq<WalkerState>): nat
  {
    if ws == [] then 0 else (if ws[0].dead then 1 else 0) + DeadCount(ws[1..])
  }

  /**
   The per-result filter `.filter(|w| !w.dead)`: keeps exactly the live
   walkers, in order, dropping one element per dead walker.
   */
  function LiveOnly(ws: seq<WalkerState>): (r: seq<WalkerState>)
    ensures |r| + DeadCount(ws) == |ws|
  {
    if ws == [] then [] else (if ws[0].dead then [] else [ws[0]]) + LiveOnly(ws[1..])
  }

  /** The filter keeps a walker exactly when it is one of the input's live walkers. */
  lemma {:induction false} LiveOnlyMembers(ws: seq<WalkerState>)
    ensures forall w :: w in LiveOnly(ws) <==> w in ws && !w.dead
  {
    if ws != [] {
      LiveOnlyMembers(ws[1..]);
      assert ws == [ws[0]] + ws[1..];
    }
  }

  lemma {:induction false} LiveOnlyAppend(a: seq<WalkerState>, b: seq<WalkerState>)
    ensures LiveOnly(a + b) == LiveOnly(a) + LiveOnly(b)
    ensures DeadCount(a + b) == DeadCount(a) + DeadCount(b)
  {
    if a == [] {
      assert a + b == b;
    } else {
      assert (a + b)[0] == a[0];
      assert (a + b)[1..] == a[1..] + b;
      LiveOnlyAppend(a[1..], b);
    }
  }

  /** A sequence with no dead walker passes the filter unchanged. */
  lemma {:induction false} LiveOnlyKeepsLive(ws: seq<WalkerState>)
    requires forall i :: 0 <= i < |ws| ==> !ws[i].dead
    ensures LiveOnly(ws) == ws
  {
    if ws != [] {
      LiveOnlyKeepsLive(ws[1..]);
    }
  }

  /** Filtering twice is filtering once. */
  lemma {:induction false} LiveOnlyIdempotent(ws: seq<WalkerState>)
    ensures LiveOnly(LiveOnly(ws)) == LiveOnly(ws)
  {
    LiveOnlyMembers(ws);
    var r := LiveOnly(ws);
    assert forall i :: 0 <= i < |r| ==> r[i] in r;
    LiveOnlyKeepsLive(r);
  }

  /** All groups joined in order. */
  function Flatten(groups: seq<seq<WalkerState>>): seq<WalkerState>
  {
    if groups == [] then [] else Flatten(groups[..|groups| - 1]) + groups[|groups| - 1]
  }

  /** The population the fan-in is meant to install: the live walkers of all groups, in order. */
  function Survivors(groups: seq<seq<WalkerState>>): (r: seq<WalkerState>)
    ensures |r| == |Flatten(groups)| - DeadCount(Flatten(groups))
  {
    LiveOnly(Flatten(groups))
  }

  /** The number of walkers whose division roll succeeds. */
  function Divisions(p: Params, draws: seq<Draws>): nat
  {
    if draws == [] then 0
    else Divisions(p, draws[..|draws| - 1]) + (if Fires(draws[|draws| - 1].divisionRoll, p.divisionChance) then 1 else 0)
  }

  /** The threads send one walker each, plus one child per successful division roll. */
  lemma {:induction false} StepAllSize(states: seq<WalkerState>, p: Params, img: Image, draws: seq<Draws>, rotate: Rotation)
    requires (|states| == 0 || FrameReady(img)) && |draws| == |states| && AllValid(draws)
    ensures |Flatten(StepAll(states, p, img, draws, rotate))| == |states| + Divisions(p, draws)
    decreases |states|
  {
    if |states| > 0 {
      var n := |states| - 1;
      var groups := StepAll(states, p, img, draws, rotate);
      assert groups[..n] == StepAll(states[..n], p, img, draws[..n], rotate);
      assert draws[..n] == draws[..|draws| - 1];
      StepAllSize(states[..n], p, img, draws[..n], rotate);
    }
  }

  /**
   After a fully collected tick the population size is the old size plus the
   divisions minus the deaths, and no dead walker is kept.
   */
  lemma PopulationCount(states: seq<WalkerState>, p: Params, img: Image, draws: seq<Draws>, rotate: Rotation)
    requires (|states| == 0 || FrameReady(img)) && |draws| == |states| && AllValid(draws)
    ensures var all := Flatten(StepAll(states, p, img, draws, rotate));
      |Survivors(StepAll(states, p, img, draws, rotate))| == |states| + Divisions(p, draws) - DeadCount(all)
    ensures forall w :: w in Survivors(StepAll(states, p, img, draws, rotate)) ==> !w.dead
  {
    StepAllSize(states, p, img, draws, rotate);
    LiveOnlyMembers(Flatten(StepAll(states, p, img, draws, rotate)));
  }

  /** Receiving group `k` appends its live walkers to those of groups `0..k`. */
  lemma ReceiveStep(results: seq<seq<WalkerState>>, k: nat)
    requires k < |results|
    ensures LiveOnly(Flatten(results[..k + 1])) == LiveOnly(Flatten(results[..k])) + LiveOnly(results[k])
  {
    assert results[..k + 1][..k] == results[..k];
    LiveOnlyAppend(Flatten(results[..k]), results[k]);
  }

  // ---------------------------------------------------------------- threads

  /** The wrap (lines 142-156) on the thread's walker. */
  method WrapAround(walker: Walker)
    modifies walker
    ensures walker.State() == Wrapped(old(walker.State()))
  {
    if walker.position.x >= HALF_WIDTH {
      walker.position := walker.position.(x := walker.position.x - WIDTH as real);
      walker.prevPosition := walker.position;
    } else if walker.position.x <= -HALF_WIDTH {
      walker.position := walker.position.(y := walker.position.y + WIDTH as real);
      walker.prevPosition := walker.position;
    }
    if walker.position.y >= HALF_HEIGHT {
      walker.position := walker.position.(y := walker.position.y - HEIGHT as real);
      walker.prevPosition := walker.position;
    } else if walker.position.y <= -HALF_HEIGHT {
      walker.position := walker.position.(y := walker.position.y + HEIGHT as real);
      walker.prevPosition := walker.position;
    }
  }

  /** The pixel lookup and death test (lines 159-171) on the thread's walker. */
  method TestPixel(walker: Walker, img: Image)
    requires FrameReady(img)
    modifies walker
    ensures walker.State() == Killed(old(walker.State()), SampleAt(img, old(walker.position)))
  {
    var pixelX := CastU32(Map(walker.position.x, -HALF_WIDTH, HALF_WIDTH, 0.0, img.width as real));
    var pixelY := CastU32(Map(walker.position.y, -HALF_HEIGHT, HALF_HEIGHT, 0.0, img.height as real));
    var pixel := img.GetPixel(SampleColumn(pixelX, img.width), SampleRow(pixelY, img.height));
    if IsWhite(pixel) {
      walker.dead := true;
    }
  }

  /**
   The body of one spawned thread, on its own clone of `w`: turn roll,
   division roll (the child is cloned and turned before the advance and goes
   first), advance, wrap, pixel lookup, death test. The values sent, in the
   order they are sent, are the group `StepSpec` describes.
   */
  method Step(w: WalkerState, p: Params, img: Image, d: Draws, rotate: Rotation) returns (group: seq<WalkerState>)
    requires FrameReady(img) && ValidDraws(d)
    ensures group == StepSpec(w, p, img, d, rotate)
  {
    var walker := new Walker.FromState(w);
    group := [];
    if Fires(d.turnRoll, p.turnChance) {
      walker.Turn(p.turnAngle, d.turnFactor, rotate);
    }
    if Fires(d.divisionRoll, p.divisionChance) {
      var child := walker.Clone();
      child.Turn(p.divisionAngle, d.divisionFactor, rotate);
      group := group + [child.State()];
    }
    walker.Update(p.speed);
    WrapAround(walker);
    TestPixel(walker, img);
    group := group + [walker.State()];
  }

  // ---------------------------------------------------------------- engine

  class Walkers {
    var walkers: seq<WalkerState>
    var turnChance: real
    var turnAngle: real
    var divisionChance: real
    var divisionAngle: real
    var speed: real

    function Settings(): Params
      reads this
    {
      Params(turnChance, turnAngle, divisionChance, divisionAngle, speed)
    }

    /**
     `Walkers::new(speed)`: one live walker at the middle of the bottom edge
     heading up, turn chance 0.01 by up to pi/3, division chance 0.00001 by up
     to pi/4.
     */
    constructor (speed: real)
      ensures walkers == [FIRST_WALKER]
      ensures Settings() == DefaultParams(speed)
    {
      var first := new Walker(Vec2(0.0, HEIGHT as real * -0.5), Vec2(0.0, 1.0));
      walkers := [first.State()];
      turnChance := 0.01;
      turnAngle := 1.0471975512;
      divisionChance := 0.00001;
      divisionAngle := 0.7853981634;
      this.speed := speed;
    }

    /**
     The fan-out: one step per walker, in order, with that walker's draws;
     `results[i]` is what walker `i`'s thread sends. The population is not
     changed.
     */
    method Dispatch(img: Image, draws: seq<Draws>, rotate: Rotation) returns (results: seq<seq<WalkerState>>)
      requires (|walkers| == 0 || FrameReady(img)) && |draws| == |walkers| && AllValid(draws)
      ensures results == StepAll(walkers, Settings(), img, draws, rotate)
    {
      var settings := Settings();
      results := [];
      for i := 0 to |walkers|
        invariant results == StepAll(walkers[..i], settings, img, draws[..i], rotate)
      {
        var group := Step(walkers[i], settings, img, draws[i], rotate);
        DispatchExtend(walkers, settings, img, draws, rotate, i);
        results := results + [group];
      }
      assert walkers[..|walkers|] == walkers;
      assert draws[..|walkers|] == draws;
    }

    /**
     The fan-in loop: receive the first `n` results in order and append the
     live walkers of each to the population.
     */
    method Collect(n: nat, results: seq<seq<WalkerState>>)
      requires n <= |results|
      modifies this
      ensures walkers == old(walkers) + LiveOnly(Flatten(results[..n]))
      ensures Settings() == old(Settings())
    {
      ghost var start := walkers;
      for k := 0 to n
        invariant walkers == start + LiveOnly(Flatten(results[..k]))
        invariant Settings() == old(Settings())
      {
        ReceiveStep(results, k);
        walkers := walkers + LiveOnly(results[k]);
      }
    }

    /**
     `Walkers::update` as written: every walker is stepped, but the receive
     loop's bound is the length of the population after it has been reset to
     empty, so no result is received and the population is empty afterwards.
     */
    method Update(img: Image, draws: seq<Draws>, rotate: Rotation)
      requires (|walkers| == 0 || FrameReady(img)) && |draws| == |walkers| && AllValid(draws)
      modifies this
      ensures walkers == [] && Settings() == old(Settings())
    {
      var results := Dispatch(img, draws, rotate);
      walkers := [];
      Collect(|walkers|, results);
    }

    /**
     `Walkers::update` with the receive loop bounded by the number of
     threads: the new population is the live walkers of every group, the
     groups in the order of the walkers they came from.
     */
    method UpdateCollected(img: Image, draws: seq<Draws>, rotate: Rotation)
      requires (|walkers| == 0 || FrameReady(img)) && |draws| == |walkers| && AllValid(draws)
      modifies this
      ensures walkers == Survivors(StepAll(old(walkers), old(Settings()), img, draws, rotate))
      ensures Settings() == old(Settings())
    {
      var results := Dispatch(img, draws, rotate);
      var threads := |walkers|;
      walkers := [];
      Collect(threads, results);
      assert results[..threads] == results;
    }
  }

  /** No pixel of `img` is white. */
  predicate NoWhite(img: Image)
    requires img.Valid()
  {
    forall x: nat, y: nat :: x < img.width && y < img.height ==> !IsWhite(img.GetPixel(x, y))
  }

  /** The walker `Walkers::new` starts with: middle of the bottom edge, heading up. */
  const FIRST_WALKER := WalkerState(Vec2(0.0, -250.0), Vec2(0.0, -250.0), Vec2(0.0, 1.0), false)

  /** The parameters `Walkers::new(speed)` sets. */
  function DefaultParams(speed: real): Params
  {
    Params(0.01, 1.0471975512, 0.00001, 0.7853981634, speed)
  }

  /**
   The first tick from `Walkers::new(0.5)` on a frame without white pixels,
   no roll succeeding: the intended collection keeps the walker, moved half a
   pixel up with its trail from the start point.
   */
  lemma FirstTickOnDarkFrame(img: Image, rotate: Rotation)
    requires FrameReady(img) && NoWhite(img)
    ensures Survivors(StepAll([FIRST_WALKER], DefaultParams(0.5), img, [Draws(50, 0, 50, 0)], rotate))
         == [WalkerState(Vec2(0.0, -249.5), Vec2(0.0, -250.0), Vec2(0.0, 1.0), false)]
  {
    var s := FIRST_WALKER;
    var p := DefaultParams(0.5);
    var d := Draws(50, 0, 50, 0);
    var moved := WalkerState(Vec2(0.0, -249.5), Vec2(0.0, -250.0), Vec2(0.0, 1.0), false);
    assert Advanced(s, 0.5) == moved;
    assert Wrapped(moved) == moved;
    DarkSample(img, moved.position);
    assert StepSpec(s, p, img, d, rotate) == [moved];
    assert StepAll([s], p, img, [d], rotate) == [[moved]];
    assert Flatten([[moved]]) == Flatten([]) + [moved];
  }

  /** Every pixel a walker can read from a frame without white pixels is not white. */
  lemma DarkSample(img: Image, q: Vec2)
    requires FrameReady(img) && NoWhite(img)
    ensures !IsWhite(SampleAt(img, q))
  {
    var cr := SampleIndex(img, q);
    assert !IsWhite(img.GetPixel(cr.0, cr.1));
  }

  /** An all-black frame the canvas' size has no white pixel. */
  lemma BlackFrameIsDark()
    ensures FrameReady(Uniform(WIDTH, HEIGHT, Rgba(0, 0, 0, 255)))
    ensures NoWhite(Uniform(WIDTH, HEIGHT, Rgba(0, 0, 0, 255)))
  {
  }
}

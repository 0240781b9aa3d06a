/**
 One walker (`struct Walker` of src/main.rs): its value `WalkerState`, as the
 population's vector holds it, the turn it makes from an integer draw, and
 the class whose methods update a thread's own copy in place as `turn` and
 `update` do through `&mut self`.
 */
module Agent {
  import opened Canvas

  /** The fields of a walker, as a value. */
  datatype WalkerState = WalkerState(position: Vec2, prevPosition: Vec2, velocity: Vec2, dead: bool)

  /**
   `Vec2::rotate`: trigonometry, kept abstract. Every operation that turns a
   walker takes the rotation as a parameter, so nothing here depends on what
   it computes.
   */
  type Rotation = (Vec2, real) -> Vec2

  function Abs(a: real): real
  {
    if a < 0.0 then -a else a
  }

  /**
   The factor `turn` scales its angle by, from an integer draw in [0, 100):
   `draw / 100 * 2 - 1`. The draws reach -1 (draw 0) but not +1: the largest
   factor is 0.98 (draw 99).
   */
  function TurnFactor(draw: int): (f: real)
    requires 0 <= draw < 100
    ensures -1.0 <= f <= 0.98
    ensures f == -1.0 <==> draw == 0
    ensures f == 0.98 <==> draw == 99
  {
    draw as real / 100.0 * 2.0 - 1.0
  }

  /** The angle `turn(angle)` rotates by; never larger in magnitude than `angle`. */
  function TurnAngle(angle: real, draw: int): (a: real)
    requires 0 <= draw < 100
    ensures Abs(a) <= Abs(angle)
    ensures angle >= 0.0 ==> -angle <= a <= 0.98 * angle
  {
    var f := TurnFactor(draw);
    var m := Abs(angle);
    MulNonNegative(m, f + 1.0);
    MulNonNegative(m, 0.98 - f);
    MulNonNegative(m, 1.0 - f);
    assert angle == m || angle == -m;
    angle * f
  }

  lemma MulNonNegative(a: real, b: real)
    requires a >= 0.0 && b >= 0.0
    ensures a * b >= 0.0
  {
  }

  /** The state after `turn(angle)` with factor draw `draw`. */
  function Turned(s: WalkerState, angle: real, draw: int, rotate: Rotation): WalkerState
    requires 0 <= draw < 100
  {
    s.(velocity := rotate(s.velocity, TurnAngle(angle, draw)))
  }

  /** The state after `update(speed)`. */
  function Advanced(s: WalkerState, speed: real): WalkerState
  {
    s.(prevPosition := s.position, position := Translate(s.position, s.velocity, speed))
  }

  /** Turning leaves everything but the heading alone. */
  lemma TurnedKeepsPlace(s: WalkerState, angle: real, draw: int, rotate: Rotation)
    requires 0 <= draw < 100
    ensures Turned(s, angle, draw, rotate).position == s.position
    ensures Turned(s, angle, draw, rotate).prevPosition == s.prevPosition
    ensures Turned(s, angle, draw, rotate).dead == s.dead
  {
  }

  /** Advancing records the old position as the trail start and moves by `velocity * speed`. */
  lemma AdvancedEffects(s: WalkerState, speed: real)
    ensures Advanced(s, speed).prevPosition == s.position
    ensures Advanced(s, speed).position.x == s.position.x + s.velocity.x * speed
    ensures Advanced(s, speed).position.y == s.position.y + s.velocity.y * speed
    ensures Advanced(s, speed).velocity == s.velocity && Advanced(s, speed).dead == s.dead
  {
  }

  class Walker {
    var position: Vec2
    var prevPosition: Vec2
    var velocity: Vec2
    var dead: bool

    function State(): WalkerState
      reads this
    {
      WalkerState(position, prevPosition, velocity, dead)
    }

    /** `Walker::new`: a live walker whose trail has no length yet. */
    constructor (position: Vec2, velocity: Vec2)
      ensures this.position == position && prevPosition == position
      ensures this.velocity == velocity && !dead
    {
      this.position := position;
      prevPosition := position;
      this.velocity := velocity;
      dead := false;
    }

    /** A walker object holding the value `s`: the clone a thread takes of a walker of the population. */
    constructor FromState(s: WalkerState)
      ensures State() == s
    {
      position := s.position;
      prevPosition := s.prevPosition;
      velocity := s.velocity;
      dead := s.dead;
    }

    /** The derived `clone`: a fresh walker with the same fields. */
    method Clone() returns (c: Walker)
      ensures fresh(c) && c.State() == State()
    {
      c := new Walker(position, velocity);
      c.prevPosition := prevPosition;
      c.dead := dead;
    }

    /** `turn(angle)`, with the factor's random draw passed in as `draw`. */
    method Turn(angle: real, draw: int, rotate: Rotation)
      requires 0 <= draw < 100
      modifies this
      ensures State() == Turned(old(State()), angle, draw, rotate)
      ensures Abs(TurnAngle(angle, draw)) <= Abs(angle)
    {
      var factor := draw as real / 100.0 * 2.0 - 1.0;
      assert angle * factor == TurnAngle(angle, draw);
      velocity := rotate(velocity, angle * factor);
    }

    /** `next_position(speed)`: where `update(speed)` will move the walker. */
    function NextPosition(speed: real): Vec2
      reads this
    {
      Translate(position, velocity, speed)
    }

    /** `update(speed)`: remember the position, then move to the next one. */
    method Update(speed: real)
      modifies this
      ensures prevPosition == old(position)
      ensures position == old(NextPosition(speed))
      ensures velocity == old(velocity) && dead == old(dead)
      ensures State() == Advanced(old(State()), speed)
    {
      prevPosition := position;
      position := NextPosition(speed);
    }
  }
}

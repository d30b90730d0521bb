/** One particle of the background canvas: how `reset` draws it and how
    `update` moves, reflects, fades and respawns it. Numbers are reals; every
    `Math.random()` is a parameter in [0, 1). */
module Particles {

  /** The seven `Math.random()` results one `reset` consumes, in call order. */
  datatype Draws = Draws(rX: real, rY: real, rSize: real, rSpeedX: real, rSpeedY: real,
                         rColour: real, rAlpha: real)
  {
    predicate Valid() {
      0.0 <= rX < 1.0 && 0.0 <= rY < 1.0 && 0.0 <= rSize < 1.0 && 0.0 <= rSpeedX < 1.0
      && 0.0 <= rSpeedY < 1.0 && 0.0 <= rColour < 1.0 && 0.0 <= rAlpha < 1.0
    }
  }

  predicate AllValid(ds: seq<Draws>) {
    forall k :: 0 <= k < |ds| ==> ds[k].Valid()
  }

  /** An `rgba(...)` fill colour. */
  datatype Rgba = Rgba(red: int, green: int, blue: int, opacity: real)

  /** The value of a particle: the fields `reset` and `update` write. */
  datatype ParticleState = ParticleState(x: real, y: real, size: real, speedX: real, speedY: real,
                                         colour: Rgba, alpha: real)

  /** Opacity lost per frame. */
  const AlphaDecay: real := 0.002

  function Abs(v: real): real {
    if v < 0.0 then -v else v
  }

  /** The particle colour for the active theme: the dark theme's cyan or the
      light theme's blue, with a random opacity below 0.5. */
  function ParticleColour(temaEscuro: bool, r: real): (c: Rgba)
    requires 0.0 <= r < 1.0
    ensures temaEscuro ==> (c.red, c.green, c.blue) == (15, 204, 206)
    ensures !temaEscuro ==> (c.red, c.green, c.blue) == (37, 99, 235)
    ensures 0.0 <= c.opacity < 0.5
  {
    var o := r * 0.5;
    if temaEscuro then Rgba(15, 204, 206, o) else Rgba(37, 99, 235, o)
  }

  /** Where an object sits when it evaluates `this.config.temaEscuro`: the
      application object has a `config`, a particle has none. */
  datatype Receiver = AppObject(temaEscuro: bool) | ParticleObject

  datatype Colouring = Coloured(colour: Rgba) | TypeError

  /** The colour line of `reset` as written: it reads `this.config.temaEscuro`,
      which throws when `this` has no `config`. */
  function ResetColourAsWritten(self: Receiver, r: real): (c: Colouring)
    requires 0.0 <= r < 1.0
    ensures c.TypeError? <==> self.ParticleObject?
  {
    match self
    case ParticleObject => TypeError
    case AppObject(t) => Coloured(ParticleColour(t, r))
  }

  /** Inside `Particle.reset`, `this` is the particle, so the colour line throws
      on every call, and with it the constructor and the start of the effect. */
  lemma ResetAsWrittenThrows(r: real)
    requires 0.0 <= r < 1.0
    ensures ResetColourAsWritten(ParticleObject, r) == TypeError
  {
  }

  /** `reset`: a fresh particle drawn over the canvas. Dimensions are the
      canvas's pixel width and height. */
  function Respawn(width: nat, height: nat, temaEscuro: bool, d: Draws): (p: ParticleState)
    requires d.Valid()
    ensures 0.0 <= p.x <= width as real && (width > 0 ==> p.x < width as real)
    ensures 0.0 <= p.y <= height as real && (height > 0 ==> p.y < height as real)
    ensures 1.0 <= p.size < 4.0
    ensures -0.5 <= p.speedX < 0.5 && -0.5 <= p.speedY < 0.5
    ensures 0.2 <= p.alpha < 0.7
    ensures p.colour == ParticleColour(temaEscuro, d.rColour)
  {
    ParticleState(Scale(d.rX, width), Scale(d.rY, height), d.rSize * 3.0 + 1.0,
                  d.rSpeedX * 1.0 - 0.5, d.rSpeedY * 1.0 - 0.5,
                  ParticleColour(temaEscuro, d.rColour), d.rAlpha * 0.5 + 0.2)
  }

  /** `Math.random() * bound`: a point of [0, bound), or 0 when bound is 0
      (the product itself is 0 then). */
  function Scale(r: real, bound: nat): (v: real)
    requires 0.0 <= r < 1.0
    ensures 0.0 <= v <= bound as real && (bound > 0 ==> v < bound as real)
  {
    if bound == 0 then 0.0 else ScaleBelow(r, bound); r * bound as real
  }

  lemma ScaleBelow(r: real, bound: nat)
    requires 0.0 <= r < 1.0 && bound > 0
    ensures 0.0 <= r * bound as real < bound as real
  {
    var w := bound as real;
    assert w - r * w == (1.0 - r) * w;
    assert w > 0.0;
    assert (1.0 - r) * w > 0.0;
  }

  /** An axis position is outside the canvas when `pos > bound || pos < 0`. */
  predicate OutOfBounds(pos: real, bound: nat) {
    pos > bound as real || pos < 0.0
  }

  /** The first part of `update`: move by the velocity, flip each velocity
      component whose axis is now out of bounds, and fade. */
  function Advance(p: ParticleState, width: nat, height: nat): ParticleState {
    var x := p.x + p.speedX;
    var y := p.y + p.speedY;
    var speedX := if OutOfBounds(x, width) then -p.speedX else p.speedX;
    var speedY := if OutOfBounds(y, height) then -p.speedY else p.speedY;
    p.(x := x, y := y, speedX := speedX, speedY := speedY, alpha := p.alpha - AlphaDecay)
  }

  /** Whether this `update` ends in a respawn. */
  predicate Respawns(p: ParticleState) {
    p.alpha - AlphaDecay <= 0.0
  }

  /** `update`: advance, then `reset` when the faded alpha is no longer positive. */
  function Step(p: ParticleState, width: nat, height: nat, temaEscuro: bool, d: Draws): ParticleState
    requires d.Valid()
  {
    var q := Advance(p, width, height);
    if q.alpha <= 0.0 then Respawn(width, height, temaEscuro, d) else q
  }

  /** Reflection law: on a step that does not respawn, the particle moves by its
      velocity, a velocity component is negated exactly when its axis is out of
      bounds after the move and kept otherwise, so its magnitude never changes,
      and alpha drops by exactly AlphaDecay. */
  lemma StepReflects(p: ParticleState, width: nat, height: nat, temaEscuro: bool, d: Draws)
    requires d.Valid() && !Respawns(p)
    ensures var q := Step(p, width, height, temaEscuro, d);
      && q.x == p.x + p.speedX && q.y == p.y + p.speedY
      && (OutOfBounds(q.x, width) ==> q.speedX == -p.speedX)
      && (!OutOfBounds(q.x, width) ==> q.speedX == p.speedX)
      && (OutOfBounds(q.y, height) ==> q.speedY == -p.speedY)
      && (!OutOfBounds(q.y, height) ==> q.speedY == p.speedY)
      && Abs(q.speedX) == Abs(p.speedX) && Abs(q.speedY) == Abs(p.speedY)
      && q.alpha == p.alpha - AlphaDecay
      && q.size == p.size && q.colour == p.colour
  {
  }

  /** Respawn law: a step whose faded alpha is not positive replaces the
      particle by a fresh draw, with alpha strictly positive again. */
  lemma StepRespawns(p: ParticleState, width: nat, height: nat, temaEscuro: bool, d: Draws)
    requires d.Valid() && Respawns(p)
    ensures Step(p, width, height, temaEscuro, d) == Respawn(width, height, temaEscuro, d)
    ensures Step(p, width, height, temaEscuro, d).alpha > 0.0
  {
  }

  /** The opacity of a live particle. */
  predicate AlphaInRange(p: ParticleState) {
    0.0 < p.alpha < 0.7
  }

  /** `0 < alpha < 0.7` holds after `reset` and is kept by every `update`. */
  lemma StepKeepsAlpha(p: ParticleState, width: nat, height: nat, temaEscuro: bool, d: Draws)
    requires d.Valid() && AlphaInRange(p)
    ensures AlphaInRange(Respawn(width, height, temaEscuro, d))
    ensures AlphaInRange(Step(p, width, height, temaEscuro, d))
  {
  }

  /** One axis of the particle is at most one step outside [0, bound], and when
      it is outside it is heading back in. */
  predicate NearAxis(pos: real, speed: real, bound: nat) {
    -Abs(speed) <= pos <= bound as real + Abs(speed)
    && (pos > bound as real ==> speed <= 0.0)
    && (pos < 0.0 ==> speed >= 0.0)
  }

  /** What stays true of a particle across updates on a canvas of fixed size.
      It does not say that the particle is inside the canvas: the flip comes
      after the move, so a particle may overshoot an edge by one step. */
  predicate Sound(p: ParticleState, width: nat, height: nat) {
    AlphaInRange(p) && 1.0 <= p.size < 4.0
    && Abs(p.speedX) <= 0.5 && Abs(p.speedY) <= 0.5
    && NearAxis(p.x, p.speedX, width) && NearAxis(p.y, p.speedY, height)
  }

  lemma AdvanceNearAxis(pos: real, speed: real, bound: nat)
    requires NearAxis(pos, speed, bound)
    ensures var moved := pos + speed;
      NearAxis(moved, if OutOfBounds(moved, bound) then -speed else speed, bound)
  {
  }

  lemma RespawnSound(width: nat, height: nat, temaEscuro: bool, d: Draws)
    requires d.Valid()
    ensures Sound(Respawn(width, height, temaEscuro, d), width, height)
  {
  }

  /** Every `update` on a canvas of unchanged size keeps Sound; so a particle is
      never more than half a pixel outside the canvas. */
  lemma StepSound(p: ParticleState, width: nat, height: nat, temaEscuro: bool, d: Draws)
    requires d.Valid() && Sound(p, width, height)
    ensures Sound(Step(p, width, height, temaEscuro, d), width, height)
    ensures var q := Step(p, width, height, temaEscuro, d);
      -0.5 <= q.x <= width as real + 0.5 && -0.5 <= q.y <= height as real + 0.5
  {
    if Respawns(p) {
      RespawnSound(width, height, temaEscuro, d);
    } else {
      AdvanceNearAxis(p.x, p.speedX, width);
      AdvanceNearAxis(p.y, p.speedY, height);
    }
  }

  /** The overshoot is real: near the right edge a particle steps past it. */
  lemma StepCanOvershoot(d: Draws)
    requires d.Valid()
    ensures Step(ParticleState(99.9, 10.0, 2.0, 0.3, 0.0, Rgba(15, 204, 206, 0.1), 0.5),
                 100, 100, true, d).x > 100.0
  {
  }

  /** A particle of the canvas, as the class `Particle` inside
      `iniciarParticulas`. The theme is a parameter of `reset` (see
      ResetColourAsWritten for what the code does instead). */
  class Particle {
    var x: real
    var y: real
    var size: real
    var speedX: real
    var speedY: real
    var colour: Rgba
    var alpha: real

    function State(): ParticleState
      reads this
    {
      ParticleState(x, y, size, speedX, speedY, colour, alpha)
    }

    constructor (width: nat, height: nat, temaEscuro: bool, d: Draws)
      requires d.Valid()
      ensures State() == Respawn(width, height, temaEscuro, d)
    {
      new;
      Reset(width, height, temaEscuro, d);
    }

    method Reset(width: nat, height: nat, temaEscuro: bool, d: Draws)
      requires d.Valid()
      modifies this
      ensures State() == Respawn(width, height, temaEscuro, d)
    {
      x := Scale(d.rX, width);
      y := Scale(d.rY, height);
      size := d.rSize * 3.0 + 1.0;
      speedX := d.rSpeedX * 1.0 - 0.5;
      speedY := d.rSpeedY * 1.0 - 0.5;
      colour := ParticleColour(temaEscuro, d.rColour);
      alpha := d.rAlpha * 0.5 + 0.2;
    }

    /** `d` is consumed only if the particle respawns. */
    method Update(width: nat, height: nat, temaEscuro: bool, d: Draws)
      requires d.Valid()
      modifies this
      ensures State() == Step(old(State()), width, height, temaEscuro, d)
    {
      x := x + speedX;
      y := y + speedY;
      if x > width as real || x < 0.0 { speedX := speedX * -1.0; }
      if y > height as real || y < 0.0 { speedY := speedY * -1.0; }
      alpha := alpha - AlphaDecay;
      if alpha <= 0.0 {
        Reset(width, height, temaEscuro, d);
      }
    }
  }
}

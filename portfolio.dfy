/** The application object: the fields of `config`, the particle list, and the
    browser state its handlers touch. Each handler is a method whose effect on
    the flags is one transition of the Controls module and whose effect on the
    particles is stated through Particles.Step and Particles.Respawn. */
module Portfolio {
  import opened Controls
  import opened Particles
  import opened ParticleLinks

  /** Particles `iniciarParticulas` creates. */
  const ParticleCount: nat := 50

  class PortfolioApp {
    var particulasAtivas: bool
    var mouseEfeitoAtivo: bool
    var temaEscuro: bool
    var rastroMouse: seq<TrailDot>
    var particles: seq<Particle>
    var animationId: Option<nat>
    const hasCanvas: bool
    var canvasActive: bool
    var canvasWidth: nat
    var canvasHeight: nat
    var pendingFrames: set<nat>
    var nextFrameHandle: nat
    var pendingRestarts: nat
    var storedTema: Option<string>

    /** Everything but the particles, as a value. */
    function State(): Config
      reads this
    {
      Config(particulasAtivas, mouseEfeitoAtivo, temaEscuro, rastroMouse, animationId,
             hasCanvas, canvasActive, canvasWidth, canvasHeight, pendingFrames,
             nextFrameHandle, pendingRestarts, storedTema)
    }

    predicate Distinct()
      reads this
    {
      forall a, b :: 0 <= a < b < |particles| ==> particles[a] != particles[b]
    }

    /** The invariant of the corrected handlers. */
    predicate Valid()
      reads this
    {
      Controls.Valid(State()) && Distinct()
    }

    /** What the handlers without a cancel still keep (no single-loop guarantee). */
    predicate Structured()
      reads this
    {
      Wellformed(State()) && Distinct()
    }

    /** The list `iniciarParticulas` leaves: fifty particles, each reset from
        its draws in `build` and, when the effect is on, moved once by the
        first `animate` with the draws in `frame`. */
    predicate Populated(width: nat, height: nat, build: seq<Draws>, frame: seq<Draws>)
      requires |build| == ParticleCount && AllValid(build) && |frame| == ParticleCount && AllValid(frame)
      reads this, particles
    {
      |particles| == ParticleCount && forall k :: 0 <= k < ParticleCount ==>
        particles[k].State() == (
          var p := Respawn(width, height, temaEscuro, build[k]);
          if particulasAtivas then Step(p, width, height, temaEscuro, frame[k]) else p)
    }

    constructor (hasCanvas: bool)
      ensures State() == Initial(hasCanvas) && particles == [] && Valid()
    {
      particulasAtivas, mouseEfeitoAtivo, temaEscuro := false, false, true;
      rastroMouse, particles, animationId := [], [], None;
      this.hasCanvas := hasCanvas;
      canvasActive, canvasWidth, canvasHeight := false, 0, 0;
      pendingFrames, nextFrameHandle, pendingRestarts := {}, 1, 0;
      storedTema := None;
      new;
      InitialValid(hasCanvas);
    }

    /** Pushes a restart timer; a part of `alternarTema`. */
    method SetRestartTimer()
      modifies this
      ensures State() == old(State()).(pendingRestarts := old(pendingRestarts) + 1)
      ensures particles == old(particles)
    {
      pendingRestarts := pendingRestarts + 1;
    }

    /** `cancelAnimationFrame` on a truthy `animationId`, which then becomes null. */
    method CancelPendingFrame()
      modifies this
      ensures State() == CancelFrame(old(State())) && particles == old(particles)
    {
      if animationId.Some? && animationId.value != 0 {
        pendingFrames := pendingFrames - {animationId.value};
        animationId := None;
      }
    }

    /** `resizeCanvas()` and the `ativo` class of `iniciarParticulas`. */
    method ResizeAndActivate(width: nat, height: nat)
      requires hasCanvas
      modifies this
      ensures State() == old(State()).(canvasWidth := width, canvasHeight := height, canvasActive := true)
      ensures particles == old(particles)
    {
      canvasWidth, canvasHeight := width, height;
      canvasActive := true;
    }

    /** `pararParticulas`. */
    method PararParticulas()
      requires Structured()
      modifies this
      ensures State() == Stop(old(State())) && particles == old(particles)
      ensures Structured()
      ensures old(Valid()) ==> Valid() && animationId == None && pendingFrames == {}
    {
      ghost var s0 := State();
      if hasCanvas {
        canvasActive := false;
      }
      CancelPendingFrame();
      if Controls.Valid(s0) { StopLaws(s0); }
    }

    /** `alternarTema`. */
    method AlternarTema()
      requires Valid()
      modifies this
      ensures State() == ToggleTheme(old(State())) && particles == old(particles)
      ensures Valid()
      ensures storedTema == Some("escuro") <==> temaEscuro
    {
      ghost var s0 := State();
      temaEscuro := !temaEscuro;
      storedTema := Some(TemaValue(temaEscuro));
      if particulasAtivas {
        PararParticulas();
        SetRestartTimer();
      }
      ToggleThemeLaws(s0);
    }

    /** `inicializarTema`, given what `localStorage` holds under `tema`. */
    method InicializarTema(saved: Option<string>)
      requires Valid()
      modifies this
      ensures State() == LoadSavedTheme(old(State()), saved) && particles == old(particles)
      ensures Valid()
    {
      if saved == Some("claro") {
        AlternarTema();
      }
    }

    /** The loop of `iniciarParticulas` that fills the list: fifty particles,
        each reset from its own draws, replacing whatever the list held. */
    method BuildParticles(draws: seq<Draws>)
      requires |draws| == ParticleCount && AllValid(draws)
      modifies this
      ensures State() == old(State())
      ensures |particles| == ParticleCount && Distinct()
      ensures forall k :: 0 <= k < ParticleCount ==>
        fresh(particles[k]) && particles[k].State() == Respawn(canvasWidth, canvasHeight, temaEscuro, draws[k])
    {
      particles := [];
      for i := 0 to ParticleCount
        invariant |particles| == i && State() == old(State())
        invariant Distinct()
        invariant forall k :: 0 <= k < i ==>
          fresh(particles[k]) && particles[k].State() == Respawn(canvasWidth, canvasHeight, temaEscuro, draws[k])
      {
        var p := new Particle(canvasWidth, canvasHeight, temaEscuro, draws[i]);
        particles := particles + [p];
      }
    }

    /** The `forEach` of `animate`: every particle updated, in list order. */
    method UpdateParticles(draws: seq<Draws>)
      requires Distinct() && |draws| == |particles| && AllValid(draws)
      modifies particles
      ensures forall k :: 0 <= k < |particles| ==>
        particles[k].State() == Step(old(particles[k].State()), canvasWidth, canvasHeight, temaEscuro, draws[k])
    {
      var i := 0;
      while i < |particles|
        invariant 0 <= i <= |particles|
        invariant forall k :: 0 <= k < i ==>
          particles[k].State() == Step(old(particles[k].State()), canvasWidth, canvasHeight, temaEscuro, draws[k])
        invariant forall k :: i <= k < |particles| ==> particles[k].State() == old(particles[k].State())
      {
        particles[i].Update(canvasWidth, canvasHeight, temaEscuro, draws[i]);
        i := i + 1;
      }
    }

    /** `this.config.animationId = requestAnimationFrame(animate)`. */
    method RequestFrame()
      modifies this
      ensures State() == Schedule(old(State())) && particles == old(particles)
    {
      animationId := Some(nextFrameHandle);
      pendingFrames := pendingFrames + {nextFrameHandle};
      nextFrameHandle := nextFrameHandle + 1;
    }

    /** `animate`: returns at once when the effect is off; otherwise updates
        every particle in list order, links the pairs within reach, and
        schedules the next frame. `draws[k]` is used if particle `k` respawns.
        Returns the linked pairs, in drawing order. */
    method Animate(draws: seq<Draws>) returns (links: seq<(nat, nat)>)
      requires Distinct() && |draws| == |particles| && AllValid(draws)
      modifies this, particles
      ensures State() == Controls.Animate(old(State())) && particles == old(particles)
      ensures forall k :: 0 <= k < |particles| ==>
        particles[k].State() == (
          if old(particulasAtivas)
          then Step(old(particles[k].State()), canvasWidth, canvasHeight, temaEscuro, draws[k])
          else old(particles[k].State()))
      ensures links == if old(particulasAtivas) then Linked(Positions(particles), AllPairs(|particles|)) else []
    {
      if !particulasAtivas {
        return [];
      }
      UpdateParticles(draws);
      var checked;
      checked, links := LinkPass(particles);
      RequestFrame();
    }

    /** `iniciarParticulas` with the colour line corrected but no cancel: a
        frame already pending stays pending. `build` feeds the fifty resets,
        `frame` the first `animate`. */
    method IniciarParticulasNoCancel(width: nat, height: nat, build: seq<Draws>, frame: seq<Draws>)
      returns (links: seq<(nat, nat)>)
      requires Structured()
      requires |build| == ParticleCount && AllValid(build) && |frame| == ParticleCount && AllValid(frame)
      modifies this
      ensures State() == StartNoCancel(old(State()), width, height) && Structured()
      ensures !hasCanvas ==> particles == old(particles) && links == []
      ensures hasCanvas ==> Populated(width, height, build, frame)
      ensures hasCanvas ==>
        links == (if particulasAtivas then Linked(Positions(particles), AllPairs(ParticleCount)) else [])
    {
      if !hasCanvas {
        return [];
      }
      ghost var s0 := State();
      ResizeAndActivate(width, height);
      BuildParticles(build);
      ghost var t := temaEscuro;
      ghost var built := seq(ParticleCount, k requires 0 <= k < ParticleCount => Respawn(width, height, t, build[k]));
      assert forall k :: 0 <= k < ParticleCount ==> particles[k].State() == built[k];
      links := Animate(frame);
      StartNoCancelWellformed(s0, width, height);
    }

    /** The start of the effect with the pending frame, if any, cancelled
        first: the corrected `iniciarParticulas`. */
    method IniciarParticulas(width: nat, height: nat, build: seq<Draws>, frame: seq<Draws>)
      returns (links: seq<(nat, nat)>)
      requires Valid()
      requires |build| == ParticleCount && AllValid(build) && |frame| == ParticleCount && AllValid(frame)
      modifies this
      ensures State() == Start(old(State()), width, height) && Valid()
      ensures !hasCanvas ==> particles == old(particles) && links == []
      ensures hasCanvas ==> Populated(width, height, build, frame)
      ensures hasCanvas ==>
        links == (if particulasAtivas then Linked(Positions(particles), AllPairs(ParticleCount)) else [])
    {
      ghost var s0 := State();
      if !hasCanvas {
        return [];
      }
      CancelPendingFrame();
      CancelFrameValid(s0);
      assert Structured();
      links := IniciarParticulasNoCancel(width, height, build, frame);
      StartValid(s0, width, height);
    }

    /** The browser runs the pending frame callback `h`. */
    method RunFrame(h: nat, draws: seq<Draws>) returns (links: seq<(nat, nat)>)
      requires Valid() && h in pendingFrames && |draws| == |particles| && AllValid(draws)
      modifies this, particles
      ensures State() == FrameFired(old(State()), h) && particles == old(particles) && Valid()
      ensures forall k :: 0 <= k < |particles| ==>
        particles[k].State() == (
          if particulasAtivas
          then Step(old(particles[k].State()), canvasWidth, canvasHeight, temaEscuro, draws[k])
          else old(particles[k].State()))
      ensures links == if particulasAtivas then Linked(Positions(particles), AllPairs(|particles|)) else []
    {
      ghost var s0 := State();
      pendingFrames := pendingFrames - {h};
      links := Animate(draws);
      FrameFiredValid(s0, h);
    }

    /** The click handler of `#toggleParticulas`, with the corrected start;
        on every state the page reaches it is the handler script.js:65 runs
        (Controls.ToggleParticlesNeedsNoCancel). */
    method ToggleParticulas(width: nat, height: nat, build: seq<Draws>, frame: seq<Draws>)
      returns (links: seq<(nat, nat)>)
      requires Valid()
      requires |build| == ParticleCount && AllValid(build) && |frame| == ParticleCount && AllValid(frame)
      modifies this
      ensures State() == ToggleParticles(old(State()), width, height) && Valid()
      ensures !hasCanvas ==> particles == old(particles) && links == []
      ensures particulasAtivas && hasCanvas ==> Populated(width, height, build, frame)
      ensures particulasAtivas && hasCanvas ==> links == Linked(Positions(particles), AllPairs(ParticleCount))
      ensures !particulasAtivas ==> particles == old(particles) && links == []
    {
      ghost var s0 := State();
      particulasAtivas := !particulasAtivas;
      if particulasAtivas {
        links := IniciarParticulas(width, height, build, frame);
      } else {
        PararParticulas();
        links := [];
      }
      ToggleParticlesLaws(s0, width, height);
    }

    /** A 100 ms restart timer of `alternarTema` fires. */
    method FireRestart(width: nat, height: nat, build: seq<Draws>, frame: seq<Draws>)
      returns (links: seq<(nat, nat)>)
      requires Valid() && pendingRestarts > 0
      requires |build| == ParticleCount && AllValid(build) && |frame| == ParticleCount && AllValid(frame)
      modifies this
      ensures State() == RestartFired(old(State()), width, height) && Valid()
      ensures !hasCanvas ==> particles == old(particles) && links == []
      ensures hasCanvas ==> Populated(width, height, build, frame)
      ensures hasCanvas ==>
        links == (if particulasAtivas then Linked(Positions(particles), AllPairs(ParticleCount)) else [])
    {
      ghost var s0 := State();
      pendingRestarts := pendingRestarts - 1;
      assert State() == s0.(pendingRestarts := s0.pendingRestarts - 1);
      links := IniciarParticulas(width, height, build, frame);
    }

    /** The same timer with the start that does not cancel. */
    method FireRestartNoCancel(width: nat, height: nat, build: seq<Draws>, frame: seq<Draws>)
      returns (links: seq<(nat, nat)>)
      requires Structured() && pendingRestarts > 0
      requires |build| == ParticleCount && AllValid(build) && |frame| == ParticleCount && AllValid(frame)
      modifies this
      ensures State() == RestartFiredNoCancel(old(State()), width, height) && Structured()
      ensures !hasCanvas ==> particles == old(particles) && links == []
      ensures hasCanvas ==> Populated(width, height, build, frame)
      ensures hasCanvas ==>
        links == (if particulasAtivas then Linked(Positions(particles), AllPairs(ParticleCount)) else [])
    {
      ghost var s0 := State();
      pendingRestarts := pendingRestarts - 1;
      assert State() == s0.(pendingRestarts := s0.pendingRestarts - 1);
      links := IniciarParticulasNoCancel(width, height, build, frame);
    }

    /** `iniciarEfeitoMouse`, as far as the trail list goes: ten new entries. */
    method IniciarEfeitoMouse()
      modifies this
      ensures State() == old(State()).(rastroMouse := old(rastroMouse) + NewTrail(TrailLength))
      ensures particles == old(particles)
    {
      for i := 0 to TrailLength
        invariant rastroMouse == old(rastroMouse) + NewTrail(i)
        invariant State() == old(State()).(rastroMouse := rastroMouse) && particles == old(particles)
      {
        rastroMouse := rastroMouse + [TrailDot(0, 0, None)];
      }
    }

    /** `pararEfeitoMouse`, as far as the trail list goes. */
    method PararEfeitoMouse()
      modifies this
      ensures State() == StopMouse(old(State())) && particles == old(particles)
    {
      rastroMouse := [];
    }

    /** The click handler of `#toggleMouse`. */
    method ToggleMouse()
      requires Valid()
      modifies this
      ensures State() == Controls.ToggleMouse(old(State())) && particles == old(particles)
      ensures Valid()
      ensures |rastroMouse| == if mouseEfeitoAtivo then TrailLength else 0
    {
      ghost var s0 := State();
      mouseEfeitoAtivo := !mouseEfeitoAtivo;
      if mouseEfeitoAtivo {
        IniciarEfeitoMouse();
      } else {
        PararEfeitoMouse();
      }
      ToggleMouseLaws(s0);
    }

    /** `destroy`. */
    method Destroy()
      requires Valid()
      modifies this
      ensures State() == Controls.Destroy(old(State())) && particles == old(particles)
      ensures Valid() && pendingFrames == {} && rastroMouse == []
    {
      ghost var s0 := State();
      PararParticulas();
      PararEfeitoMouse();
      DestroyValid(s0);
    }
  }
}

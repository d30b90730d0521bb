/** The `config` flags of the page and what each handler does to them, as
    transitions on a value. The browser's side of the bargain is part of the
    value too: the frames `requestAnimationFrame` has scheduled, the restart
    timers `alternarTema` has set, the canvas's `ativo` class and the value
    written to `localStorage`. */
module Controls {

  datatype Option<T> = None | Some(value: T)

  /** One entry of `rastroMouse`; the DOM element it owns is not modelled. */
  datatype TrailDot = TrailDot(x: int, y: int, timer: Option<nat>)

  /** Entries `iniciarEfeitoMouse` adds to the trail. */
  const TrailLength: nat := 10

  datatype Config = Config(
    particulasAtivas: bool,
    mouseEfeitoAtivo: bool,
    temaEscuro: bool,
    rastroMouse: seq<TrailDot>,
    animationId: Option<nat>,
    hasCanvas: bool,            // whether the page has `#particlesCanvas`
    canvasActive: bool,         // whether the canvas has the class `ativo`
    canvasWidth: nat,
    canvasHeight: nat,
    pendingFrames: set<nat>,    // handles of frame callbacks not yet run or cancelled
    nextFrameHandle: nat,       // the handle the next `requestAnimationFrame` returns
    pendingRestarts: nat,       // 100 ms restart timers not yet fired
    storedTema: Option<string>) // the value this page has written under `tema`, if any

  /** The state the constructor sets up. */
  function Initial(hasCanvas: bool): Config {
    Config(false, false, true, [], None, hasCanvas, false, 0, 0, {}, 1, 0, None)
  }

  /** The value stored for a theme. */
  function TemaValue(temaEscuro: bool): string {
    if temaEscuro then "escuro" else "claro"
  }

  function IdSet(id: Option<nat>): set<nat> {
    if id.Some? then {id.value} else {}
  }

  /** JavaScript truthiness of `animationId`: `null` and `0` are false. */
  predicate Truthy(id: Option<nat>) {
    id.Some? && id.value != 0
  }

  /** The part of `pararParticulas` that cancels the pending frame. */
  function CancelFrame(c: Config): Config {
    if Truthy(c.animationId) then
      c.(pendingFrames := c.pendingFrames - {c.animationId.value}, animationId := None)
    else c
  }

  /** `pararParticulas`. */
  function Stop(c: Config): Config {
    CancelFrame(if c.hasCanvas then c.(canvasActive := false) else c)
  }

  /** `requestAnimationFrame(animate)`, its handle kept in `animationId`. */
  function Schedule(c: Config): Config {
    c.(pendingFrames := c.pendingFrames + {c.nextFrameHandle},
       nextFrameHandle := c.nextFrameHandle + 1,
       animationId := Some(c.nextFrameHandle))
  }

  /** One run of `animate`, as far as the flags go: it returns at once when the
      effect is off, and otherwise ends by scheduling the next frame. */
  function Animate(c: Config): Config {
    if !c.particulasAtivas then c else Schedule(c)
  }

  /** The browser runs the frame callback `h`. */
  function FrameFired(c: Config, h: nat): Config {
    Animate(c.(pendingFrames := c.pendingFrames - {h}))
  }

  /** `iniciarParticulas` with the colour line of `reset` corrected but no
      cancel: size the canvas, mark it active, (build the particles,) and call
      `animate` once; no-op without a canvas. A frame already pending is left
      pending. (Exactly as written, the first `new Particle()` throws before
      `animate`, so no frame is scheduled at all.) */
  function StartNoCancel(c: Config, width: nat, height: nat): Config {
    if !c.hasCanvas then c
    else Animate(c.(canvasWidth := width, canvasHeight := height, canvasActive := true))
  }

  /** `iniciarParticulas` with the pending frame cancelled first, so that the
      page never runs two animation loops. */
  function Start(c: Config, width: nat, height: nat): Config {
    if !c.hasCanvas then c else StartNoCancel(CancelFrame(c), width, height)
  }

  /** `alternarTema`: flip the theme, store it, and restart a running effect
      after a delay. */
  function ToggleTheme(c: Config): Config {
    var t := !c.temaEscuro;
    var c1 := c.(temaEscuro := t, storedTema := Some(TemaValue(t)));
    if c1.particulasAtivas then Stop(c1).(pendingRestarts := c1.pendingRestarts + 1) else c1
  }

  /** `inicializarTema`: the saved value `claro` switches to the light theme. */
  function LoadSavedTheme(c: Config, saved: Option<string>): Config {
    if saved == Some("claro") then ToggleTheme(c) else c
  }

  /** A restart timer of `alternarTema` fires and calls `iniciarParticulas`. */
  function RestartFired(c: Config, width: nat, height: nat): Config
    requires c.pendingRestarts > 0
  {
    Start(c.(pendingRestarts := c.pendingRestarts - 1), width, height)
  }

  /** The same with the start that does not cancel (`StartNoCancel`). */
  function RestartFiredNoCancel(c: Config, width: nat, height: nat): Config
    requires c.pendingRestarts > 0
  {
    StartNoCancel(c.(pendingRestarts := c.pendingRestarts - 1), width, height)
  }

  /** The click handler of `#toggleParticulas`. */
  function ToggleParticles(c: Config, width: nat, height: nat): Config {
    var c1 := c.(particulasAtivas := !c.particulasAtivas);
    if c1.particulasAtivas then Start(c1, width, height) else Stop(c1)
  }

  /** The entries `iniciarEfeitoMouse` pushes: at the origin, no timer. */
  function NewTrail(n: nat): (t: seq<TrailDot>)
    ensures |t| == n && forall k :: 0 <= k < n ==> t[k] == TrailDot(0, 0, None)
  {
    if n == 0 then [] else NewTrail(n - 1) + [TrailDot(0, 0, None)]
  }

  /** `pararEfeitoMouse`. */
  function StopMouse(c: Config): Config {
    c.(rastroMouse := [])
  }

  /** The click handler of `#toggleMouse`. */
  function ToggleMouse(c: Config): Config {
    var c1 := c.(mouseEfeitoAtivo := !c.mouseEfeitoAtivo);
    if c1.mouseEfeitoAtivo then c1.(rastroMouse := c1.rastroMouse + NewTrail(TrailLength))
    else StopMouse(c1)
  }

  /** `destroy`. */
  function Destroy(c: Config): Config {
    StopMouse(Stop(c))
  }

  /** Facts every handler keeps: handles are positive and below the next one,
      the stored theme agrees with the flag, the trail is empty when its effect
      is off, and a page without a canvas never marks one. */
  predicate Wellformed(c: Config) {
    && c.nextFrameHandle >= 1
    && (forall h :: h in c.pendingFrames ==> 0 < h < c.nextFrameHandle)
    && (c.animationId.Some? ==> 0 < c.animationId.value < c.nextFrameHandle)
    && (c.storedTema.Some? ==> c.storedTema.value == TemaValue(c.temaEscuro))
    && |c.rastroMouse| <= TrailLength
    && (!c.mouseEfeitoAtivo ==> c.rastroMouse == [])
    && (!c.hasCanvas ==> !c.canvasActive)
  }

  /** At most one frame callback is pending, and it is the one `animationId`
      names, so that `pararParticulas` can cancel it. */
  predicate SingleLoop(c: Config) {
    c.pendingFrames <= IdSet(c.animationId)
  }

  predicate Valid(c: Config) {
    Wellformed(c) && SingleLoop(c)
  }

  lemma InitialValid(hasCanvas: bool)
    ensures Valid(Initial(hasCanvas))
    ensures Initial(hasCanvas).pendingFrames == {} && !Initial(hasCanvas).particulasAtivas
  {
  }

  lemma CancelFrameValid(c: Config)
    requires Valid(c)
    ensures Valid(CancelFrame(c)) && CancelFrame(c).pendingFrames == {}
    ensures CancelFrame(c).animationId == None
  {
  }

  lemma ScheduleValid(c: Config)
    requires Wellformed(c) && c.pendingFrames == {}
    ensures Valid(Schedule(c)) && Schedule(c).pendingFrames == {c.nextFrameHandle}
  {
  }

  /** The start without a cancel keeps the facts, though not SingleLoop. */
  lemma StartNoCancelWellformed(c: Config, width: nat, height: nat)
    requires Wellformed(c)
    ensures Wellformed(StartNoCancel(c, width, height))
  {
  }

  /** `pararParticulas` leaves no frame pending and `animationId` null, and
      a second call changes nothing. */
  lemma StopLaws(c: Config)
    requires Valid(c)
    ensures Valid(Stop(c))
    ensures Stop(c).animationId == None && Stop(c).pendingFrames == {}
    ensures !Stop(c).canvasActive
    ensures Stop(Stop(c)) == Stop(c)
  {
    CancelFrameValid(if c.hasCanvas then c.(canvasActive := false) else c);
  }

  /** Even without the invariant, stopping twice is stopping once. */
  lemma StopIdempotent(c: Config)
    ensures Stop(Stop(c)) == Stop(c)
  {
  }

  /** With the effect off, `animate` schedules nothing: the handler, and a
      frame firing, leave no new callback behind. */
  lemma AnimateWhenOff(c: Config, h: nat)
    requires !c.particulasAtivas
    ensures Animate(c) == c
    ensures FrameFired(c, h).pendingFrames == c.pendingFrames - {h}
  {
  }

  /** With the effect on, a frame that fires schedules exactly one successor. */
  lemma FrameFiredValid(c: Config, h: nat)
    requires Valid(c) && h in c.pendingFrames
    ensures Valid(FrameFired(c, h))
    ensures FrameFired(c, h).pendingFrames == if c.particulasAtivas then {c.nextFrameHandle} else {}
  {
    assert c.pendingFrames == {h};
  }

  lemma StartValid(c: Config, width: nat, height: nat)
    requires Valid(c)
    ensures Valid(Start(c, width, height))
    ensures c.hasCanvas ==> Start(c, width, height).canvasActive
    ensures c.hasCanvas ==> Start(c, width, height).pendingFrames ==
                              if c.particulasAtivas then {c.nextFrameHandle} else {}
  {
    if c.hasCanvas {
      CancelFrameValid(c);
      var c1 := CancelFrame(c).(canvasWidth := width, canvasHeight := height, canvasActive := true);
      if c1.particulasAtivas {
        ScheduleValid(c1);
      }
    }
  }

  /** `alternarTema` flips the flag and stores the matching value, and stops
      a running effect, with one more restart pending. */
  lemma ToggleThemeLaws(c: Config)
    requires Valid(c)
    ensures var t := ToggleTheme(c);
      && Valid(t)
      && t.temaEscuro == !c.temaEscuro
      && t.storedTema == Some(TemaValue(t.temaEscuro))
      && (t.storedTema == Some("escuro") <==> t.temaEscuro)
      && t.particulasAtivas == c.particulasAtivas
      && (c.particulasAtivas ==> t.pendingFrames == {} && t.animationId == None
                                 && t.pendingRestarts == c.pendingRestarts + 1)
      && (!c.particulasAtivas ==> t.pendingRestarts == c.pendingRestarts
                                  && t.pendingFrames == c.pendingFrames)
  {
    var c1 := c.(temaEscuro := !c.temaEscuro, storedTema := Some(TemaValue(!c.temaEscuro)));
    if c1.particulasAtivas {
      StopLaws(c1);
    }
  }

  /** Toggling the theme twice restores the flag. */
  lemma ToggleThemeTwice(c: Config)
    ensures ToggleTheme(ToggleTheme(c)).temaEscuro == c.temaEscuro
    ensures ToggleTheme(ToggleTheme(c)).storedTema == Some(TemaValue(c.temaEscuro))
  {
  }

  /** Only the stored value `claro` changes the theme at load time. */
  lemma LoadSavedThemeLaws(c: Config, saved: Option<string>)
    requires Valid(c) && c.temaEscuro && c.storedTema == None
    ensures Valid(LoadSavedTheme(c, saved))
    ensures LoadSavedTheme(c, saved).temaEscuro <==> saved != Some("claro")
  {
    if saved == Some("claro") {
      ToggleThemeLaws(c);
    }
  }

  lemma RestartFiredValid(c: Config, width: nat, height: nat)
    requires Valid(c) && c.pendingRestarts > 0
    ensures Valid(RestartFired(c, width, height))
  {
    StartValid(c.(pendingRestarts := c.pendingRestarts - 1), width, height);
  }

  /** The particle toggle starts the effect when it turns it on and stops it
      when it turns it off. */
  lemma ToggleParticlesLaws(c: Config, width: nat, height: nat)
    requires Valid(c)
    ensures var t := ToggleParticles(c, width, height);
      && Valid(t)
      && t.particulasAtivas == !c.particulasAtivas
      && (c.particulasAtivas ==> t.pendingFrames == {} && t.animationId == None && !t.canvasActive)
      && (!c.particulasAtivas && c.hasCanvas ==>
            t.pendingFrames == {c.nextFrameHandle} && t.animationId == Some(c.nextFrameHandle)
            && t.canvasActive && t.canvasWidth == width && t.canvasHeight == height)
  {
    var c1 := c.(particulasAtivas := !c.particulasAtivas);
    if c1.particulasAtivas {
      StartValid(c1, width, height);
    } else {
      StopLaws(c1);
    }
  }

  /** The mouse toggle adds ten fresh trail entries when it turns the effect on
      and empties the trail when it turns it off. */
  lemma ToggleMouseLaws(c: Config)
    requires Valid(c)
    ensures var t := ToggleMouse(c);
      && Valid(t)
      && t.mouseEfeitoAtivo == !c.mouseEfeitoAtivo
      && (t.mouseEfeitoAtivo ==> t.rastroMouse == NewTrail(TrailLength))
      && (!t.mouseEfeitoAtivo ==> t.rastroMouse == [])
  {
  }

  lemma DestroyValid(c: Config)
    requires Valid(c)
    ensures Valid(Destroy(c)) && Destroy(c).pendingFrames == {} && Destroy(c).rastroMouse == []
  {
    StopLaws(c);
  }

  /** With the colour line corrected and no cancel, two theme clicks within
      100 ms while the effect runs set two restart timers; each starts an
      animation loop and neither cancels the other, so two frame callbacks end
      up pending and `animationId` names only one of them. */
  lemma TwoLoopsNoCancel()
    ensures var c0 := ToggleParticles(Initial(true), 800, 600);
      var c2 := ToggleTheme(ToggleTheme(c0));
      var c4 := RestartFiredNoCancel(RestartFiredNoCancel(c2, 800, 600), 800, 600);
      c4.pendingFrames == {2, 3} && c4.animationId == Some(3) && !SingleLoop(c4)
  {
  }

  /** The same clicks with the corrected start leave one loop. */
  lemma OneLoopCorrected()
    ensures var c0 := ToggleParticles(Initial(true), 800, 600);
      var c2 := ToggleTheme(ToggleTheme(c0));
      var c4 := RestartFired(RestartFired(c2, 800, 600), 800, 600);
      c4.pendingFrames == {3} && c4.animationId == Some(3) && SingleLoop(c4)
  {
  }

  /** With the effect off, `animationId` names no frame. */
  predicate Quiet(c: Config) {
    !c.particulasAtivas ==> c.animationId == None
  }

  /** The click handler of `#toggleParticulas` over the start that does not
      cancel, the call script.js:65 makes. */
  function ToggleParticlesNoCancel(c: Config, width: nat, height: nat): Config {
    var c1 := c.(particulasAtivas := !c.particulasAtivas);
    if c1.particulasAtivas then StartNoCancel(c1, width, height) else Stop(c1)
  }

  /** Every state the page reaches is Quiet: the constructor's is, and every
      handler and callback keeps it. */
  lemma QuietKept(c: Config, width: nat, height: nat, h: nat, saved: Option<string>)
    requires Wellformed(c) && Quiet(c)
    ensures Quiet(Initial(true)) && Quiet(Initial(false))
    ensures Quiet(Stop(c)) && Quiet(FrameFired(c, h)) && Quiet(Destroy(c))
    ensures Quiet(StartNoCancel(c, width, height)) && Quiet(Start(c, width, height))
    ensures Quiet(ToggleTheme(c)) && Quiet(LoadSavedTheme(c, saved))
    ensures c.pendingRestarts > 0 ==>
      Quiet(RestartFired(c, width, height)) && Quiet(RestartFiredNoCancel(c, width, height))
    ensures Quiet(ToggleParticles(c, width, height)) && Quiet(ToggleParticlesNoCancel(c, width, height))
    ensures Quiet(ToggleMouse(c))
  {
  }

  /** On a Quiet state the cancel in `Start` finds nothing to cancel, so the
      button handler modelled with the corrected start is the handler the
      page runs. */
  lemma ToggleParticlesNeedsNoCancel(c: Config, width: nat, height: nat)
    requires Quiet(c)
    ensures ToggleParticles(c, width, height) == ToggleParticlesNoCancel(c, width, height)
  {
  }
}

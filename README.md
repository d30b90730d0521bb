# Portfolio page script, modelled in Dafny

`script.js` of the portfolio site is one class, `PortfolioApp`, that wires the
page up: a dark/light theme switch, a canvas of drifting particles joined by
lines, a mouse-trail effect, a typed headline and a contact form. This
project models the parts of it that hold logic rather than DOM plumbing,
and proves what they promise.

- **FormValidation** (`form.dfy`): `validarFormulario` as a predicate on the
  four fields. JavaScript's `trim` and the regex class `\s` share one set of
  white-space characters (WhiteSpace and LineTerminator of ECMA-262), and the
  e-mail regex `^[^\s@]+@[^\s@]+\.[^\s@]+$` is its own language, proved equal
  to a plain description: no white space, exactly one `@` and not first,
  then a `.` with a character on each side.
- **Particles** (`particles.dfy`): the canvas particle. `reset` draws a new
  particle from seven `Math.random()` results (the `Draws` record, each in
  [0, 1), in call order). `update` moves the particle, flips each velocity
  component whose axis is out of bounds, fades it by 0.002, and respawns it
  when its opacity is no longer positive. Both are a class with
  field-updating methods, specified by the pure `Respawn` and `Step`.
- **ParticleLinks** (`links.dfy`): the two nested loops of `animate`, which
  check every pair `i < j` once and draw a line when the pair is closer than
  100 pixels. The loops are proved against `AllPairs` and `Linked`.
- **Controls** (`controls.dfy`): the `config` flags as a value (`Config`),
  with each handler a transition on it. The value also holds the browser's
  side of the state: the pending `requestAnimationFrame` callbacks, handed out
  as handles 1, 2, 3, …; the pending 100 ms restart timers; the canvas's
  `ativo` class; and the value written to `localStorage`.
- **Portfolio** (`portfolio.dfy`): the `PortfolioApp` object itself, a
  class whose fields are the flags and the particle list. Each handler is a
  method whose effect on the flags is one Controls transition. Its effect on
  the particles is stated through `Respawn` and `Step`.
- **TypedText** (`typing.dfy`): `digitar`, the timer chain that types the
  headline character by character. Its invariant is that the element shows
  `texto[..i]`.

Numbers are Dafny reals. The link test compares the squared distance with
10000 instead of taking `Math.sqrt`; `SquaredComparison` proves the two
agree. `Math.random()` results, the canvas size and the value read from
`localStorage` are parameters. The timers and frame callbacks are steps a
caller takes (`RunFrame`, `FireRestart`, `Digitar`, `HideCaret`), not clocks.

One point where the code goes against what a reader might expect: a particle
does not always stay inside the canvas. In the code, `update` flips the velocity
only after the move, so a particle can end a step up to one step outside
the canvas (`StepCanOvershoot`). The model follows the code. What it proves
instead is `StepSound`: a particle is never more than half a pixel outside,
and when it is outside it is heading back.

## Model

| member | source | states |
|---|---|---|
| FormValidation.TrimStart | script.js:357-360 | the result is the suffix of the input after its leading white space, and starts with a non-space character or is empty |
| FormValidation.TrimEnd | script.js:357-360 | the result is the prefix of the input before its trailing white space, and ends with a non-space character or is empty |
| FormValidation.TrimShape | script.js:357-360 | a trimmed value neither starts nor ends with white space |
| FormValidation.TrimEmptyIff | script.js:362-364 | a trimmed field is empty exactly when the field holds only white space |
| FormValidation.TrimIdempotent | script.js:357-360 | trimming twice is trimming once |
| FormValidation.TrimStartSkipsSpace | script.js:357-360 | leading white space has no effect on the left trim |
| FormValidation.TrimEndSkipsSpace | script.js:357-360 | trailing white space has no effect on the right trim |
| FormValidation.TrimStartAppend | script.js:357-360 | once a non-space character occurs, the left trim keeps everything after it |
| FormValidation.TrimIgnoresPadding | script.js:357-360 | `trim` of a string wrapped in white space equals `trim` of the string |
| FormValidation.EmailPatternIsPlain | script.js:366-367 | the regex accepts exactly the strings with no white space, exactly one `@` that is not first, and a later `.` with at least one character between it and the `@` and one after it |
| FormValidation.ValidarFormularioIff | script.js:356-372 | the form passes exactly when no field is blank and the trimmed e-mail is a plain address as above |
| FormValidation.BlankFieldRejected | script.js:357-364 | a blank name, e-mail, subject or message makes the form fail whatever the rest holds |
| FormValidation.PaddedEmailForgiven | script.js:358 | white space typed around the e-mail never changes the verdict |
| FormValidation.TrimsPadding | script.js:358 | `" ana@site.com\n"` trims to `"ana@site.com"` |
| FormValidation.MatchesPlainAddress | script.js:366-367 | `ana@site.com` matches the regex |
| FormValidation.RejectsInnerSpace | script.js:366-369 | an e-mail with a space inside fails the form |
| FormValidation.RejectsDoubleAt | script.js:366-369 | an e-mail with two `@` fails the form |
| Particles.ParticleColour | script.js:114-116 | cyan (15, 204, 206) in the dark theme and blue (37, 99, 235) in the light one, with an opacity in [0, 0.5) |
| Particles.ResetColourAsWritten | script.js:114-116 | the colour expression as written throws exactly when evaluated on an object without `config` |
| Particles.ResetAsWrittenThrows | script.js:114-116 | inside `Particle.reset`, `this` is the particle, so the colour line throws on every call |
| Particles.Scale | script.js:109-110 | `Math.random() * width` lies in [0, width), or is 0 on a zero-width canvas |
| Particles.Respawn | script.js:108-118 | `reset` gives x in [0, width), y in [0, height), size in [1, 4), both speeds in [-0.5, 0.5), alpha in [0.2, 0.7), and the theme's colour |
| Particles.StepReflects | script.js:120-127 | without a respawn, `update` moves by the velocity, negates a component exactly when that axis is out of bounds after the move and keeps it otherwise (so its magnitude is kept), and lowers alpha by exactly 0.002 |
| Particles.StepRespawns | script.js:127-130 | when the faded alpha is not positive, `update` is a fresh `reset`, with positive alpha |
| Particles.StepKeepsAlpha | script.js:108-131 | `0 < alpha < 0.7` holds after `reset` and is kept by every `update` |
| Particles.AdvanceNearAxis | script.js:121-125 | on one axis, a move followed by the flip keeps the particle within one step of the canvas and heading back in when outside |
| Particles.RespawnSound | script.js:108-118 | a freshly reset particle satisfies the invariant `Sound` |
| Particles.StepSound | script.js:120-131 | every `update` on a canvas of fixed size keeps `Sound`, so a particle is never more than 0.5 pixels outside the canvas |
| Particles.StepCanOvershoot | script.js:121-124 | a particle at x = 99.9 moving right by 0.3 on a 100-wide canvas ends the step outside it |
| Particles.Particle.constructor | script.js:104-106 | a new particle is `reset` from its draws |
| Particles.Particle.Reset | script.js:108-118 | the fields become `Respawn` of the canvas size, theme and draws |
| Particles.Particle.Update | script.js:120-131 | the fields become `Step` of their old values |
| ParticleLinks.SquaredComparison | script.js:184-186 | for a non-negative distance, `distance < 100` exactly when its square is below 10000 |
| ParticleLinks.LinkBoundary | script.js:182-186 | particles 99 apart are linked; particles exactly 100 or 101 apart, or 100 apart diagonally, are not |
| ParticleLinks.RowMembers | script.js:181 | the inner loop of row `i` visits exactly the `j` with `i < j < n` |
| ParticleLinks.RowsMembers | script.js:180-181 | the first `i` rows visit exactly the pairs `(a, b)` with `a < i` and `a < b < n` |
| ParticleLinks.RowsIncreasing | script.js:180-181 | the visits are strictly increasing in row-then-column order, so none repeats |
| ParticleLinks.RowsCount | script.js:180-181 | the first `i` rows make `i * (2n - i - 1) / 2` checks |
| ParticleLinks.AllPairsVisitedOnce | script.js:180-181 | the loops check every pair `i < j < n`, each exactly once, nothing else, `n * (n - 1) / 2` checks in all |
| ParticleLinks.FiftyParticleChecks | script.js:145-181 | with the 50 particles of the effect a frame makes 1225 distance checks |
| ParticleLinks.FilterMembers | script.js:186-191 | a pair is drawn exactly when it was checked and its two points pass the distance test |
| ParticleLinks.LinkRule | script.js:180-193 | a pair is linked exactly when `i < j < n` and its squared distance is below 10000 |
| ParticleLinks.Positions | script.js:182-183 | the points compared are the particles' `x` and `y`, in list order |
| ParticleLinks.VisitPair | script.js:181-191 | one turn of the inner loop checks the next pair and draws it exactly when within reach |
| ParticleLinks.LinkRow | script.js:181-192 | the inner loop checks `(i, i+1) … (i, n-1)` in order and draws the pairs that pass |
| ParticleLinks.PairPass | script.js:180-193 | the nested loops check `AllPairs(n)` in order and draw `Filter` of it |
| ParticleLinks.LinkPass | script.js:180-193 | the loops of `animate` check `AllPairs(n)` and draw exactly `Linked` of the particles' positions |
| Controls.NewTrail | script.js:218-228 | `iniciarEfeitoMouse` adds `n` entries, each at the origin with no timer |
| Controls.InitialValid | script.js:3-10 | the constructor's state satisfies the invariant, with nothing scheduled and the effect off |
| Controls.CancelFrameValid | script.js:207-210 | cancelling the named frame leaves none pending and `animationId` null |
| Controls.ScheduleValid | script.js:195 | scheduling from a state with nothing pending leaves exactly the new handle pending |
| Controls.StartNoCancelWellformed | script.js:87-198 | the start with the colour line corrected but no cancel keeps the handle and theme facts, though not the single-loop one |
| Controls.StopLaws | script.js:201-211 | `pararParticulas` leaves `animationId` null, no frame pending and the canvas inactive, and a second call changes nothing |
| Controls.StopIdempotent | script.js:201-211 | from any state, stopping twice is stopping once |
| Controls.AnimateWhenOff | script.js:150 | with the effect off, `animate` changes nothing and a firing frame leaves no successor |
| Controls.FrameFiredValid | script.js:149-195 | with the effect on, a firing frame leaves exactly one successor pending; with it off, none |
| Controls.StartValid | script.js:87-198 | the corrected start keeps the invariant, marks the canvas active, and leaves one frame pending exactly when the effect is on |
| Controls.ToggleThemeLaws | script.js:33-50 | `alternarTema` flips the theme, stores `escuro` exactly when the theme is dark, and stops a running effect with one more restart pending |
| Controls.ToggleThemeTwice | script.js:33-44 | two theme switches restore `temaEscuro` and store its value |
| Controls.LoadSavedThemeLaws | script.js:26-31 | at load, only a saved `claro` switches to the light theme |
| Controls.RestartFiredValid | script.js:48 | a restart timer firing keeps the invariant |
| Controls.ToggleParticlesLaws | script.js:60-69 | the particle button stops a running effect, and starts a stopped one with exactly one frame pending on a canvas of the given size (modelled with the corrected start; `ToggleParticlesNeedsNoCancel` shows that this is the handler the page runs) |
| Controls.ToggleMouseLaws | script.js:74-83 | the mouse button adds ten fresh trail entries when it turns the effect on and empties the trail when it turns it off |
| Controls.DestroyValid | script.js:451-453 | `destroy` leaves no frame pending and an empty trail |
| Controls.TwoLoopsNoCancel | script.js:46-49 | two theme switches while the effect runs, then both restarts by the start with the colour line corrected but no cancel, leave frames 2 and 3 pending with `animationId` naming only 3 |
| Controls.OneLoopCorrected | script.js:46-49 | the same clicks with the corrected start leave only frame 3 pending |
| Controls.QuietKept | script.js:201-211 | with the effect off, `animationId` names no frame: true at construction and kept by every handler and callback |
| Controls.ToggleParticlesNeedsNoCancel | script.js:60-69 | on any state where the effect being off means `animationId` is null, the particle button with the corrected start equals the handler that calls the start without a cancel |
| Portfolio.PortfolioApp.constructor | script.js:2-10 | the initial `config`: effects off, dark theme, empty lists, null `animationId` |
| Portfolio.PortfolioApp.SetRestartTimer | script.js:48 | one more 100 ms restart timer is pending, nothing else changes |
| Portfolio.PortfolioApp.CancelPendingFrame | script.js:207-210 | a truthy `animationId` is cancelled and nulled, nothing else changes |
| Portfolio.PortfolioApp.ResizeAndActivate | script.js:93-101 | the canvas takes the window size and the `ativo` class |
| Portfolio.PortfolioApp.PararParticulas | script.js:201-211 | the state becomes `Stop` of the old one; from a valid state, `animationId` is null and nothing is pending |
| Portfolio.PortfolioApp.AlternarTema | script.js:33-50 | the state becomes `ToggleTheme` of the old one, and the stored value is `escuro` exactly when the theme is dark |
| Portfolio.PortfolioApp.InicializarTema | script.js:26-31 | the state becomes `LoadSavedTheme` of the old one and the saved value |
| Portfolio.PortfolioApp.BuildParticles | script.js:144-147 | the list is replaced by exactly 50 new, distinct particles, particle `k` reset from draw `k` |
| Portfolio.PortfolioApp.UpdateParticles | script.js:170-173 | every particle takes one `Step`, in list order |
| Portfolio.PortfolioApp.RequestFrame | script.js:195 | a new frame handle is pending and kept in `animationId` |
| Portfolio.PortfolioApp.Animate | script.js:149-196 | with the effect off nothing changes; otherwise every particle steps, the drawn pairs are exactly `Linked` over all pairs, and the next frame is scheduled |
| Portfolio.PortfolioApp.IniciarParticulasNoCancel | script.js:87-198 | without a canvas nothing changes; otherwise the canvas is sized and active, the list holds 50 particles reset and then stepped once if the effect is on, and a frame already pending stays pending |
| Portfolio.PortfolioApp.IniciarParticulas | script.js:87-198 | the same, with the pending frame cancelled first, so the single-loop invariant is kept |
| Portfolio.PortfolioApp.RunFrame | script.js:195 | the browser's call of a pending frame is one `animate` and keeps the invariant |
| Portfolio.PortfolioApp.ToggleParticulas | script.js:60-69 | the state becomes `ToggleParticles` of the old one; without a canvas the list is untouched and nothing is drawn; on a page with the canvas, switching on fills the list with 50 particles reset from the draws and stepped once, and returns exactly the linked pairs of that first frame; switching off leaves the list alone and draws nothing |
| Portfolio.PortfolioApp.FireRestart | script.js:48 | a restart timer fires and runs the corrected start; without a canvas the list is untouched and nothing is drawn; on a page with the canvas the list then holds 50 particles reset from the draws and stepped once when the effect is on, with the links of that first frame |
| Portfolio.PortfolioApp.FireRestartNoCancel | script.js:48 | a restart timer fires and runs the start with the colour line corrected but no cancel; without a canvas the list is untouched and nothing is drawn; on a page with the canvas the list then holds the 50 particles reset and stepped as in `IniciarParticulasNoCancel`, with the links of that first frame |
| Portfolio.PortfolioApp.IniciarEfeitoMouse | script.js:218-228 | ten trail entries are appended, nothing else changes |
| Portfolio.PortfolioApp.PararEfeitoMouse | script.js:256-260 | the trail list is emptied |
| Portfolio.PortfolioApp.ToggleMouse | script.js:74-83 | the state becomes `ToggleMouse` of the old one; the trail holds ten entries when the effect is on and none when off |
| Portfolio.PortfolioApp.Destroy | script.js:451-453 | both effects are stopped: no frame pending, empty trail |
| TypedText.Typewriter.constructor | script.js:301-307 | the element is emptied, the caret drawn, `i` is 0 and the first tick is set |
| TypedText.Typewriter.Digitar | script.js:309-320 | a tick appends `texto[i]` and sets the next tick while `i < texto.length`, and otherwise sets the caret timer; the element always shows `texto[..i]` |
| TypedText.Typewriter.HideCaret | script.js:315-318 | the caret timer removes the border and touches nothing else |
| TypedText.Typewriter.Run | script.js:307-322 | the chain ends after `texto.length + 1` ticks with the whole text shown and the caret hidden |
| TypedText.Digitacao | script.js:297-324 | without the element nothing is typed; with it, the element ends up showing exactly `texto` |
| TypedText.TypeHeadline | script.js:298 | the headline's 67 characters take 68 ticks |

## Left out

- Canvas drawing (clear, the radial gradient, arcs, strokes and colour strings): foreign rendering calls. Only the decision of which pairs are linked is modelled, as a returned list of index pairs.
- Timing of `requestAnimationFrame`, `setTimeout` and `cancelAnimationFrame`: the model keeps which callbacks are pending, and a caller decides when one runs; the delays (100 ms, 60 ms, 500 ms, 1 s, the trail delays, the 5 s status hide) are not modelled.
- The `resize` listener, which `iniciarParticulas` adds again on every start: the canvas size is a parameter of each start.
- Scroll parallax, fade-in, anchor smooth-scroll, the menu toggle, the toggle buttons' `ativo` class and the `.efeito-mouse` follower element: DOM plumbing with no state the rest depends on.
- `enviarFormulario`, `mostrarStatus` and the submit handler around `validarFormulario`: network I/O and DOM updates.
- `localStorage` and the `data-tema` attribute: only the value written under `tema` is kept; the moon/sun icon class is not modelled.
- The mouse-move handler and the trail entries' DOM elements and timers: only the list of entries is modelled.
- The typed headline is modelled as the element's text; how `innerHTML` escapes the appended characters (the `&` reads back as `&amp;`) is not modelled.
- Floating-point rounding: particle arithmetic is on reals. JavaScript strings are UTF-16; the white-space set and `@` are single code units, so checking per Unicode character gives the same verdicts, and the headline holds only Basic Multilingual Plane characters.
- Portfolio.PortfolioApp.IniciarParticulas: does not promise that the fifty particles are new objects; BuildParticles, which makes them, does.
- Portfolio.PortfolioApp.IniciarParticulasNoCancel: does not promise that the fifty particles are new objects; BuildParticles, which makes them, does.
- Portfolio.PortfolioApp.IniciarParticulasNoCancel: models the start with the colour line of `reset` corrected (see Findings); exactly as written, the first `new Particle()` throws, so the effect never starts.
- Controls.StartNoCancel: presumes the colour line of `reset` corrected; exactly as written, `iniciarParticulas` throws before calling `animate`, so it schedules no frame and the single-loop invariant is never broken.
- Controls.RestartFiredNoCancel: presumes the colour line of `reset` corrected; exactly as written, `iniciarParticulas` throws before calling `animate`, so it schedules no frame and the single-loop invariant is never broken.
- Controls.StartNoCancelWellformed: presumes the colour line of `reset` corrected; exactly as written, `iniciarParticulas` throws before calling `animate`, so it schedules no frame and the single-loop invariant is never broken.
- Controls.TwoLoopsNoCancel: presumes the colour line of `reset` corrected; exactly as written, `iniciarParticulas` throws before calling `animate`, so it schedules no frame and the single-loop invariant is never broken.
- Portfolio.PortfolioApp.FireRestartNoCancel: presumes the colour line of `reset` corrected; exactly as written, `iniciarParticulas` throws before calling `animate`, so it schedules no frame and the single-loop invariant is never broken.

## Findings

| source | as written | input that shows it | evidently intended | confidence | as-written member | corrected member |
|---|---|---|---|---|---|---|
| script.js:114-116 | `Particle.reset` reads `this.config.temaEscuro`, but `this` is the particle, which has no `config`, so the line throws a TypeError | any call of `iniciarParticulas` with a canvas: the first `new Particle()` throws | the particle colour follows the application's `temaEscuro` | high; not executed | Particles.ResetAsWrittenThrows | Particles.Particle.Reset |
| script.js:46-49 | `alternarTema` stops the effect and sets a 100 ms timer that calls `iniciarParticulas`, and `iniciarParticulas` does not cancel a pending frame | with the colour fixed: effect on, then two theme switches within 100 ms; both timers start an animation loop, leaving frames 2 and 3 pending | one animation loop at a time, with `animationId` naming it | medium; not executed | Controls.TwoLoopsNoCancel | Controls.StartValid |

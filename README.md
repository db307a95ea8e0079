# Line effects and themes, modelled in Dafny

This project models the two parts of the MyWeb site whose behaviour can be
stated and proved:

- `CustomLineEffects` (`js/custom-line-effects.js`). It is a particle field
  drawn over every page. Particles are created at random positions on a
  canvas the size of the viewport. Each frame they move by their speed and
  bounce off the canvas edges. Lines are drawn between particles closer than
  `lineDistance`, and from each particle to the pointer when it is closer than
  `1.5 * lineDistance`. Each line fades linearly with its length. The object
  has an `isInitialized` flag, a merged `options` record, and the
  `updateOptions`, `destroy` and `getStatus` operations.
- `ThemeManager` (`js/theme-manager.js`). It holds a table of six themes and
  a table from page file names to theme keys. It works out the current page
  from the URL path and resolves its theme, falling back to `hitori`. It then
  forwards the theme's settings to the line effect and the cursor effect,
  each only if it is present on the page.

The project has five files:

- `wrappers.dfy` (`Wrappers`): the `Option` type.
- `js_string.dfy` (`JsString`): the parts of JavaScript's `String.prototype.split`,
  `trim` and `parseInt` that the colour split uses.
- `particle_rules.dfy` (`ParticleRules`): the pure rules. These are option
  merging, particle creation, one motion step, and the lines of a frame as a
  function of the particles. It also has the reference definition of those
  lines, which does not depend on loop order.
- `custom_line_effects.dfy` (`LineEffects`): the `CustomLineEffects` class.
  Each method works on the object's fields as the source does, and its
  contract ties it to the rules above.
- `theme_manager.dfy` (`Theming`): the theme tables, path and key resolution,
  click colours, and the `ThemeManager` class.

Modelling choices:

- `Math.random()` becomes a `Draw` record with five values in `[0, 1)`, one
  per call in the order the source calls it.
- `Math.sqrt` becomes a parameter `root`, any function with non-negative
  values. The line-selection results hold for every such function.
  `CloserIffSquareCloser` relates the comparison to squared distances when
  `root` is the exact square root.
- Coordinates, speeds, opacities and distances are `real`. The canvas size
  is a `nat`, as `canvas.width` is an integer.
- White space for `trim` (`JsString.IsWhite`) is the ECMAScript set that
  `String.prototype.trim` removes: the WhiteSpace characters (tab, vertical
  tab, form feed, space, no-break space, the byte-order mark and every
  Unicode space separator) and the LineTerminator characters (line feed,
  carriage return, line separator, paragraph separator).
- The particle array is a `seq<Particle>` field. `updateParticles` changes it
  one element at a time.
- The lines a frame strokes come back from `DrawLines` as a sequence of
  segments, in drawing order:
  - `Between(i, j, alpha)` is a line between particles `i` and `j`;
  - `ToPointer(i, alpha)` is a line from particle `i` to the pointer.
- The collaborators of `ThemeManager` are `window.lineEffects` and
  `window.cursorEffects`. Each is modelled only through its options, as an
  optional `map<string, OptionValue>`. `updateOptions` on them is the object
  spread `{ ...options, ...newOptions }`.

## Model

| member | source | states |
|---|---|---|
| `ParticleRules.Defaults` | js/custom-line-effects.js:6-14 | the defaults describe a drawable effect: a positive particle count, line distance, line width and speed, and an opacity in `(0, 1]` |
| `ParticleRules.DefaultsDraw` | js/custom-line-effects.js:7 | the default colour `100,149,237` strokes as exactly the three numbers 100, 149 and 237 |
| `ParticleRules.Merge` | js/custom-line-effects.js:6-15 | every option the caller passes replaces the default, and every option it omits keeps its previous value |
| `ParticleRules.MergeIdentityAndIdempotence` | js/custom-line-effects.js:171-172 | merging no keys changes nothing; merging the same keys twice is the same as merging them once |
| `ParticleRules.MergeSequence` | js/custom-line-effects.js:171-172 | two updates in a row equal one update holding both sets of keys, the later value winning |
| `ParticleRules.ParticleTotal` | js/custom-line-effects.js:70 | the creation loop runs `count` times, and not at all for a negative count |
| `ParticleRules.Place` | js/custom-line-effects.js:72-73 | a random fraction of the canvas size lies in `[0, size]`, and strictly below a positive size |
| `ParticleRules.Launch` | js/custom-line-effects.js:74-75 | a speed drawn as `(random - 0.5) * particleSpeed` lies in `[-particleSpeed/2, particleSpeed/2)` and its size is at most half of `particleSpeed` |
| `ParticleRules.Spawn` | js/custom-line-effects.js:71-77 | with draws in `[0, 1)` and a canvas of non-negative size, the new particle lies on the canvas and its radius is in `[0.5, 2.0)` |
| `ParticleRules.Spawned` | js/custom-line-effects.js:68-79 | the new array holds one particle per set of draws, in the same order |
| `ParticleRules.SpawnBounds` | js/custom-line-effects.js:71-77 | a new particle is on the canvas, strictly inside a non-empty side; both speeds are in `[-particleSpeed/2, particleSpeed/2)`; the radius is in `[0.5, 2.0)` |
| `ParticleRules.Step` | js/custom-line-effects.js:107-117 | the particle moves by its speed; a speed component flips sign exactly when the new coordinate lies outside `[0, width]` (or `[0, height]`), each axis on its own; speed sizes and radius are unchanged; the band invariant is kept |
| `ParticleRules.StepAll` | js/custom-line-effects.js:106-118 | every particle takes one step and the count does not change |
| `ParticleRules.SpawnedThenStepped` | js/custom-line-effects.js:68-79 | new particles lie on the canvas and inside the band, and are still inside it after one step |
| `ParticleRules.BandPersists` | js/custom-line-effects.js:111-117 | a particle inside the band stays inside it for any number of frames on a fixed canvas, with the same speed sizes and radius |
| `ParticleRules.StaysNearCanvas` | js/custom-line-effects.js:111-117 | a particle starting on the canvas never gets more than one step of its own speed outside it |
| `ParticleRules.FarParticleOscillates` | js/custom-line-effects.js:112-114 | a particle left more than one step beyond the right edge (after the canvas shrank) steps to another point beyond the edge and then back to where it was |
| `ParticleRules.FarParticleNeverReturns` | js/custom-line-effects.js:112-114 | such a particle alternates between those two positions forever and never comes back onto the canvas |
| `ParticleRules.StepInward` | js/custom-line-effects.js:111-117 | the corrected bounce: the particle moves by its speed; outside the canvas each speed component points back towards it (positive left of or above it, negative right of or below it); on the canvas the speed is kept |
| `ParticleRules.InwardAgreesInBand` | js/custom-line-effects.js:111-117 | inside the band the corrected bounce and the code's bounce are the same step |
| `ParticleRules.HeadingInwardReturns` | js/custom-line-effects.js:112-114 | under the corrected bounce, a particle beyond the right edge heading left is back on the canvas's side of the edge within the number of steps its gap needs |
| `ParticleRules.InwardReturns` | js/custom-line-effects.js:112-114 | under the corrected bounce, any moving particle beyond the right edge, however far, comes back within two steps more than its gap needs |
| `ParticleRules.Distance` | js/custom-line-effects.js:138-140 | a distance is never negative |
| `ParticleRules.Fade` | js/custom-line-effects.js:143-145 | the fade gives full opacity at distance 0, vanishes at the threshold, and is positive below a positive threshold with a positive opacity |
| `ParticleRules.FadeRange` | js/custom-line-effects.js:142-145 | a line shorter than the threshold gets an alpha above 0 and at most `opacity` |
| `ParticleRules.SquareMonotone` | js/custom-line-effects.js:140-142 | for non-negative values, comparing a distance with the threshold agrees with comparing their squares |
| `ParticleRules.CloserIffSquareCloser` | js/custom-line-effects.js:140-142 | with an exact square root, a distance is below the threshold exactly when `dx*dx + dy*dy` is below the threshold squared |
| `ParticleRules.PairSegment` | js/custom-line-effects.js:138-150 | the inner step for partner `j` draws at most one line; it joins `i` to `j` and exists exactly when their distance is below `lineDistance` |
| `ParticleRules.PointerSegment` | js/custom-line-effects.js:154-166 | particle `i` draws at most one pointer line, starting at `i`, and exactly when its distance to the pointer is below `1.5 * lineDistance` |
| `ParticleRules.PointerSegmentMember` | js/custom-line-effects.js:154-166 | the pointer line of particle `i` is drawn exactly when the reference definition `Expected` calls for it, with the widened threshold and its fade alpha |
| `ParticleRules.PairSegmentMember` | js/custom-line-effects.js:138-150 | the inner step for partner `j` draws a line between `i` and `j` exactly when they are closer than `lineDistance`, and that line carries the linear fade alpha |
| `ParticleRules.PairSegmentsNext` | js/custom-line-effects.js:137-151 | each further step of the inner loop appends the line of its pair, if any, after the lines drawn so far |
| `ParticleRules.PairSegmentsMember` | js/custom-line-effects.js:137-151 | the inner loop, run up to partner `k`, draws exactly the expected lines between `i` and the partners `i < j < k` |
| `ParticleRules.PairSegmentsSound` | js/custom-line-effects.js:137-151 | every line the inner loop draws joins `i` to a later partner below `k` that is closer than `lineDistance` |
| `ParticleRules.PairSegmentsComplete` | js/custom-line-effects.js:137-151 | every partner `i < j < k` closer than `lineDistance` gets its line from the inner loop |
| `ParticleRules.PairSegmentsOrdered` | js/custom-line-effects.js:137-151 | the inner loop draws its lines by increasing partner, so no pair appears twice |
| `ParticleRules.RowMember` | js/custom-line-effects.js:135-166 | one round of the outer loop draws exactly the expected lines that start at particle `i` |
| `ParticleRules.RowOrdered` | js/custom-line-effects.js:135-166 | one round draws its pair lines by increasing partner and its pointer line last, and all of them start at particle `i` |
| `ParticleRules.LinesNext` | js/custom-line-effects.js:135-167 | each further round of the outer loop appends particle `i`'s lines after those drawn so far |
| `ParticleRules.LinesMember` | js/custom-line-effects.js:135-167 | after `n` rounds the lines drawn are exactly the expected lines of the first `n` particles |
| `ParticleRules.LinesOrdered` | js/custom-line-effects.js:135-167 | after `n` rounds the lines are in drawing order: by first particle, then by partner, the pointer line last |
| `ParticleRules.FrameSpec` | js/custom-line-effects.js:135-167 | a frame draws a line exactly when the reference definition `Expected` calls for one, so each unordered pair `i < j` and each pointer line appears at most once, in drawing order |
| `ParticleRules.FrameAlphas` | js/custom-line-effects.js:143-161 | with a positive `opacity`, every line of a frame has an alpha above 0 and at most `opacity` |
| `ParticleRules.StrokeRgb` | js/custom-line-effects.js:133 | the stroke colour has one entry per comma-separated part of `options.color` |
| `ParticleRules.TrimPadded` | js/custom-line-effects.js:133 | `trim` removes exactly the white space around a word |
| `ParticleRules.EntryRoundTrip` | js/custom-line-effects.js:133 | one decimal entry padded with white space holds no comma, and `parseInt(entry.trim())` gives its number back |
| `ParticleRules.ColorRoundTrip` | js/custom-line-effects.js:133 | a colour string of comma-separated decimal numbers, each padded with white space, parses back into exactly those numbers |
| `JsString.Split` | js/custom-line-effects.js:133 | `split` gives at least one part, and no part holds the separator |
| `JsString.JoinSplit` | js/custom-line-effects.js:133 | joining the parts of a split with the separator gives back the string, so no character is lost or added |
| `JsString.SplitJoin` | js/custom-line-effects.js:133 | splitting a join of separator-free parts gives back those parts |
| `JsString.TrimStart` | js/custom-line-effects.js:133 | the result is an end of the input; only white space was removed; the result does not start with white space |
| `JsString.TrimEnd` | js/custom-line-effects.js:133 | the result is a start of the input; only white space was removed; the result does not end with white space |
| `JsString.Trim` | js/custom-line-effects.js:133 | `trim` never lengthens a string, and its result neither starts nor ends with white space |
| `JsString.TrimDropsOnlyWhite` | js/custom-line-effects.js:133 | the trimmed string is a slice of the input, and everything cut off before and after it is white space |
| `JsString.TrimIdempotent` | js/custom-line-effects.js:133 | trimming twice is trimming once |
| `JsString.ParseInt` | js/custom-line-effects.js:133 | a number results exactly for a non-empty string of decimal digits, and it is not negative |
| `JsString.ParseNatToString` | js/custom-line-effects.js:133 | writing a natural number in decimal and parsing it gives the number back |
| `LineEffects.CustomLineEffects.constructor` | js/custom-line-effects.js:5-23 | the options are the defaults overridden by the caller's keys; no particles; the pointer at the origin; not initialized |
| `LineEffects.CustomLineEffects.ResizeCanvas` | js/custom-line-effects.js:62-65 | the canvas takes the viewport size; nothing else changes |
| `LineEffects.CustomLineEffects.CreateParticles` | js/custom-line-effects.js:68-79 | the array is replaced by exactly `count` particles made from the draws, all on the canvas |
| `LineEffects.CustomLineEffects.HandleMouseMove` | js/custom-line-effects.js:88-91 | the pointer is at the event coordinates; nothing else changes |
| `LineEffects.CustomLineEffects.Animate` | js/custom-line-effects.js:94-103 | one frame moves every particle one step, keeps the band invariant, and draws exactly the frame's lines |
| `LineEffects.CustomLineEffects.UpdateParticles` | js/custom-line-effects.js:106-119 | the array becomes every old particle after one step; the count is unchanged; particles inside the band stay inside it |
| `LineEffects.CustomLineEffects.DrawLines` | js/custom-line-effects.js:132-168 | the lines drawn are exactly the frame's lines in drawing order, stroked in the colour split from `options.color` |
| `LineEffects.CustomLineEffects.PairLines` | js/custom-line-effects.js:137-151 | the inner loop for particle `i` yields that particle's pair lines |
| `LineEffects.CustomLineEffects.PointerLine` | js/custom-line-effects.js:153-166 | particle `i` gets a pointer line exactly when it is closer than `1.5 * lineDistance` to the pointer |
| `LineEffects.CustomLineEffects.Init` | js/custom-line-effects.js:26-36 | when already initialized, nothing changes. Otherwise the canvas takes the viewport size and `count` particles are created. The first frame moves them once and draws its lines. The effect is then initialized, and its particles lie inside the band. |
| `LineEffects.CustomLineEffects.UpdateOptions` | js/custom-line-effects.js:171-178 | the options are merged with the caller's keys. A running effect recreates all its particles with the merged `count`, whichever keys changed. A stopped one keeps its particles. |
| `LineEffects.CustomLineEffects.Destroy` | js/custom-line-effects.js:181-194 | the effect is no longer initialized; particles and options are kept |
| `LineEffects.CustomLineEffects.GetStatus` | js/custom-line-effects.js:197-203 | reports the flag, the options and the length of the particle array, changing nothing |
| `Theming.InitialThemes` | js/theme-manager.js:6-51 | the theme table defines the default theme `hitori` and has no empty key |
| `Theming.InitialPageThemes` | js/theme-manager.js:53-60 | the page table maps `index.html` to the default theme |
| `Theming.ThemeKeyFor` | js/theme-manager.js:65-75 | the key applied for a page is the default theme, or the page's own entry when that entry is non-empty and names a defined theme |
| `Theming.Forward` | js/theme-manager.js:84-99 | a collaborator receives the update exactly when it is present; its options then hold the keys of both maps and take every new value |
| `Theming.InitialPagesNeverFallBack` | js/theme-manager.js:6-60 | every page of the initial table names a defined theme, so none of the six pages falls back to the default |
| `Theming.CurrentPage` | js/theme-manager.js:116-119 | the page is never empty and holds no `/`. It is `index.html` when the path is empty or ends in `/`. Otherwise it is the text after the last `/`, or the whole path when there is none. |
| `Theming.ThemeKeyForIsDefined` | js/theme-manager.js:64-76 | the resolved key always names a defined theme. It is the default exactly when the page has no non-empty entry naming a defined theme, or when its entry is the default. |
| `Theming.GenerateClickColors` | js/theme-manager.js:106-113 | seven colours: `rgb(` + the theme colour + `)`, then the six fixed ones |
| `Theming.ClickColorsRoundTrip` | js/theme-manager.js:106-113 | the theme colour can be read back from the first click colour, and the other six are the same for every input |
| `Theming.Spread` | js/theme-manager.js:85-89 | the merged options hold the keys of both maps; the new keys take the new values and every other key keeps its value |
| `Theming.LineOptions` | js/theme-manager.js:85-89 | the line effect is sent exactly `color`, `opacity` and `count` |
| `Theming.CursorOptions` | js/theme-manager.js:94-98 | the cursor effect is sent exactly `cursorColor`, `dotColor` and `clickColors` |
| `Theming.LineEffectsGetExactlyThreeKeys` | js/theme-manager.js:84-90 | applying a theme sets the line effect's `color`, `opacity` and `count` to the theme's and keeps every other option |
| `Theming.CursorEffectsGetExactlyThreeKeys` | js/theme-manager.js:93-99 | applying a theme sets both `cursorColor` and `dotColor` to the theme's cursor colour and `clickColors` to the colours generated from the theme colour; every other cursor option is kept |
| `Theming.SetPageThemeIsSeen` | js/theme-manager.js:137-139 | after setting a page's defined theme, that page resolves to it, and every other page resolves as before |
| `Theming.AddThemeIsSeen` | js/theme-manager.js:132-134 | after adding a theme, the pages naming it resolve to it, and every other page resolves as before |
| `Theming.ThemeManager.constructor` | js/theme-manager.js:5-61 | the two initial tables; no current theme; the default theme defined |
| `Theming.ThemeManager.ApplyPageTheme` | js/theme-manager.js:64-76 | the current theme becomes the page's resolved key, which names a defined theme, and the present collaborators receive that theme's settings |
| `Theming.ThemeManager.ApplyTheme` | js/theme-manager.js:79-103 | an unknown key changes nothing. A known key updates each present collaborator with the theme's settings, leaves an absent one absent, and becomes the current theme. |
| `Theming.ThemeManager.AddTheme` | js/theme-manager.js:132-134 | exactly one entry of the theme table is set; every other entry is kept; the default theme stays defined |
| `Theming.ThemeManager.SetPageTheme` | js/theme-manager.js:137-139 | exactly one entry of the page table is set; every other entry is kept |

## Behaviour of the code

- `updateOptions` recreates all the particles on every call while the effect
  is running, whichever keys changed (`UpdateOptions`).
- `destroy` only clears the flag. The particle array, and so
  `getStatus().particlesCount`, keep their previous values (`Destroy`,
  `GetStatus`).
- `init` has no check that a drawing context was obtained and undoes
  nothing, so `Init` has no error result.
- For particles that start on the canvas of a fixed size, the bounce keeps
  them within one step of their own speed of it (`BandPersists`,
  `StaysNearCanvas`). The class keeps the code's bounce (`Step`);
  `InwardAgreesInBand` shows that the corrected bounce below takes the same
  step for every such particle.

## Findings

| source | as written | input that shows it | evidently intended | confidence | as-written member | corrected member |
|---|---|---|---|---|---|---|
| js/custom-line-effects.js:112-114 | a particle outside `[0, width]` after its move has `speedX` flipped in sign, whichever way it was heading | canvas width 100, particle at x = 200 with speedX = 2 (left there when the window shrank): it moves to 202, then 200, 202, 200, … and never comes back | a particle outside the canvas turns back towards it and returns | not executed | `ParticleRules.FarParticleOscillates`, `ParticleRules.FarParticleNeverReturns` | `ParticleRules.StepInward`, `ParticleRules.InwardReturns`, `ParticleRules.InwardAgreesInBand` |

## Left out

- Canvas drawing (`clearRect`, `arc`, `fill`, `stroke`), `rgba(...)` style
  strings, `drawParticles`, `createCanvas`'s DOM work, and `bindEvents`: these
  are host I/O with no result. The model keeps the lines each frame strokes
  and the parsed stroke colour.
- `requestAnimationFrame` and `cancelAnimationFrame`: `Animate` is one frame.
  `Init` performs the first frame synchronously, as `init` does. Later frames
  are further calls of `Animate`.
- `console.log` messages, the `window` singletons, the `DOMContentLoaded`
  auto-start hooks, `window.location` (the path is a parameter of
  `ApplyPageTheme`), and `document.body` class toggling.
- Distance: `Math.sqrt` is the parameter `root`. IEEE rounding of the
  distance, the fade and the coordinates is not modelled; arithmetic is exact
  on `real`.
- CreateParticles: `Math.random()` values are supplied as `Draw` records in
  `[0, 1)`; their distribution is not modelled.
- ParseInt: models only `parseInt` on decimal digit strings (after `trim`).
  Leading zeros are read as JavaScript reads them (`"007"` gives 7). A sign,
  characters after the digits (`"12px"`), and a `0x` prefix give `None`
  here, where JavaScript would give a number.
- Merge: a patch has exactly the seven option keys, and `None` means an
  absent key. The source's spread also copies keys outside those seven,
  which then show up in `getStatus().options`. It also copies a key present
  with the value `undefined` (`{count: undefined}` gives `count: undefined`
  and no particles). The model can express neither.
- ParticleTotal: `count` is an integer in the model. The source's loop would
  also accept a fractional count.
- UpdateParticles: particle records are values. The source updates the shared
  objects in place, but no other code holds them, so nothing observable is lost.
- `getThemes` and `getPageThemes` return the live tables. The model reads the
  `themes` and `pageThemes` fields directly. A caller mutating the returned
  object is not modelled.
- ApplyTheme: a theme added with a falsy value (for example `null`) would be
  skipped by `if (!theme) return;`. In the model every theme is a full
  `Theme` record. Keys inherited from `Object.prototype` are not modelled as
  table entries either.
- Spread: the collaborators' `updateOptions` is modelled as the options
  spread alone. `js/line-effects.js` and `js/cursor-effects.js` are not part
  of this model; what they do with new options is left out.
- The cursor effect itself (`js/cursor-effects.js`) and the third-party
  canvas-nest wrapper (`js/line-effects.js`).

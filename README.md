# Seasons, weather, camera switching and throwable items — a Dafny model

This project models three Unity behaviours from a small lab-exercise game:

- **WeatherController** (`weather_rules.dfy`, `weather_fade.dfy`, `weather_controller.dfy`).
  The controller cycles Spring → Summer → Autumn → Winter.
  On each season change it assigns the season's post-processing profile, draws a new wind for the rain and snow particle systems, and requests the season's weather.
  A second cycle requests a random, season-appropriate weather effect.
  A weather request that changes the effect starts a transition coroutine, which runs at once up to its first suspension.
  That coroutine fades the old effect's particle system to alpha 0 and stops it, then starts the new effect's system and fades it to alpha 1.
  - The pure parts are functions: the enumerations, the season successor, the season → weather table, the random choice and the effect → particle-system lookup.
  - The controller is a class, `WeatherControl.WeatherController`. Its methods are proved to change its fields exactly as the state-transition functions on `Env` say.
  - Those functions carry the properties: season cyclicity, idempotence of repeated requests, alphas staying in [0, 1], and fades reaching their target.
  - A running coroutine is a `Transition` record: its stage plus the state of its `FadeParticles` loop. A frame resumes every running transition once, oldest first.
- **CamSwitch** (`cam_switch.dfy`): an array of cameras, of which the current one is shown. The keys 1, 2 and 3 select cameras 0, 1 and 2, and `SwitchToPreviousCamera` goes back.
  - The class `CameraSwitching.CamSwitch` keeps the array and the two indices.
  - Its methods are proved against the functions `Switch`, `AfterStart` and `AfterUpdate` on a value `Rig`.
  - The lemmas prove that only the current camera stays shown, that the last valid key of a frame wins, and that going back twice restores the rig.
- **ThrowableItemSystem** (`throwable.dfy`): picks up the object a ray hits when it is tagged "Throwable", carries it, and drops it (E) or throws it (a click).
  - Scene objects are a class whose Rigidbody, Collider and Transform flags the methods set in place.
  - The class invariant `Valid` ties `isHolding` to a carried object.

Three behaviours of the weather code shape the model:

- **A transition time of 0 or less writes no alpha.** `FadeParticles` skips its loop (WeatherController.cs line 203). After the loop it stops the system only when the target is 0 (line 212).
  Such a transition therefore runs to its end inside `SetWeather`.
  See `RunFadeSkipsNonPositive`, `ResumeNonPositiveKeepsAlphas`, `ZeroDurationCompletesAtOnce` and `ZeroDurationStopThenRain`.
- **A fade-in starts from the alpha the system has when the fade begins** (line 200).
- **Nothing cancels a running transition** (line 164), so two fades can act on the same system at once.
  `OverlappingTransitionsStopCurrentRain` is a proved run in which Rain is current while the rain system has stopped emitting.

## Model

| member | source | states |
|---|---|---|
| WeatherRules.SeasonOrdinal | Assets/Lab9/WeatherController.cs:7 | the ordinal of a season is below 4 |
| WeatherRules.SeasonFromOrdinal | Assets/Lab9/WeatherController.cs:109 | the cast from an in-range integer to a season inverts the ordinal |
| WeatherRules.EffectOrdinal | Assets/Lab9/WeatherController.cs:8 | the ordinal of an effect is below the number of effects, 4 |
| WeatherRules.EffectFromOrdinal | Assets/Lab9/WeatherController.cs:157 | the cast from an in-range integer to an effect inverts the ordinal |
| WeatherRules.NextSeason | Assets/Lab9/WeatherController.cs:109 | the successor differs from the season, wraps from Winter to Spring and from nowhere else, and otherwise adds 1 to the ordinal |
| WeatherRules.AdvanceOrdinal | Assets/Lab9/WeatherController.cs:109 | after k season changes the ordinal is the start ordinal plus k, modulo 4 |
| WeatherRules.AdvanceReturns | Assets/Lab9/WeatherController.cs:107-112 | k season changes return to the start season exactly when k is a multiple of 4, so Winter wraps to Spring |
| WeatherRules.SeasonWeatherBijective | Assets/Lab9/WeatherController.cs:122-139 | Winter→Snow, Summer→Rain, Spring→Fog, Autumn→None: each effect is requested by exactly one season |
| WeatherRules.SeasonWeather | Assets/Lab9/WeatherController.cs:122-139 | the effect requested on entering a season identifies that season |
| WeatherRules.GetSeasonAppropriateEffect | Assets/Lab9/WeatherController.cs:151-159 | the random choice is never None; it is Snow in Winter, Rain in Summer, and the drawn ordinal from [1, 4) otherwise |
| WeatherRules.RandomEffectCovers | Assets/Lab9/WeatherController.cs:157 | in Spring and Autumn each of Rain, Snow and Fog is the outcome of some draw |
| WeatherRules.GetParticleSystem | Assets/Lab9/WeatherController.cs:185-194 | None maps to no system, and each other effect maps to the system rendering that effect |
| WeatherFade.Emitters.Play | Assets/Lab9/WeatherController.cs:180 | the system emits afterwards; its alpha, its force and every other system are unchanged |
| WeatherFade.Emitters.Stop | Assets/Lab9/WeatherController.cs:212 | the system no longer emits; its alpha, its force and every other system are unchanged |
| WeatherFade.Lerp | Assets/Lab9/WeatherController.cs:207 | the result lies between the two ends; it is the target for a parameter of at least 1 and the start for one of at most 0 |
| WeatherFade.StartFade | Assets/Lab9/WeatherController.cs:198-201 | a fade captures the system's present alpha as its start, with its timer at 0 |
| WeatherFade.FadeStep | Assets/Lab9/WeatherController.cs:203-209 | one loop iteration adds the frame delta to the timer, writes an alpha between start and target that equals the target once the timer reaches the duration, and touches nothing else |
| WeatherFade.FadeEnd | Assets/Lab9/WeatherController.cs:212 | after the loop the system is stopped exactly when the target alpha is 0 |
| WeatherFade.RunFade | Assets/Lab9/WeatherController.cs:203-210 | the loop only advances the timer, never past the sum of the frame deltas, and by exactly that sum while it stays below the duration; other systems are untouched |
| WeatherFade.RunFadeReachesTarget | Assets/Lab9/WeatherController.cs:203-210 | frames adding up to the remaining time end the loop with the system exactly at the target alpha |
| WeatherFade.RunFadeSkipsNonPositive | Assets/Lab9/WeatherController.cs:203 | with a duration of 0 or less the loop never runs and nothing is written |
| WeatherFade.RunFadeStaysBetween | Assets/Lab9/WeatherController.cs:203-210 | every alpha the loop writes lies between start and target, and no other system changes |
| WeatherFade.BeginFadeIn | Assets/Lab9/WeatherController.cs:177-181 | the new effect's system is started before its fade to alpha 1 begins |
| WeatherFade.Spawn | Assets/Lab9/WeatherController.cs:169-181 | an old effect other than None is faded to 0 first; from None there is no fade-out, and the new system is started and faded in |
| WeatherFade.SpawnValid | Assets/Lab9/WeatherController.cs:172-181 | a new transition fades out toward 0, or fades in toward 1 on the new effect's own system |
| WeatherFade.Resume | Assets/Lab9/WeatherController.cs:167-213 | resuming a transition leaves at most one transition, for the same request; one whose fade is still in its loop stays in its stage with only that fade advanced |
| WeatherFade.Launch | Assets/Lab9/WeatherController.cs:164-183 | a request's coroutine, run up to its first suspension, is still running exactly when the transition time is positive, and is then a transition toward the requested effect |
| WeatherFade.ResumeNonPositiveFinishes | Assets/Lab9/WeatherController.cs:172-212 | with a transition time of 0 or less one resume runs the whole transition to its end |
| WeatherFade.LaunchValid | Assets/Lab9/WeatherController.cs:164-183 | a request's first run keeps all alphas in [0, 1] and leaves a well-formed transition |
| WeatherFade.ResumeFadeInKeepsPlaying | Assets/Lab9/WeatherController.cs:181-212 | a fade-in toward a non-zero alpha neither starts nor stops any system |
| WeatherFade.ResumeValid | Assets/Lab9/WeatherController.cs:167-183 | resuming a transition keeps all alphas in [0, 1] and the transition well formed |
| WeatherFade.ResumeStartsOnlyNewEffect | Assets/Lab9/WeatherController.cs:177-181 | a resume starts a system only when bringing in that system's own effect, and never for None |
| WeatherFade.ResumeStopsOnlyFinishedFadeOut | Assets/Lab9/WeatherController.cs:212 | a resume stops a system only when a fade on it toward 0 has finished its loop |
| WeatherFade.ResumeAll | Assets/Lab9/WeatherController.cs:164-213 | resuming every running transition once never adds a transition |
| WeatherFade.ResumeAllValid | Assets/Lab9/WeatherController.cs:164-183 | a frame keeps all alphas in [0, 1] and all running transitions well formed, and never adds a transition |
| WeatherFade.ResumeNonPositiveKeepsAlphas | Assets/Lab9/WeatherController.cs:203-212 | with a transition time of 0 or less no resume writes any alpha |
| WeatherControl.PostProcessing | Assets/Lab9/WeatherController.cs:114-120 | the profile indexed by the season ordinal is assigned iff the volume exists and at least 4 profiles are configured; otherwise the profile is kept |
| WeatherControl.ParticlesWind | Assets/Lab9/WeatherController.cs:215-225 | rain and snow get the same x/z force; fog and all emission and alphas are untouched |
| WeatherControl.StopAll | Assets/Lab9/WeatherController.cs:227-232 | no system emits afterwards; alphas and forces are kept |
| WeatherControl.Initial | Assets/Lab9/WeatherController.cs:42-60 | start-up gives Spring, no weather, no transitions, every system stopped and one wind for rain and snow |
| WeatherControl.AfterSetWeather | Assets/Lab9/WeatherController.cs:161-183 | a request for the current effect changes nothing; any other one makes the effect current at once, keeps the running transitions, and adds one transition toward it exactly when the transition time is positive |
| WeatherControl.SetWeatherIdempotent | Assets/Lab9/WeatherController.cs:163-170 | repeating a request before anything else happens is a no-op, though the first request's transition may still be running |
| WeatherControl.SetWeatherValid | Assets/Lab9/WeatherController.cs:161-183 | a request keeps alphas in range and transitions well formed |
| WeatherControl.AfterSeasonSwitch | Assets/Lab9/WeatherController.cs:107-112 | the season becomes its successor; weather and transitions are untouched |
| WeatherControl.SeasonSwitchValid | Assets/Lab9/WeatherController.cs:107-112 | a season change keeps alphas in range and transitions well formed |
| WeatherControl.AfterSeasonEffects | Assets/Lab9/WeatherController.cs:122-139 | the weather becomes the season's effect, and nothing changes when it already was |
| WeatherControl.AfterSeasonTick | Assets/Lab9/WeatherController.cs:97-105 | a season tick moves to the next season and makes that season's effect current |
| WeatherControl.SeasonTickWeather | Assets/Lab9/WeatherController.cs:97-105 | after a season tick the weather is the new season's effect; no transition starts when that effect was already current |
| WeatherControl.SeasonTickValid | Assets/Lab9/WeatherController.cs:97-105 | a season tick keeps alphas in range and transitions well formed |
| WeatherControl.SeasonTicksAdvance | Assets/Lab9/WeatherController.cs:97-112 | after k season ticks the season has advanced k times and the weather is that season's effect |
| WeatherControl.FourSeasonTicksReturn | Assets/Lab9/WeatherController.cs:97-112 | between one and four season ticks return to the starting season exactly when there are four |
| WeatherControl.AfterRandomWeatherTick | Assets/Lab9/WeatherController.cs:141-149 | a random-weather tick keeps the season and profile and makes some effect other than None current |
| WeatherControl.RandomWeatherTickEffect | Assets/Lab9/WeatherController.cs:141-159 | after a random-weather tick the weather is never None: Snow in Winter, Rain in Summer, the drawn effect otherwise |
| WeatherControl.RandomWeatherTickValid | Assets/Lab9/WeatherController.cs:141-149 | a random-weather tick keeps alphas in range and transitions well formed |
| WeatherControl.AfterFrame | Assets/Lab9/WeatherController.cs:203-209 | a frame changes neither season, weather nor profile |
| WeatherControl.FrameValid | Assets/Lab9/WeatherController.cs:196-213 | a frame keeps alphas in range and transitions well formed, and never adds a transition |
| WeatherControl.FinishedFadeIn | Assets/Lab9/WeatherController.cs:212 | a finished fade-in ends without stopping its system, and later frames change nothing |
| WeatherControl.LoneFadeInCompletes | Assets/Lab9/WeatherController.cs:196-213 | frames adding up to a fade-in's remaining time leave its system emitting at alpha 1 |
| WeatherControl.SpringToSummerRains | Assets/Lab9/WeatherController.cs:97-105 | from Spring with no weather, a season tick gives Summer and Rain; the tick's frame and later frames adding up to the transition time leave rain emitting at alpha 1 |
| WeatherControl.ZeroDurationCompletesAtOnce | Assets/Lab9/WeatherController.cs:164-212 | with transition time 0, Rain → Snow stops rain and starts snow within the request, adds no transition and writes no alpha |
| WeatherControl.ZeroDurationStopThenRain | Assets/Lab9/WeatherController.cs:161-212 | with transition time 0, None and then Rain requested in one frame leave rain emitting and every system as it was |
| WeatherControl.OverlappingTransitionsStopCurrentRain | Assets/Lab9/WeatherController.cs:161-213 | Summer → Autumn starts a rain fade-out; Rain requested half-way starts a second transition beside it; when both end, Rain is current at alpha 1 but the rain system is stopped |
| WeatherControl.WeatherController.constructor | Assets/Lab9/WeatherController.cs:36-60 | the fields after start-up are the initial state |
| WeatherControl.WeatherController.SetInitialSeason | Assets/Lab9/WeatherController.cs:50-54 | the season becomes Spring and its profile is applied |
| WeatherControl.WeatherController.UpdatePostProcessing | Assets/Lab9/WeatherController.cs:114-120 | only the profile changes, as `PostProcessing` says |
| WeatherControl.WeatherController.StopAllParticles | Assets/Lab9/WeatherController.cs:227-232 | only the systems change, as `StopAll` says |
| WeatherControl.WeatherController.SetParticlesWind | Assets/Lab9/WeatherController.cs:215-225 | only the rain and snow forces change, as `ParticlesWind` says |
| WeatherControl.WeatherController.SwitchToNextSeason | Assets/Lab9/WeatherController.cs:107-112 | the fields change as `AfterSeasonSwitch` says |
| WeatherControl.WeatherController.UpdateSeasonEffects | Assets/Lab9/WeatherController.cs:122-139 | the season's effect is requested with the configured transition time, as `AfterSeasonEffects` says, and the invariant is kept |
| WeatherControl.WeatherController.SeasonTick | Assets/Lab9/WeatherController.cs:97-105 | one pass of the season cycle changes the fields as `AfterSeasonTick` says and keeps the invariant |
| WeatherControl.WeatherController.RandomWeatherTick | Assets/Lab9/WeatherController.cs:141-149 | one pass of the random cycle changes the fields as `AfterRandomWeatherTick` says and keeps the invariant |
| WeatherControl.WeatherController.PlaySystem | Assets/Lab9/WeatherController.cs:180 | only the given system changes, and it emits, as `Emitters.Play` says |
| WeatherControl.WeatherController.StopSystem | Assets/Lab9/WeatherController.cs:212 | only the given system changes, and it stops, as `Emitters.Stop` says |
| WeatherControl.WeatherController.SetAlpha | Assets/Lab9/WeatherController.cs:206-208 | only the given system's alpha changes |
| WeatherControl.WeatherController.SetWeather | Assets/Lab9/WeatherController.cs:161-183 | the fields change as `AfterSetWeather` says and the invariant is kept |
| WeatherControl.WeatherController.Frame | Assets/Lab9/WeatherController.cs:203-209 | the fields change as `AfterFrame` says and the invariant is kept |
| WeatherControl.WeatherController.FadeParticles | Assets/Lab9/WeatherController.cs:196-213 | the loop leaves the systems as `RunFade` says, and stops the system after it iff the duration was reached and the target is 0 |
| CameraSwitching.StartSlots | Assets/Lab3/CamSwitch.cs:19-23 | the loop keeps every null slot null and every camera a camera |
| CameraSwitching.AfterStart | Assets/Lab3/CamSwitch.cs:11-27 | an empty array changes nothing; otherwise both indices become the default, the length is kept, and a camera is active iff it is in the default slot |
| CameraSwitching.StartShowsDefault | Assets/Lab3/CamSwitch.cs:11-27 | with a non-empty array only the default camera is shown, it is shown when its slot holds a camera, and current = previous = default |
| CameraSwitching.Switch | Assets/Lab3/CamSwitch.cs:41-56 | an out-of-range or null target is refused and changes nothing; otherwise the old camera is hidden, the new one shown, previous := current, current := target, and no other camera is touched |
| CameraSwitching.SwitchKeepsSlots | Assets/Lab3/CamSwitch.cs:41-56 | a switch never turns a null slot into a camera or the reverse |
| CameraSwitching.SwitchKeepsOneActive | Assets/Lab3/CamSwitch.cs:49-55 | if only the current camera is shown before a switch, the same holds after it, and after a successful one the new camera is the one shown |
| CameraSwitching.SwitchToPrevious | Assets/Lab3/CamSwitch.cs:58-61 | going back is refused iff the previous slot is out of range or null; when it succeeds the two indices swap; otherwise nothing changes |
| CameraSwitching.SwitchToPreviousTwiceRestores | Assets/Lab3/CamSwitch.cs:58-61 | going back twice, from a rig showing only its current camera, succeeds both times and restores every camera and both indices |
| CameraSwitching.KeyRequests | Assets/Lab3/CamSwitch.cs:29-39 | keys 1/2/3 request 0/1/2 only when the array is long enough, in that order |
| CameraSwitching.SwitchAll | Assets/Lab3/CamSwitch.cs:29-39 | a frame's switches keep the array's length and never turn a null slot into a camera or the reverse |
| CameraSwitching.AfterUpdate | Assets/Lab3/CamSwitch.cs:29-39 | with no key pressed nothing changes; the array's length and its null slots are kept |
| CameraSwitching.SwitchAllLastWins | Assets/Lab3/CamSwitch.cs:29-39 | after a batch of switches the current camera is the last selectable request, and no camera other than the current one is shown |
| CameraSwitching.SwitchAllKeepsOnlyCurrent | Assets/Lab3/CamSwitch.cs:29-55 | when no other camera is shown beforehand and the current camera is shown or some request is selectable, after the batch the current camera exists and is the only one shown |
| CameraSwitching.UpdateKeepsOnlyCurrent | Assets/Lab3/CamSwitch.cs:29-39 | every frame of `Update` keeps the current camera the only one shown |
| CameraSwitching.UpdateLastKeyWins | Assets/Lab3/CamSwitch.cs:29-39 | within one frame the last pressed key whose camera exists wins |
| CameraSwitching.SwitchAllStuck | Assets/Lab3/CamSwitch.cs:49 | with an out-of-range current index every switch throws or is refused before writing, so nothing changes |
| CameraSwitching.UpdateOutOfRangeChangesNothing | Assets/Lab3/CamSwitch.cs:29-39 | with an out-of-range current index a frame changes nothing, whatever keys are pressed |
| CameraSwitching.SwitchAllSnoc | Assets/Lab3/CamSwitch.cs:29-39 | the switches of a frame are applied one after another in key order |
| CameraSwitching.CamSwitch.constructor | Assets/Lab3/CamSwitch.cs:5-9 | both indices start at 0 |
| CameraSwitching.CamSwitch.Start | Assets/Lab3/CamSwitch.cs:11-27 | the array and indices change as `AfterStart` says |
| CameraSwitching.CamSwitch.SwitchCamera | Assets/Lab3/CamSwitch.cs:41-56 | the array, indices and outcome are as `Switch` says |
| CameraSwitching.CamSwitch.SwitchToPreviousCamera | Assets/Lab3/CamSwitch.cs:58-61 | it is `SwitchCamera(previousCameraIndex)` |
| CameraSwitching.CamSwitch.Update | Assets/Lab3/CamSwitch.cs:29-39 | the array and indices change as `AfterUpdate` says |
| ThrowableItems.ThrowableItemSystem.constructor | Assets/Lab7/ThrowableItemSystem.cs:16-18 | nothing is held and nothing is referenced |
| ThrowableItems.ThrowableItemSystem.TryPickup | Assets/Lab7/ThrowableItemSystem.cs:51-81 | pickup succeeds iff the ray hits a "Throwable" object with a Rigidbody; a miss or another tag changes nothing; a success holds the object kinematic, uninterpolated, collider off, at the grab point; a missing Rigidbody leaves the object referenced but not held |
| ThrowableItems.ThrowableItemSystem.DropItem | Assets/Lab7/ThrowableItemSystem.cs:83-106 | a no-op when nothing is held; otherwise the object is unparented, non-kinematic, interpolated, collider on, and both references are null with `isHolding` false |
| ThrowableItems.ThrowableItemSystem.ThrowItem | Assets/Lab7/ThrowableItemSystem.cs:108-131 | as `DropItem`, and exactly one impulse is applied to the object |
| ThrowableItems.ThrowableItemSystem.Update | Assets/Lab7/ThrowableItemSystem.cs:21-49 | E runs before the click: E while holding drops and a click then throws nothing; E and a click while empty-handed pick up and throw at once; a miss or an untagged hit changes nothing; a tagged hit without a Rigidbody leaves it referenced but not held; a click alone throws only what is held; E while holding leaves any other hit object untouched, a failed pickup leaves a previously referenced object untouched, and a pickup without a click applies no impulse |

## Left out

- Time of day and lighting (`TimeOfDayCycle`, `UpdateDayNightCycle`, `UpdateLighting`, `UpdateSunIntensity`, WeatherController.cs lines 69-95): floating-point rotation and foreign `Gradient`/`AnimationCurve` evaluation.
- Random draws and waits: the wind and the random weather draw are parameters (`w`, `draw`). The waits are not modelled: a season tick or random tick is one pass of its loop after its wait.
- Coroutine scheduling is fixed as follows. A coroutine started by `StartCoroutine`, or by yielding a nested `FadeParticles`, runs at once up to its first suspension. A transition whose fade-out has ended continues with its fade-in in the same frame. Each frame resumes every running transition once, in the order the transitions were started. A season or random tick runs in a frame of its own delta, and the resumption of the transitions already running is a separate frame event.
- A null `rainParticles`, `snowParticles` or `fogParticles` makes `StopAllParticles` (WeatherController.cs line 229) throw inside `Start`, so the cycles are never started. The model always has the three systems.
- `StartCoroutine`/`StopCoroutine` and `OnDestroy` teardown (WeatherController.cs lines 61-67, 234-240): engine scheduler plumbing.
- WeatherControl.WeatherController.constructor: the alphas of the particle systems as authored are assumed to lie in [0, 1]; `Start` itself does not check them.
- Floating point: alpha is an exact real, so `Mathf.Lerp`'s float rounding is not modelled. The wind is two arbitrary reals; its magnitude bound is not modelled.
- Float division by a zero duration is not modelled: `transitionTime` is a real, and with a duration of 0 the loop does not run, so that division never happens.
- A null `cameras` array is modelled as an empty one: `Start` only logs for it, whereas `Update` would throw on it.
- A camera object placed in two slots of the array is modelled as two independent slots.
- CameraSwitching.Switch: an `IndexOutOfRangeException` from an out-of-range current index is the outcome `CurrentOutOfRange` with the state unchanged. The rest of that frame's `Update` is modelled as continuing, and ends in the same state.
- The held object's rotation, the drop position, the throw direction and force, `pickupRange` and the raycast geometry: floating point and engine physics. The ray's result is the `hit` parameter, and a throw is counted as one impulse.
- Each scene object has exactly one collider, so `GetComponent<Collider>()` is never null and is the collider the ray hit.
- `Debug.Log`/`LogWarning`/`LogError` output and `OnDrawGizmos`: logging and editor drawing only.
- The other scripts (`FPVController.cs`, `CharacterMovment.cs`, `SceneLoader.cs`, `AnimationSwapper.cs`, `Script.cs`) are not part of this model: input-driven float movement and thin engine wrappers.

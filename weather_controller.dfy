/** WeatherController: the season and weather state machine. The functions on `Env` say what each
    event does to the controller's state; the class `WeatherController` holds that state in fields
    and its methods are proved to do exactly what those functions say.

    Events are the bodies of the controller's endless coroutines: a season tick (the body of
    `SeasonCycle`), a random-weather tick (the body of `RandomWeatherEffects`, with the random draw
    as a parameter) and a frame, in which every running `TransitionWeather` coroutine is resumed
    once with the frame's delta time. */
module WeatherControl {
  import opened WeatherRules
  import opened WeatherFade

  /** The post-processing profile the volume shows: the one it was authored with, or the season
      profile of the given index. */
  datatype Profile = Unassigned | Assigned(index: nat)

  /** The serialized settings the modelled logic reads. `volumePresent` says whether
      `postProcessVolume` is set and `profileCount` is `seasonPostEffects.Length`. */
  datatype Config = Config(volumePresent: bool, profileCount: nat, effectTransitionTime: real)

  /** The controller's state: `currentSeason`, `currentWeather`, the three particle systems, the
      volume's profile and the transition coroutines still running, oldest first. */
  datatype Env = Env(season: Season, weather: WeatherEffect, particles: Emitters,
                     profile: Profile, transitions: seq<Transition>)

  ghost predicate ValidEnv(env: Env)
  {
    AlphasInRange(env.particles) && AllValid(env.transitions)
  }

  /** `UpdatePostProcessing`: the season's profile is assigned when the volume exists and at
      least four profiles are configured; otherwise the volume keeps its profile. */
  function PostProcessing(p: Profile, cfg: Config, s: Season): (r: Profile)
    ensures cfg.volumePresent && cfg.profileCount >= SeasonCount ==>
              r.Assigned? && r.index == SeasonOrdinal(s) && r.index < cfg.profileCount
    ensures !(cfg.volumePresent && cfg.profileCount >= SeasonCount) ==> r == p
  {
    if cfg.volumePresent && cfg.profileCount >= SeasonCount then Assigned(SeasonOrdinal(s)) else p
  }

  /** `SetParticlesWind`, given the drawn wind: rain and snow get the same x and z force, fog
      and everything else is untouched. */
  function ParticlesWind(es: Emitters, w: Wind): (r: Emitters)
    ensures r.rain.force == r.snow.force == w
    ensures r.fog == es.fog
    ensures forall m :: r.Get(m).playing == es.Get(m).playing && r.Get(m).alpha == es.Get(m).alpha
  {
    es.(rain := es.rain.(force := w), snow := es.snow.(force := w))
  }

  /** `StopAllParticles`: no system emits afterwards; alphas and forces are kept. */
  function StopAll(es: Emitters): (r: Emitters)
    ensures forall m :: !r.Get(m).playing
    ensures forall m :: r.Get(m).alpha == es.Get(m).alpha && r.Get(m).force == es.Get(m).force
  {
    es.Stop(RainParticles).Stop(SnowParticles).Stop(FogParticles)
  }

  /** `Start`, i.e. `InitializeSystems`: Spring with its profile, no weather, every system
      stopped and rain and snow given one wind. `es` is the systems as the scene authored them. */
  function Initial(cfg: Config, es: Emitters, w: Wind): (r: Env)
    ensures r.season == Spring && r.weather == None && r.transitions == []
    ensures forall m :: !r.particles.Get(m).playing
    ensures r.particles.rain.force == r.particles.snow.force == w
  {
    Env(Spring, None, ParticlesWind(StopAll(es), w), PostProcessing(Unassigned, cfg, Spring), [])
  }

  /** `SetWeather` in a frame of delta `dt`: a request for the weather already current is
      ignored; any other one makes the requested effect current at once and runs its transition
      coroutine up to its first suspension. With a positive transition time that coroutine is
      added, still running, beside those already running; with a transition time of 0 or less
      it has already finished. */
  function AfterSetWeather(env: Env, e: WeatherEffect, d: real, dt: Delta): (r: Env)
    ensures e == env.weather ==> r == env
    ensures r.weather == e && r.season == env.season && r.profile == env.profile
    ensures e != env.weather ==>
              && |r.transitions| == |env.transitions| + (if d > 0.0 then 1 else 0)
              && r.transitions[..|env.transitions|] == env.transitions
              && (d > 0.0 ==> r.transitions[|env.transitions|].newEffect == e &&
                              r.transitions[|env.transitions|].duration == d)
  {
    if e == env.weather then env
    else
      var (es, trs) := Launch(env.particles, env.weather, e, d, dt);
      env.(weather := e, particles := es, transitions := env.transitions + trs)
  }

  /** A request repeated before anything else happens is a no-op, even when the first one's
      fades are still running. */
  lemma SetWeatherIdempotent(env: Env, e: WeatherEffect, d: real, dt: Delta, d': real, dt': Delta)
    ensures AfterSetWeather(AfterSetWeather(env, e, d, dt), e, d', dt') == AfterSetWeather(env, e, d, dt)
  {
  }

  lemma SetWeatherValid(env: Env, e: WeatherEffect, d: real, dt: Delta)
    requires ValidEnv(env)
    ensures ValidEnv(AfterSetWeather(env, e, d, dt))
  {
    if e != env.weather {
      LaunchValid(env.particles, env.weather, e, d, dt);
      var (es, trs0) := Launch(env.particles, env.weather, e, d, dt);
      var trs := env.transitions + trs0;
      assert AllValid(trs) by {
        forall i | 0 <= i < |trs| ensures ValidTransition(trs[i]) {
          if i < |env.transitions| {
            assert trs[i] == env.transitions[i];
          } else {
            assert trs[i] == trs0[i - |env.transitions|];
          }
        }
      }
    }
  }

  /** `SwitchToNextSeason`: the next season, its profile, and a fresh wind `w`. */
  function AfterSeasonSwitch(env: Env, cfg: Config, w: Wind): (r: Env)
    ensures r.season == NextSeason(env.season) && r.weather == env.weather
    ensures r.transitions == env.transitions
  {
    var s := NextSeason(env.season);
    env.(season := s, profile := PostProcessing(env.profile, cfg, s),
         particles := ParticlesWind(env.particles, w))
  }

  lemma SeasonSwitchValid(env: Env, cfg: Config, w: Wind)
    requires ValidEnv(env)
    ensures ValidEnv(AfterSeasonSwitch(env, cfg, w))
  {
    var e1 := AfterSeasonSwitch(env, cfg, w);
    forall m ensures 0.0 <= e1.particles.Get(m).alpha <= 1.0 {
      assert e1.particles.Get(m).alpha == env.particles.Get(m).alpha;
    }
  }

  /** `UpdateSeasonEffects`: request the current season's effect. */
  function AfterSeasonEffects(env: Env, cfg: Config, dt: Delta): (r: Env)
    ensures r.season == env.season && r.weather == SeasonWeather(env.season)
    ensures SeasonWeather(env.season) == env.weather ==> r == env
  {
    AfterSetWeather(env, SeasonWeather(env.season), cfg.effectTransitionTime, dt)
  }

  /** One pass of `SeasonCycle`'s loop after its wait, in a frame of delta `dt`. */
  function AfterSeasonTick(env: Env, cfg: Config, w: Wind, dt: Delta): (r: Env)
    ensures r.season == NextSeason(env.season) && r.weather == SeasonWeather(r.season)
  {
    AfterSeasonEffects(AfterSeasonSwitch(env, cfg, w), cfg, dt)
  }

  /** After a season tick the current weather is the new season's effect, whether or not a
      transition had to be started for it. */
  lemma SeasonTickWeather(env: Env, cfg: Config, w: Wind, dt: Delta)
    ensures AfterSeasonTick(env, cfg, w, dt).season == NextSeason(env.season)
    ensures AfterSeasonTick(env, cfg, w, dt).weather == SeasonWeather(NextSeason(env.season))
    ensures SeasonWeather(NextSeason(env.season)) == env.weather ==>
              AfterSeasonTick(env, cfg, w, dt).transitions == env.transitions
  {
  }

  lemma SeasonTickValid(env: Env, cfg: Config, w: Wind, dt: Delta)
    requires ValidEnv(env)
    ensures ValidEnv(AfterSeasonTick(env, cfg, w, dt))
  {
    var e1 := AfterSeasonSwitch(env, cfg, w);
    SeasonSwitchValid(env, cfg, w);
    SetWeatherValid(e1, SeasonWeather(e1.season), cfg.effectTransitionTime, dt);
  }

  /** Successive season ticks, each with its wind and its frame's delta. */
  function AfterSeasonTicks(env: Env, cfg: Config, wakes: seq<(Wind, Delta)>): Env
    decreases |wakes|
  {
    if wakes == [] then env
    else AfterSeasonTicks(AfterSeasonTick(env, cfg, wakes[0].0, wakes[0].1), cfg, wakes[1..])
  }

  /** After k season ticks the season has advanced k times, and the weather is the effect of the
      season reached. */
  lemma {:induction false} SeasonTicksAdvance(env: Env, cfg: Config, wakes: seq<(Wind, Delta)>)
    ensures AfterSeasonTicks(env, cfg, wakes).season == Advance(env.season, |wakes|)
    ensures wakes != [] ==> AfterSeasonTicks(env, cfg, wakes).weather == SeasonWeather(Advance(env.season, |wakes|))
    decreases |wakes|
  {
    if wakes != [] {
      var env1 := AfterSeasonTick(env, cfg, wakes[0].0, wakes[0].1);
      SeasonTickWeather(env, cfg, wakes[0].0, wakes[0].1);
      SeasonTicksAdvance(env1, cfg, wakes[1..]);
      AdvanceShift(env.season, |wakes| - 1);
    }
  }

  /** Advancing once and then k times is advancing k + 1 times. */
  lemma {:induction false} AdvanceShift(s: Season, k: nat)
    ensures Advance(NextSeason(s), k) == Advance(s, k + 1)
  {
    if k > 0 {
      AdvanceShift(s, k - 1);
    }
  }

  /** Four season ticks bring back the starting season, and fewer never do. */
  lemma FourSeasonTicksReturn(env: Env, cfg: Config, wakes: seq<(Wind, Delta)>)
    requires 0 < |wakes| <= SeasonCount
    ensures AfterSeasonTicks(env, cfg, wakes).season == env.season <==> |wakes| == SeasonCount
  {
    var k := |wakes|;
    SeasonTicksAdvance(env, cfg, wakes);
    AdvanceReturns(env.season, k);
    assert k % SeasonCount == 0 <==> k == SeasonCount;
  }

  /** One pass of `RandomWeatherEffects`' loop after its wait, in a frame of delta `dt`; `draw`
      is `Random.Range(1, 4)`. */
  function AfterRandomWeatherTick(env: Env, cfg: Config, draw: int, dt: Delta): (r: Env)
    requires 1 <= draw < EffectCount
    ensures r.season == env.season && r.profile == env.profile && r.weather != None
  {
    AfterSetWeather(env, GetSeasonAppropriateEffect(env.season, draw), cfg.effectTransitionTime, dt)
  }

  /** After a random-weather tick some effect other than None is current: Snow in Winter, Rain
      in Summer, and the drawn effect in Spring and Autumn. */
  lemma RandomWeatherTickEffect(env: Env, cfg: Config, draw: int, dt: Delta)
    requires 1 <= draw < EffectCount
    ensures AfterRandomWeatherTick(env, cfg, draw, dt).weather != None
    ensures env.season == Winter ==> AfterRandomWeatherTick(env, cfg, draw, dt).weather == Snow
    ensures env.season == Summer ==> AfterRandomWeatherTick(env, cfg, draw, dt).weather == Rain
    ensures env.season == Spring || env.season == Autumn ==>
              EffectOrdinal(AfterRandomWeatherTick(env, cfg, draw, dt).weather) == draw
  {
  }

  lemma RandomWeatherTickValid(env: Env, cfg: Config, draw: int, dt: Delta)
    requires 1 <= draw < EffectCount
    requires ValidEnv(env)
    ensures ValidEnv(AfterRandomWeatherTick(env, cfg, draw, dt))
  {
    SetWeatherValid(env, GetSeasonAppropriateEffect(env.season, draw), cfg.effectTransitionTime, dt);
  }

  /** One frame: every running transition is resumed once, oldest first, with delta `dt`. */
  function AfterFrame(env: Env, dt: Delta): (r: Env)
    ensures r.season == env.season && r.weather == env.weather && r.profile == env.profile
  {
    var (es, trs) := ResumeAll(env.particles, env.transitions, dt);
    env.(particles := es, transitions := trs)
  }

  lemma FrameValid(env: Env, dt: Delta)
    requires ValidEnv(env)
    ensures ValidEnv(AfterFrame(env, dt))
    ensures |AfterFrame(env, dt).transitions| <= |env.transitions|
  {
    ResumeAllValid(env.particles, env.transitions, dt);
  }

  /** Successive frames with the deltas `ticks`. */
  function AfterFrames(env: Env, ticks: seq<Delta>): Env
    decreases |ticks|
  {
    if ticks == [] then env else AfterFrames(AfterFrame(env, ticks[0]), ticks[1..])
  }

  /** With no transition running, frames change nothing. */
  lemma {:induction false} IdleFrames(env: Env, ticks: seq<Delta>)
    requires env.transitions == []
    ensures AfterFrames(env, ticks) == env
    decreases |ticks|
  {
    if ticks != [] {
      assert AfterFrame(env, ticks[0]) == env;
      IdleFrames(env, ticks[1..]);
    }
  }

  /** A lone fade-in whose loop is over and whose system is at alpha 1 ends on the next frame
      without stopping its system; nothing changes after that. */
  lemma FinishedFadeIn(env: Env, ticks: seq<Delta>)
    requires |env.transitions| == 1 && env.transitions[0].stage == FadingIn
    requires env.transitions[0].fade.target == 1.0
    requires env.transitions[0].fade.timer >= env.transitions[0].fade.duration
    ensures AfterFrames(env, ticks).particles == env.particles
    ensures AfterFrames(env, ticks).weather == env.weather
  {
    if ticks != [] {
      var tr := env.transitions[0];
      assert env.transitions == [tr];
      ResumeAllOne(env.particles, tr, ticks[0]);
      var env1 := AfterFrame(env, ticks[0]);
      assert env1 == env.(transitions := []);
      IdleFrames(env1, ticks[1..]);
    }
  }

  /** A lone fade-in on an emitting system, given frames whose deltas add up to the time it
      still needs, leaves that system emitting at alpha 1. */
  lemma {:induction false} LoneFadeInCompletes(env: Env, ticks: seq<Delta>)
    requires |env.transitions| == 1 && env.transitions[0].stage == FadingIn
    requires env.transitions[0].fade.target == 1.0
    requires env.transitions[0].fade.timer < env.transitions[0].fade.duration
    requires env.transitions[0].fade.timer + Sum(ticks) >= env.transitions[0].fade.duration
    requires env.particles.Get(env.transitions[0].fade.emitter).playing
    ensures AfterFrames(env, ticks).particles.Get(env.transitions[0].fade.emitter).alpha == 1.0
    ensures AfterFrames(env, ticks).particles.Get(env.transitions[0].fade.emitter).playing
    ensures AfterFrames(env, ticks).weather == env.weather
    decreases |ticks|
  {
    if ticks != [] {
      var tr := env.transitions[0];
      assert env.transitions == [tr];
      ResumeAllOne(env.particles, tr, ticks[0]);
      var (es1, f1) := FadeStep(env.particles, tr.fade, ticks[0]);
      var env1 := AfterFrame(env, ticks[0]);
      assert env1 == env.(particles := es1, transitions := [tr.(fade := f1)]);
      if f1.timer < f1.duration {
        LoneFadeInCompletes(env1, ticks[1..]);
      } else {
        FinishedFadeIn(env1, ticks[1..]);
      }
    }
  }

  /** Spring with no weather: a season tick brings Summer and requests Rain, which starts the
      rain system and begins fading it in, in the tick's own frame of delta `dt0`; frames whose
      deltas, with `dt0`, add up to the transition time then leave rain emitting at alpha 1,
      whatever alpha the rain system had before. */
  lemma SpringToSummerRains(env: Env, cfg: Config, w: Wind, dt0: Delta, ticks: seq<Delta>)
    requires env.season == Spring && env.weather == None && env.transitions == []
    requires cfg.effectTransitionTime > 0.0
    requires dt0 + Sum(ticks) >= cfg.effectTransitionTime
    ensures AfterSeasonTick(env, cfg, w, dt0).season == Summer
    ensures AfterSeasonTick(env, cfg, w, dt0).weather == Rain
    ensures AfterFrames(AfterSeasonTick(env, cfg, w, dt0), ticks).weather == Rain
    ensures AfterFrames(AfterSeasonTick(env, cfg, w, dt0), ticks).particles.rain.alpha == 1.0
    ensures AfterFrames(AfterSeasonTick(env, cfg, w, dt0), ticks).particles.rain.playing
  {
    assert NextSeason(Spring) == Summer;
    assert SeasonWeather(Summer) == Rain;
    var d := cfg.effectTransitionTime;
    var e0 := AfterSeasonSwitch(env, cfg, w);
    var (es1, t) := Spawn(e0.particles, None, Rain, d);
    var (es2, f2) := FadeStep(es1, t.fade, dt0);
    assert Resume(es1, t, dt0) == (es2, [t.(fade := f2)]);
    var env1 := AfterSeasonTick(env, cfg, w, dt0);
    assert env1 == e0.(weather := Rain, particles := es2, transitions := [t.(fade := f2)]);
    if f2.timer < f2.duration {
      LoneFadeInCompletes(env1, ticks);
    } else {
      FinishedFadeIn(env1, ticks);
    }
  }

  /** A transition time of 0 completes a request inside `SetWeather`: with Rain current, a
      request for Snow stops rain and starts snow at once, leaves the running transitions as
      they were, and writes no alpha. */
  lemma ZeroDurationCompletesAtOnce(env: Env, dt: Delta)
    requires env.weather == Rain
    ensures var r := AfterSetWeather(env, Snow, 0.0, dt);
            && r.weather == Snow && r.transitions == env.transitions
            && !r.particles.rain.playing && r.particles.snow.playing
            && r.particles.fog == env.particles.fog
            && r.particles.rain.alpha == env.particles.rain.alpha
            && r.particles.snow.alpha == env.particles.snow.alpha
  {
    var es := env.particles;
    var (es0, out) := Spawn(es, Rain, Snow, 0.0);
    var es1 := FadeEnd(es, out.fade);
    var (es2, t2) := BeginFadeIn(es1, Snow, 0.0);
    assert Resume(es2, t2, dt) == (es2, []);
    assert Launch(es, Rain, Snow, 0.0, dt) == (es2, []);
  }

  /** Two requests with a transition time of 0 in one frame: with rain emitting as Rain, asking
      for None and then for Rain again leaves rain emitting, every system as it was, and the
      running transitions untouched. */
  lemma ZeroDurationStopThenRain(env: Env, dt: Delta)
    requires env.weather == Rain && env.particles.rain.playing
    ensures var r := AfterSetWeather(AfterSetWeather(env, None, 0.0, dt), Rain, 0.0, dt);
            && r.weather == Rain && r.transitions == env.transitions
            && r.particles == env.particles
  {
    var es := env.particles;
    var (es0, out) := Spawn(es, Rain, None, 0.0);
    var es1 := FadeEnd(es, out.fade);
    assert es1 == es.Stop(RainParticles);
    assert Launch(es, Rain, None, 0.0, dt) == (es1, []);
    var (es2, t2) := Spawn(es1, None, Rain, 0.0);
    assert es2 == es;
    assert Resume(es2, t2, dt) == (es, []);
    assert Launch(es1, None, Rain, 0.0, dt) == (es, []);
  }

  /** The systems of the scenario below: rain in the given state, snow and fog idle. */
  function RainOnly(playing: bool, alpha: real, w: Wind): Emitters
  {
    Emitters(EmitterState(playing, alpha, w), EmitterState(false, 0.0, w), EmitterState(false, 0.0, w))
  }

  function RainFadeOut(timer: Delta): Transition
  {
    Transition(None, 1.0, FadingOut, Fade(RainParticles, 1.0, 0.0, 1.0, timer))
  }

  function RainFadeIn(timer: Delta): Transition
  {
    Transition(Rain, 1.0, FadingIn, Fade(RainParticles, 0.5, 1.0, 1.0, timer))
  }

  lemma ScenarioAutumn(cfg: Config, w: Wind, p: Profile)
    requires cfg.effectTransitionTime == 1.0
    ensures AfterSeasonTick(Env(Summer, Rain, RainOnly(true, 1.0, w), p, []), cfg, w, 0.5)
         == Env(Autumn, None, RainOnly(true, 0.5, w), PostProcessing(p, cfg, Autumn), [RainFadeOut(0.5)])
  {
    assert NextSeason(Summer) == Autumn;
    assert Spawn(RainOnly(true, 1.0, w), Rain, None, 1.0) == (RainOnly(true, 1.0, w), RainFadeOut(0.0));
    ScenarioRainHalfOut(w);
  }

  lemma ScenarioRainHalfOut(w: Wind)
    ensures Resume(RainOnly(true, 1.0, w), RainFadeOut(0.0), 0.5) == (RainOnly(true, 0.5, w), [RainFadeOut(0.5)])
  {
    assert Lerp(1.0, 0.0, 0.5 / 1.0) == 0.5;
  }

  lemma ScenarioRainAgain(cfg: Config, w: Wind, q: Profile)
    requires cfg.effectTransitionTime == 1.0
    ensures AfterRandomWeatherTick(Env(Autumn, None, RainOnly(true, 0.5, w), q, [RainFadeOut(0.5)]), cfg, 1, 0.5)
         == Env(Autumn, Rain, RainOnly(true, 0.75, w), q, [RainFadeOut(0.5), RainFadeIn(0.5)])
  {
    assert GetSeasonAppropriateEffect(Autumn, 1) == Rain;
    assert Spawn(RainOnly(true, 0.5, w), None, Rain, 1.0) == (RainOnly(true, 0.5, w), RainFadeIn(0.0));
    ScenarioRainHalfIn(w);
  }

  lemma ScenarioRainHalfIn(w: Wind)
    ensures Resume(RainOnly(true, 0.5, w), RainFadeIn(0.0), 0.5) == (RainOnly(true, 0.75, w), [RainFadeIn(0.5)])
  {
    assert Lerp(0.5, 1.0, 0.5 / 1.0) == 0.75;
  }

  lemma ScenarioBothFading(w: Wind, q: Profile)
    ensures AfterFrame(Env(Autumn, Rain, RainOnly(true, 0.75, w), q, [RainFadeOut(0.5), RainFadeIn(0.5)]), 0.5)
         == Env(Autumn, Rain, RainOnly(true, 1.0, w), q, [RainFadeOut(1.0), RainFadeIn(1.0)])
  {
    ScenarioBothFadingResumed(w);
  }

  lemma ScenarioBothFadingResumed(w: Wind)
    ensures ResumeAll(RainOnly(true, 0.75, w), [RainFadeOut(0.5), RainFadeIn(0.5)], 0.5)
         == (RainOnly(true, 1.0, w), [RainFadeOut(1.0), RainFadeIn(1.0)])
  {
    ScenarioRainAtZero(w);
    ScenarioRainAtOne(w);
    ResumeAllBothContinue(RainOnly(true, 0.75, w), RainFadeOut(0.5), RainFadeIn(0.5), 0.5,
                          RainOnly(true, 0.0, w), RainFadeOut(1.0), RainOnly(true, 1.0, w), RainFadeIn(1.0));
  }

  lemma ScenarioRainAtZero(w: Wind)
    ensures Resume(RainOnly(true, 0.75, w), RainFadeOut(0.5), 0.5) == (RainOnly(true, 0.0, w), [RainFadeOut(1.0)])
  {
    FadeStepReached(RainOnly(true, 0.75, w), RainFadeOut(0.5), 0.5);
  }

  lemma ScenarioRainAtOne(w: Wind)
    ensures Resume(RainOnly(true, 0.0, w), RainFadeIn(0.5), 0.5) == (RainOnly(true, 1.0, w), [RainFadeIn(1.0)])
  {
    FadeStepReached(RainOnly(true, 0.0, w), RainFadeIn(0.5), 0.5);
  }

  /** A resumption whose loop iteration brings the timer to the duration leaves the transition
      at its target alpha, with the timer advanced. */
  lemma FadeStepReached(es: Emitters, t: Transition, dt: Delta)
    requires t.fade.timer < t.fade.duration <= t.fade.timer + dt
    ensures Resume(es, t, dt)
         == (es.Set(t.fade.emitter, es.Get(t.fade.emitter).(alpha := t.fade.target)),
             [t.(fade := t.fade.(timer := t.fade.timer + dt))])
  {
    var (es1, f1) := FadeStep(es, t.fade, dt);
    var m := t.fade.emitter;
    assert es1.Get(m) == es.Get(m).(alpha := t.fade.target);
    forall n ensures es1.Get(n) == es.Set(m, es.Get(m).(alpha := t.fade.target)).Get(n) {
    }
  }

  lemma ScenarioBothEnd(w: Wind, q: Profile)
    ensures AfterFrame(Env(Autumn, Rain, RainOnly(true, 1.0, w), q, [RainFadeOut(1.0), RainFadeIn(1.0)]), 0.5)
         == Env(Autumn, Rain, RainOnly(false, 1.0, w), q, [])
  {
    assert Resume(RainOnly(true, 1.0, w), RainFadeOut(1.0), 0.5) == (RainOnly(false, 1.0, w), []);
    ResumeAllFirstEnds(RainOnly(true, 1.0, w), RainFadeOut(1.0), RainFadeIn(1.0), 0.5, RainOnly(false, 1.0, w));
    assert Resume(RainOnly(false, 1.0, w), RainFadeIn(1.0), 0.5) == (RainOnly(false, 1.0, w), []);
  }

  /** Nothing cancels a running fade. A season change from Summer to Autumn starts fading rain
      out; half-way through, a random-weather tick in Autumn draws Rain, which starts rain again
      and fades it in. The fade-out still ends by stopping the rain system, so once every
      transition has finished Rain is the current weather, its alpha is 1, and it emits nothing. */
  lemma OverlappingTransitionsStopCurrentRain(cfg: Config, w: Wind, p: Profile)
    requires cfg.effectTransitionTime == 1.0
    ensures
      var start := Env(Summer, Rain, RainOnly(true, 1.0, w), p, []);
      var rainAgain := AfterRandomWeatherTick(AfterSeasonTick(start, cfg, w, 0.5), cfg, 1, 0.5);
      var done := AfterFrame(AfterFrame(rainAgain, 0.5), 0.5);
      && |rainAgain.transitions| == 2
      && done.transitions == []
      && done.weather == Rain
      && done.particles.rain.alpha == 1.0
      && !done.particles.rain.playing
  {
    var q := PostProcessing(p, cfg, Autumn);
    ScenarioAutumn(cfg, w, p);
    ScenarioRainAgain(cfg, w, q);
    ScenarioBothFading(w, q);
    ScenarioBothEnd(w, q);
  }

  /** The controller's state as fields, updated in place by its methods. */
  class WeatherController {
    const config: Config
    var currentSeason: Season
    var currentWeather: WeatherEffect
    var rainParticles: EmitterState
    var snowParticles: EmitterState
    var fogParticles: EmitterState
    var profile: Profile
    /** The `TransitionWeather` coroutines started and not yet finished, oldest first. */
    var transitions: seq<Transition>

    function Particles(): Emitters
      reads this
    {
      Emitters(rainParticles, snowParticles, fogParticles)
    }

    ghost function State(): Env
      reads this
    {
      Env(currentSeason, currentWeather, Particles(), profile, transitions)
    }

    ghost predicate Valid()
      reads this
    {
      ValidEnv(State())
    }

    /** `Start`: `InitializeSystems` on the systems as authored (`rain`, `snow`, `fog`) with the
        wind drawn by `SetParticlesWind`. `currentWeather` keeps its default, None. */
    constructor (config: Config, rain: EmitterState, snow: EmitterState, fog: EmitterState, w: Wind)
      requires AlphasInRange(Emitters(rain, snow, fog))
      ensures this.config == config
      ensures State() == Initial(config, Emitters(rain, snow, fog), w)
      ensures Valid()
    {
      this.config := config;
      currentWeather := None;
      rainParticles, snowParticles, fogParticles := rain, snow, fog;
      profile := Unassigned;
      transitions := [];
      new;
      SetInitialSeason();
      StopAllParticles();
      SetParticlesWind(w);
    }

    method SetInitialSeason()
      modifies this
      ensures State() == old(State()).(season := Spring, profile := PostProcessing(old(profile), config, Spring))
    {
      currentSeason := Spring;
      UpdatePostProcessing();
    }

    method UpdatePostProcessing()
      modifies this
      ensures State() == old(State()).(profile := PostProcessing(old(profile), config, currentSeason))
    {
      if config.volumePresent && config.profileCount >= SeasonCount {
        profile := Assigned(SeasonOrdinal(currentSeason));
      }
    }

    method StopAllParticles()
      modifies this
      ensures State() == old(State()).(particles := StopAll(old(Particles())))
    {
      rainParticles := rainParticles.(playing := false);
      snowParticles := snowParticles.(playing := false);
      fogParticles := fogParticles.(playing := false);
    }

    /** `SetParticlesWind` with the drawn wind `w`. */
    method SetParticlesWind(w: Wind)
      modifies this
      ensures State() == old(State()).(particles := ParticlesWind(old(Particles()), w))
    {
      rainParticles := rainParticles.(force := w);
      snowParticles := snowParticles.(force := w);
    }

    method SwitchToNextSeason(w: Wind)
      modifies this
      ensures State() == AfterSeasonSwitch(old(State()), config, w)
    {
      currentSeason := SeasonFromOrdinal((SeasonOrdinal(currentSeason) + 1) % SeasonCount);
      UpdatePostProcessing();
      SetParticlesWind(w);
    }

    /** `UpdateSeasonEffects`, run in a frame of delta `dt`. */
    method UpdateSeasonEffects(dt: Delta)
      requires Valid()
      modifies this
      ensures State() == AfterSeasonEffects(old(State()), config, dt)
      ensures Valid()
    {
      match currentSeason
      case Winter => SetWeather(Snow, config.effectTransitionTime, dt);
      case Summer => SetWeather(Rain, config.effectTransitionTime, dt);
      case Spring => SetWeather(Fog, config.effectTransitionTime, dt);
      case Autumn => SetWeather(None, config.effectTransitionTime, dt);
    }

    /** The body of `SeasonCycle`'s loop, run when its wait of `seasonDuration` is over, in a
        frame of delta `dt`. */
    method SeasonTick(w: Wind, dt: Delta)
      requires Valid()
      modifies this
      ensures State() == AfterSeasonTick(old(State()), config, w, dt)
      ensures Valid()
    {
      SeasonSwitchValid(State(), config, w);
      SwitchToNextSeason(w);
      UpdateSeasonEffects(dt);
    }

    /** The body of `RandomWeatherEffects`' loop, run when its random wait is over, in a frame
        of delta `dt`; `draw` is the value `Random.Range(1, 4)` returns. */
    method RandomWeatherTick(draw: int, dt: Delta)
      requires 1 <= draw < EffectCount
      requires Valid()
      modifies this
      ensures State() == AfterRandomWeatherTick(old(State()), config, draw, dt)
      ensures Valid()
    {
      var effect := GetSeasonAppropriateEffect(currentSeason, draw);
      SetWeather(effect, config.effectTransitionTime, dt);
    }

    method PlaySystem(m: Emitter)
      modifies this
      ensures State() == old(State()).(particles := old(Particles()).Play(m))
    {
      match m
      case RainParticles => rainParticles := rainParticles.(playing := true);
      case SnowParticles => snowParticles := snowParticles.(playing := true);
      case FogParticles => fogParticles := fogParticles.(playing := true);
    }

    method StopSystem(m: Emitter)
      modifies this
      ensures State() == old(State()).(particles := old(Particles()).Stop(m))
    {
      match m
      case RainParticles => rainParticles := rainParticles.(playing := false);
      case SnowParticles => snowParticles := snowParticles.(playing := false);
      case FogParticles => fogParticles := fogParticles.(playing := false);
    }

    method SetAlpha(m: Emitter, alpha: real)
      modifies this
      ensures State() == old(State()).(particles := old(Particles()).Set(m, old(Particles()).Get(m).(alpha := alpha)))
    {
      match m
      case RainParticles => rainParticles := rainParticles.(alpha := alpha);
      case SnowParticles => snowParticles := snowParticles.(alpha := alpha);
      case FogParticles => fogParticles := fogParticles.(alpha := alpha);
    }

    function AlphaOf(m: Emitter): (a: real)
      reads this
      ensures a == Particles().Get(m).alpha
    {
      match m
      case RainParticles => rainParticles.alpha
      case SnowParticles => snowParticles.alpha
      case FogParticles => fogParticles.alpha
    }

    /** `SetWeather` in a frame of delta `dt`, and with it `TransitionWeather` up to its first
        suspension: the effect becomes current at once; then the old effect's system is set to
        fade out, or, when there is no old effect, the new effect's system is started and set
        to fade in; that fade runs at once as far as it goes in this frame. A transition still
        running is added to those already running; nothing cancels them. */
    method SetWeather(effect: WeatherEffect, transitionTime: real, dt: Delta)
      requires Valid()
      modifies this
      ensures State() == AfterSetWeather(old(State()), effect, transitionTime, dt)
      ensures Valid()
    {
      SetWeatherValid(State(), effect, transitionTime, dt);
      if effect == currentWeather {
        return;
      }
      var oldEffect := currentWeather;
      currentWeather := effect;
      var tr: Transition;
      if oldEffect != None {
        var m := GetParticleSystem(oldEffect).emitter;
        tr := Transition(effect, transitionTime, FadingOut, Fade(m, AlphaOf(m), 0.0, transitionTime, 0.0));
      } else {
        var m := GetParticleSystem(effect).emitter;
        PlaySystem(m);
        tr := Transition(effect, transitionTime, FadingIn, Fade(m, AlphaOf(m), 1.0, transitionTime, 0.0));
      }
      var (es, trs) := Resume(Particles(), tr, dt);
      rainParticles, snowParticles, fogParticles := es.rain, es.snow, es.fog;
      transitions := transitions + trs;
    }

    /** One frame of the engine: every running transition is resumed once with the frame's
        delta time `dt`. */
    method Frame(dt: Delta)
      requires Valid()
      modifies this
      ensures State() == AfterFrame(old(State()), dt)
      ensures Valid()
    {
      FrameValid(State(), dt);
      var (es, trs) := ResumeAll(Particles(), transitions, dt);
      rainParticles, snowParticles, fogParticles := es.rain, es.snow, es.fog;
      transitions := trs;
    }

    /** `FadeParticles` on system `m`, run on its own over the frame deltas `ticks`: its loop
        goes on while the timer is below `duration` and frames remain. `finished` says the loop
        was left because the duration was reached, in which case the system is stopped when
        `targetAlpha` is 0. */
    method FadeParticles(m: Emitter, targetAlpha: real, duration: real, ticks: seq<Delta>)
      returns (finished: bool)
      modifies this
      ensures var (es, f) := RunFade(old(Particles()), StartFade(old(Particles()), m, targetAlpha, duration), ticks);
              && finished == (f.timer >= duration)
              && Particles() == (if finished then FadeEnd(es, f) else es)
      ensures State() == old(State()).(particles := Particles())
    {
      var startAlpha := AlphaOf(m);
      ghost var start := StartFade(Particles(), m, targetAlpha, duration);
      ghost var f := start;
      var timer: Delta := 0.0;
      var i := 0;
      while timer < duration && i < |ticks|
        invariant 0 <= i <= |ticks|
        invariant f == start.(timer := timer)
        invariant State() == old(State()).(particles := Particles())
        invariant RunFade(old(Particles()), start, ticks) == RunFade(Particles(), f, ticks[i..])
        decreases |ticks| - i
      {
        ghost var es0 := Particles();
        assert ticks[i..][0] == ticks[i] && ticks[i..][1..] == ticks[i + 1..];
        timer := timer + ticks[i];
        SetAlpha(m, Lerp(startAlpha, targetAlpha, timer / duration));
        assert (Particles(), f.(timer := timer)) == FadeStep(es0, f, ticks[i]);
        f := f.(timer := timer);
        i := i + 1;
      }
      assert RunFade(Particles(), f, ticks[i..]) == (Particles(), f);
      finished := timer >= duration;
      if finished && targetAlpha == 0.0 {
        StopSystem(m);
      }
    }
  }
}

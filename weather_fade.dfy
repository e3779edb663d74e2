/** The particle systems as WeatherController sees them, the fade that `FadeParticles` runs on
    one of them, and the `TransitionWeather` coroutine as a record that is resumed once per frame.

    Alpha is the alpha channel of a system's start colour, kept as an exact `real`; `Mathf.Lerp`
    clamps its parameter to [0, 1], and so does `Lerp` here. */
module WeatherFade {
  import opened WeatherRules

  /** The x and z components of a system's force-over-lifetime module. */
  datatype Wind = Wind(x: real, z: real)

  /** What the controller reads and writes of one particle system. */
  datatype EmitterState = EmitterState(playing: bool, alpha: real, force: Wind)

  /** The three configured particle systems. */
  datatype Emitters = Emitters(rain: EmitterState, snow: EmitterState, fog: EmitterState)
  {
    function Get(m: Emitter): EmitterState
    {
      match m
      case RainParticles => rain
      case SnowParticles => snow
      case FogParticles => fog
    }

    function Set(m: Emitter, s: EmitterState): (r: Emitters)
      ensures r.Get(m) == s
      ensures forall n :: n != m ==> r.Get(n) == Get(n)
    {
      match m
      case RainParticles => this.(rain := s)
      case SnowParticles => this.(snow := s)
      case FogParticles => this.(fog := s)
    }

    /** `system.Play()`. */
    function Play(m: Emitter): (r: Emitters)
      ensures r.Get(m).playing && r.Get(m).alpha == Get(m).alpha && r.Get(m).force == Get(m).force
      ensures forall n :: n != m ==> r.Get(n) == Get(n)
    {
      Set(m, Get(m).(playing := true))
    }

    /** `system.Stop()`. */
    function Stop(m: Emitter): (r: Emitters)
      ensures !r.Get(m).playing && r.Get(m).alpha == Get(m).alpha && r.Get(m).force == Get(m).force
      ensures forall n :: n != m ==> r.Get(n) == Get(n)
    {
      Set(m, Get(m).(playing := false))
    }
  }

  /** Every system's alpha lies in [0, 1]. */
  ghost predicate AlphasInRange(es: Emitters)
  {
    forall m :: 0.0 <= es.Get(m).alpha <= 1.0
  }

  function Clamp01(t: real): (c: real)
    ensures 0.0 <= c <= 1.0
    ensures 0.0 <= t <= 1.0 ==> c == t
  {
    if t < 0.0 then 0.0 else if t > 1.0 then 1.0 else t
  }

  /** `v` lies between `a` and `b`, in whichever order they come. */
  predicate Between(v: real, a: real, b: real)
  {
    (a <= v <= b) || (b <= v <= a)
  }

  lemma ScaledWithin(x: real, c: real)
    requires 0.0 <= c <= 1.0
    ensures x >= 0.0 ==> 0.0 <= x * c <= x
    ensures x <= 0.0 ==> x <= x * c <= 0.0
  {
    assert x * c - x == x * (c - 1.0);
  }

  lemma InterpolantWithin(a: real, b: real, c: real)
    requires 0.0 <= c <= 1.0
    ensures Between(a + (b - a) * c, a, b)
  {
    var s := (b - a) * c;
    ScaledWithin(b - a, c);
    ScaledWithin(b - a, 1.0 - c);
    assert (b - a) - s == (b - a) * (1.0 - c);
  }

  /** `Mathf.Lerp`: the point a fraction `t` (clamped to [0, 1]) of the way from `a` to `b`. */
  function Lerp(a: real, b: real, t: real): (r: real)
    ensures Between(r, a, b)
    ensures t >= 1.0 ==> r == b
    ensures t <= 0.0 ==> r == a
  {
    var c := Clamp01(t);
    InterpolantWithin(a, b, c);
    assert c == 1.0 ==> (b - a) * c == b - a;
    assert c == 0.0 ==> (b - a) * c == 0.0;
    a + (b - a) * c
  }

  lemma QuotientAtLeastOne(x: real, d: real)
    requires 0.0 < d <= x
    ensures x / d >= 1.0
  {
    assert x / d * d == x;
  }

  /** A duration that cannot be negative: a frame's `Time.deltaTime`, or a fade's timer, which
      starts at 0 and only ever grows by frame deltas. */
  type Delta = r: real | 0.0 <= r witness 0.0

  /** The state of one `FadeParticles` coroutine: the system it drives, the alpha it read when
      it started, the alpha it aims at, its duration and its timer. */
  datatype Fade = Fade(emitter: Emitter, startAlpha: real, target: real, duration: real, timer: Delta)

  /** A fade that has just started on `m`: it captures the system's present alpha. */
  function StartFade(es: Emitters, m: Emitter, target: real, duration: real): (f: Fade)
    ensures f.emitter == m && f.target == target && f.duration == duration
    ensures f.startAlpha == es.Get(m).alpha && f.timer == 0.0
  {
    Fade(m, es.Get(m).alpha, target, duration, 0.0)
  }

  /** One iteration of the `while (timer < duration)` loop of `FadeParticles`: the timer grows by
      the frame's delta and the interpolated alpha is written to the system. */
  function FadeStep(es: Emitters, f: Fade, dt: Delta): (r: (Emitters, Fade))
    requires f.timer < f.duration
    ensures r.1 == f.(timer := f.timer + dt)
    ensures Between(r.0.Get(f.emitter).alpha, f.startAlpha, f.target)
    ensures f.timer + dt >= f.duration ==> r.0.Get(f.emitter).alpha == f.target
    ensures r.0.Get(f.emitter).playing == es.Get(f.emitter).playing
    ensures r.0.Get(f.emitter).force == es.Get(f.emitter).force
    ensures forall n :: n != f.emitter ==> r.0.Get(n) == es.Get(n)
  {
    var timer := f.timer + dt;
    var s := es.Get(f.emitter);
    assert timer >= f.duration ==> timer / f.duration >= 1.0 by {
      if timer >= f.duration {
        QuotientAtLeastOne(timer, f.duration);
      }
    }
    (es.Set(f.emitter, s.(alpha := Lerp(f.startAlpha, f.target, timer / f.duration))), f.(timer := timer))
  }

  /** What `FadeParticles` does once its loop has ended: it stops the system when, and only
      when, the fade aimed at alpha 0. */
  function FadeEnd(es: Emitters, f: Fade): (r: Emitters)
    ensures r.Get(f.emitter).playing == (es.Get(f.emitter).playing && f.target != 0.0)
    ensures r.Get(f.emitter).alpha == es.Get(f.emitter).alpha
    ensures r.Get(f.emitter).force == es.Get(f.emitter).force
    ensures forall n :: n != f.emitter ==> r.Get(n) == es.Get(n)
  {
    if f.target == 0.0 then es.Stop(f.emitter) else es
  }

  function Sum(ticks: seq<real>): real
  {
    if ticks == [] then 0.0 else ticks[0] + Sum(ticks[1..])
  }

  lemma {:induction false} SumNonNegative(ticks: seq<Delta>)
    ensures Sum(ticks) >= 0.0
    decreases |ticks|
  {
    if ticks != [] {
      SumNonNegative(ticks[1..]);
    }
  }

  /** `FadeParticles`' loop, driven by the successive frame deltas in `ticks`: it runs while the
      timer is below the duration and frames remain. */
  function RunFade(es: Emitters, f: Fade, ticks: seq<Delta>): (r: (Emitters, Fade))
    ensures r.1 == f.(timer := r.1.timer) && r.1.timer >= f.timer
    ensures r.1.timer <= f.timer + Sum(ticks)
    ensures r.1.timer < f.duration ==> r.1.timer == f.timer + Sum(ticks)
    ensures forall n :: n != f.emitter ==> r.0.Get(n) == es.Get(n)
    decreases |ticks|
  {
    if f.timer < f.duration && ticks != [] then
      var (es1, f1) := FadeStep(es, f, ticks[0]);
      RunFade(es1, f1, ticks[1..])
    else
      assert Sum(ticks) >= 0.0 by { SumNonNegative(ticks); }
      (es, f)
  }

  /** A fade that has at least one iteration to run, given frames whose deltas add up to the
      time it still needs, leaves its loop with the system exactly at the target alpha. A fade
      whose duration is not positive never enters its loop (see `RunFadeSkipsNonPositive`). */
  lemma {:induction false} RunFadeReachesTarget(es: Emitters, f: Fade, ticks: seq<Delta>)
    requires f.timer < f.duration
    requires f.timer + Sum(ticks) >= f.duration
    ensures RunFade(es, f, ticks).1.timer >= f.duration
    ensures RunFade(es, f, ticks).0.Get(f.emitter).alpha == f.target
    decreases |ticks|
  {
    if ticks != [] {
      var (es1, f1) := FadeStep(es, f, ticks[0]);
      if f1.timer < f.duration {
        RunFadeReachesTarget(es1, f1, ticks[1..]);
      }
    }
  }

  /** A non-positive duration skips the loop: no alpha is written at all, so the target alpha
      is never reached unless the system already had it. */
  lemma RunFadeSkipsNonPositive(es: Emitters, f: Fade, ticks: seq<Delta>)
    requires f.duration <= 0.0
    ensures RunFade(es, f, ticks) == (es, f)
  {
  }

  /** Every alpha a fade writes lies between its start alpha and its target. */
  lemma {:induction false} RunFadeStaysBetween(es: Emitters, f: Fade, ticks: seq<Delta>)
    requires Between(es.Get(f.emitter).alpha, f.startAlpha, f.target)
    ensures RunFade(es, f, ticks).1.emitter == f.emitter
    ensures Between(RunFade(es, f, ticks).0.Get(f.emitter).alpha, f.startAlpha, f.target)
    ensures RunFade(es, f, ticks).0.Get(f.emitter).playing == es.Get(f.emitter).playing
    ensures forall n :: n != f.emitter ==> RunFade(es, f, ticks).0.Get(n) == es.Get(n)
    decreases |ticks|
  {
    if f.timer < f.duration && ticks != [] {
      var (es1, f1) := FadeStep(es, f, ticks[0]);
      RunFadeStaysBetween(es1, f1, ticks[1..]);
    }
  }

  datatype Stage = FadingOut | FadingIn

  /** A running `TransitionWeather` coroutine: the effect it brings in, its transition time, the
      stage it is in and the fade it is waiting on. */
  datatype Transition = Transition(newEffect: WeatherEffect, duration: real, stage: Stage, fade: Fade)

  /** What a transition's fields always satisfy: fade-outs aim at 0, fade-ins aim at 1 on the
      system of the effect being brought in, and the fade runs for the transition time. */
  ghost predicate ValidTransition(tr: Transition)
  {
    && 0.0 <= tr.fade.startAlpha <= 1.0
    && tr.fade.duration == tr.duration
    && (tr.stage == FadingOut ==> tr.fade.target == 0.0)
    && (tr.stage == FadingIn ==>
          tr.fade.target == 1.0 && tr.newEffect != None &&
          GetParticleSystem(tr.newEffect) == Slot(tr.fade.emitter))
  }

  ghost predicate AllValid(trs: seq<Transition>)
  {
    forall i :: 0 <= i < |trs| ==> ValidTransition(trs[i])
  }

  /** The second half of `TransitionWeather`: start the new effect's system, then fade it in. */
  function BeginFadeIn(es: Emitters, e: WeatherEffect, d: real): (r: (Emitters, Transition))
    requires e != None
    ensures r.0 == es.Play(GetParticleSystem(e).emitter)
    ensures r.1.stage == FadingIn && r.1.newEffect == e && r.1.duration == d
    ensures r.1.fade == StartFade(r.0, GetParticleSystem(e).emitter, 1.0, d)
  {
    var m := GetParticleSystem(e).emitter;
    var es1 := es.Play(m);
    (es1, Transition(e, d, FadingIn, StartFade(es1, m, 1.0, d)))
  }

  /** `TransitionWeather` entering its first stage, before its first fade has run: it fades
      the old effect's system out if there is one, and otherwise starts the new effect's system
      and fades it in. */
  function Spawn(es: Emitters, oldEffect: WeatherEffect, newEffect: WeatherEffect, d: real): (r: (Emitters, Transition))
    requires oldEffect != newEffect
    ensures r.1.newEffect == newEffect && r.1.duration == d
    ensures r.1.stage == FadingOut <==> oldEffect != None
    ensures oldEffect != None ==> r.0 == es && r.1.fade == StartFade(es, GetParticleSystem(oldEffect).emitter, 0.0, d)
    ensures oldEffect == None ==> r == BeginFadeIn(es, newEffect, d)
  {
    if oldEffect != None then
      (es, Transition(newEffect, d, FadingOut, StartFade(es, GetParticleSystem(oldEffect).emitter, 0.0, d)))
    else
      BeginFadeIn(es, newEffect, d)
  }

  lemma SpawnValid(es: Emitters, oldEffect: WeatherEffect, newEffect: WeatherEffect, d: real)
    requires oldEffect != newEffect
    requires AlphasInRange(es)
    ensures AlphasInRange(Spawn(es, oldEffect, newEffect, d).0)
    ensures ValidTransition(Spawn(es, oldEffect, newEffect, d).1)
  {
    var r := Spawn(es, oldEffect, newEffect, d);
    assert 0.0 <= r.1.fade.startAlpha <= 1.0 by {
      assert r.1.fade.startAlpha == r.0.Get(r.1.fade.emitter).alpha;
    }
    forall m ensures 0.0 <= r.0.Get(m).alpha <= 1.0 {
      assert r.0.Get(m).alpha == es.Get(m).alpha;
    }
  }

  /** One resumption of a transition coroutine in a frame of delta `dt`, run up to its next
      suspension. While the fade's timer is below its duration this is one loop iteration.
      Otherwise the fade ends (stopping its system if it aimed at 0); a fade-out towards a real
      effect then goes straight on, in the same frame, to start the new system and enter its
      fade-in, which is itself resumed at once; in every other case the coroutine is finished.
      The result holds the transition again when it is still running. */
  function Resume(es: Emitters, tr: Transition, dt: Delta): (r: (Emitters, seq<Transition>))
    ensures |r.1| <= 1
    ensures r.1 != [] ==> r.1[0].newEffect == tr.newEffect && r.1[0].duration == tr.duration
    ensures tr.fade.timer < tr.fade.duration ==> |r.1| == 1 && r.1[0] == tr.(fade := r.1[0].fade)
    decreases if tr.stage == FadingOut then 1 else 0
  {
    if tr.fade.timer < tr.fade.duration then
      var (es1, f1) := FadeStep(es, tr.fade, dt);
      (es1, [tr.(fade := f1)])
    else
      var es1 := FadeEnd(es, tr.fade);
      if tr.stage == FadingOut && tr.newEffect != None then
        var (es2, t2) := BeginFadeIn(es1, tr.newEffect, tr.duration);
        Resume(es2, t2, dt)
      else
        (es1, [])
  }

  /** `SetWeather`'s `StartCoroutine(TransitionWeather(...))` in a frame of delta `dt`: the
      coroutine enters its first stage and runs on to its first suspension. With a positive
      transition time it is left waiting in its first fade; with a transition time of 0 or less
      no fade suspends, so the whole transition completes within the call. */
  function Launch(es: Emitters, oldEffect: WeatherEffect, newEffect: WeatherEffect, d: real, dt: Delta)
    : (r: (Emitters, seq<Transition>))
    requires oldEffect != newEffect
    ensures |r.1| == (if d > 0.0 then 1 else 0)
    ensures r.1 != [] ==> r.1[0].newEffect == newEffect && r.1[0].duration == d
  {
    var (es1, tr) := Spawn(es, oldEffect, newEffect, d);
    assert d <= 0.0 ==> Resume(es1, tr, dt).1 == [] by {
      if d <= 0.0 {
        ResumeNonPositiveFinishes(es1, tr, dt);
      }
    }
    Resume(es1, tr, dt)
  }

  /** A transition whose time is 0 or less runs to its end in one resumption. */
  lemma ResumeNonPositiveFinishes(es: Emitters, tr: Transition, dt: Delta)
    requires tr.fade.duration <= 0.0 && tr.duration <= 0.0
    ensures Resume(es, tr, dt).1 == []
  {
    if tr.stage == FadingOut && tr.newEffect != None {
      var (es2, t2) := BeginFadeIn(FadeEnd(es, tr.fade), tr.newEffect, tr.duration);
      assert Resume(es2, t2, dt).1 == [];
    }
  }

  lemma LaunchValid(es: Emitters, oldEffect: WeatherEffect, newEffect: WeatherEffect, d: real, dt: Delta)
    requires oldEffect != newEffect
    requires AlphasInRange(es)
    ensures AlphasInRange(Launch(es, oldEffect, newEffect, d, dt).0)
    ensures AllValid(Launch(es, oldEffect, newEffect, d, dt).1)
  {
    SpawnValid(es, oldEffect, newEffect, d);
    var (es1, tr) := Spawn(es, oldEffect, newEffect, d);
    ResumeValid(es1, tr, dt);
  }

  /** Resumption keeps every alpha in [0, 1] and keeps the transition well formed. */
  lemma ResumeValid(es: Emitters, tr: Transition, dt: Delta)
    requires ValidTransition(tr)
    requires AlphasInRange(es)
    ensures AlphasInRange(Resume(es, tr, dt).0)
    ensures AllValid(Resume(es, tr, dt).1)
    decreases if tr.stage == FadingOut then 1 else 0
  {
    var f := tr.fade;
    if f.timer < f.duration {
      var (es1, f1) := FadeStep(es, f, dt);
      forall m ensures 0.0 <= es1.Get(m).alpha <= 1.0 {
        if m == f.emitter {
          assert Between(es1.Get(m).alpha, f.startAlpha, f.target);
        }
      }
    } else {
      var es1 := FadeEnd(es, f);
      forall m ensures 0.0 <= es1.Get(m).alpha <= 1.0 {
        assert es1.Get(m).alpha == es.Get(m).alpha;
      }
      if tr.stage == FadingOut && tr.newEffect != None {
        var (es2, t2) := BeginFadeIn(es1, tr.newEffect, tr.duration);
        forall m ensures 0.0 <= es2.Get(m).alpha <= 1.0 {
          assert es2.Get(m).alpha == es1.Get(m).alpha;
        }
        assert t2.fade.startAlpha == es2.Get(t2.fade.emitter).alpha;
        ResumeValid(es2, t2, dt);
      }
    }
  }

  /** Resuming a fade-in whose target is not 0 starts and stops nothing. */
  lemma ResumeFadeInKeepsPlaying(es: Emitters, tr: Transition, dt: Delta)
    requires tr.stage == FadingIn && tr.fade.target != 0.0
    ensures forall m :: Resume(es, tr, dt).0.Get(m).playing == es.Get(m).playing
  {
  }

  /** A system is started by a resumption only when the transition is bringing in that
      system's own effect; in particular a transition towards None never starts one. */
  lemma ResumeStartsOnlyNewEffect(es: Emitters, tr: Transition, dt: Delta, m: Emitter)
    ensures !es.Get(m).playing && Resume(es, tr, dt).0.Get(m).playing ==>
              tr.newEffect != None && tr.newEffect == EffectOf(m)
  {
    if tr.fade.timer >= tr.fade.duration {
      var es1 := FadeEnd(es, tr.fade);
      assert !es.Get(m).playing ==> !es1.Get(m).playing;
      if tr.stage == FadingOut && tr.newEffect != None {
        var (es2, t2) := BeginFadeIn(es1, tr.newEffect, tr.duration);
        ResumeFadeInKeepsPlaying(es2, t2, dt);
      }
    }
  }

  /** A system is stopped by a resumption only when a fade on that very system towards alpha 0
      has finished its loop. */
  lemma ResumeStopsOnlyFinishedFadeOut(es: Emitters, tr: Transition, dt: Delta, m: Emitter)
    ensures es.Get(m).playing && !Resume(es, tr, dt).0.Get(m).playing ==>
              m == tr.fade.emitter && tr.fade.target == 0.0 && tr.fade.timer >= tr.fade.duration
  {
    if tr.fade.timer >= tr.fade.duration {
      var es1 := FadeEnd(es, tr.fade);
      if tr.stage == FadingOut && tr.newEffect != None {
        var (es2, t2) := BeginFadeIn(es1, tr.newEffect, tr.duration);
        assert es2.Get(m).playing == (es1.Get(m).playing || m == t2.fade.emitter);
        ResumeFadeInKeepsPlaying(es2, t2, dt);
      }
    }
  }

  /** Every pending transition resumed once, oldest first, on the systems as the earlier ones
      left them; the result holds the transitions still running, in the same order. */
  function ResumeAll(es: Emitters, trs: seq<Transition>, dt: Delta): (r: (Emitters, seq<Transition>))
    ensures |r.1| <= |trs|
    decreases |trs|
  {
    if trs == [] then (es, [])
    else
      var (es1, kept) := ResumeAll(es, trs[..|trs| - 1], dt);
      var (es2, last) := Resume(es1, trs[|trs| - 1], dt);
      (es2, kept + last)
  }

  lemma ResumeAllOne(es: Emitters, t: Transition, dt: Delta)
    ensures ResumeAll(es, [t], dt) == Resume(es, t, dt)
  {
    assert [t][..0] == [];
    var (es2, last) := Resume(es, t, dt);
    assert [] + last == last;
  }

  lemma ResumeAllTwo(es: Emitters, t1: Transition, t2: Transition, dt: Delta,
                     es1: Emitters, k1: seq<Transition>, es2: Emitters, k2: seq<Transition>)
    requires Resume(es, t1, dt) == (es1, k1)
    requires Resume(es1, t2, dt) == (es2, k2)
    ensures ResumeAll(es, [t1, t2], dt) == (es2, k1 + k2)
  {
    assert [t1, t2][..1] == [t1];
    ResumeAllOne(es, t1, dt);
  }

  lemma ResumeAllBothContinue(es: Emitters, t1: Transition, t2: Transition, dt: Delta,
                              es1: Emitters, u1: Transition, es2: Emitters, u2: Transition)
    requires Resume(es, t1, dt) == (es1, [u1])
    requires Resume(es1, t2, dt) == (es2, [u2])
    ensures ResumeAll(es, [t1, t2], dt) == (es2, [u1, u2])
  {
    ResumeAllTwo(es, t1, t2, dt, es1, [u1], es2, [u2]);
    assert [u1] + [u2] == [u1, u2];
  }

  lemma ResumeAllFirstEnds(es: Emitters, t1: Transition, t2: Transition, dt: Delta, es1: Emitters)
    requires Resume(es, t1, dt) == (es1, [])
    ensures ResumeAll(es, [t1, t2], dt) == Resume(es1, t2, dt)
  {
    var (es2, k2) := Resume(es1, t2, dt);
    ResumeAllTwo(es, t1, t2, dt, es1, [], es2, k2);
    assert [] + k2 == k2;
  }

  /** A frame keeps every alpha in [0, 1] and every pending transition well formed, and never
      adds transitions. */
  lemma {:induction false} ResumeAllValid(es: Emitters, trs: seq<Transition>, dt: Delta)
    requires AllValid(trs)
    requires AlphasInRange(es)
    ensures AlphasInRange(ResumeAll(es, trs, dt).0)
    ensures AllValid(ResumeAll(es, trs, dt).1)
    ensures |ResumeAll(es, trs, dt).1| <= |trs|
    decreases |trs|
  {
    if trs != [] {
      var init := trs[..|trs| - 1];
      assert AllValid(init) by {
        forall i | 0 <= i < |init| ensures ValidTransition(init[i]) {
          assert init[i] == trs[i];
        }
      }
      ResumeAllValid(es, init, dt);
      var (es1, kept) := ResumeAll(es, init, dt);
      ResumeValid(es1, trs[|trs| - 1], dt);
      var (es2, last) := Resume(es1, trs[|trs| - 1], dt);
      assert AllValid(kept + last) by {
        forall i | 0 <= i < |kept + last| ensures ValidTransition((kept + last)[i]) {
          if i < |kept| {
            assert (kept + last)[i] == kept[i];
          } else {
            assert (kept + last)[i] == last[i - |kept|];
          }
        }
      }
    }
  }

  /** With a non-positive transition time no resumption ever writes an alpha: each one only
      ends a fade, stops or starts a system, or enters the next stage, whose fade ends at once. */
  lemma ResumeNonPositiveKeepsAlphas(es: Emitters, tr: Transition, dt: Delta)
    requires ValidTransition(tr)
    requires tr.duration <= 0.0
    ensures forall m :: Resume(es, tr, dt).0.Get(m).alpha == es.Get(m).alpha
  {
    var es1 := FadeEnd(es, tr.fade);
    assert forall m :: es1.Get(m).alpha == es.Get(m).alpha;
    if tr.stage == FadingOut && tr.newEffect != None {
      var (es2, t2) := BeginFadeIn(es1, tr.newEffect, tr.duration);
      assert forall m :: es2.Get(m).alpha == es1.Get(m).alpha;
      assert Resume(es2, t2, dt).0 == FadeEnd(es2, t2.fade);
    }
  }
}

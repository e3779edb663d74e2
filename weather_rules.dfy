/** The pure part of WeatherController: its two enumerations, the season successor, the
    season -> weather table used on every season change, the season-biased random choice and
    the effect -> particle-system lookup. */
module WeatherRules {

  datatype Season = Spring | Summer | Autumn | Winter

  datatype WeatherEffect = None | Rain | Snow | Fog

  /** The three particle systems the controller is configured with. */
  datatype Emitter = RainParticles | SnowParticles | FogParticles

  /** What `GetParticleSystem` returns: a configured emitter, or null. */
  datatype EmitterSlot = NoEmitter | Slot(emitter: Emitter)

  const SeasonCount: nat := 4

  /** The number of `WeatherEffect` values, `Enum.GetValues(typeof(WeatherEffect)).Length`. */
  const EffectCount: nat := 4

  /** The cast `(int)season`. */
  function SeasonOrdinal(s: Season): (n: nat)
    ensures n < SeasonCount
  {
    match s
    case Spring => 0
    case Summer => 1
    case Autumn => 2
    case Winter => 3
  }

  /** The cast `(Season)n` on an in-range integer; it inverts `SeasonOrdinal`. */
  function SeasonFromOrdinal(n: nat): (s: Season)
    requires n < SeasonCount
    ensures SeasonOrdinal(s) == n
  {
    if n == 0 then Spring else if n == 1 then Summer else if n == 2 then Autumn else Winter
  }

  /** The cast `(int)effect`. */
  function EffectOrdinal(e: WeatherEffect): (n: nat)
    ensures n < EffectCount
  {
    match e
    case None => 0
    case Rain => 1
    case Snow => 2
    case Fog => 3
  }

  /** The cast `(WeatherEffect)n` on an in-range integer; it inverts `EffectOrdinal`. */
  function EffectFromOrdinal(n: nat): (e: WeatherEffect)
    requires n < EffectCount
    ensures EffectOrdinal(e) == n
  {
    if n == 0 then None else if n == 1 then Rain else if n == 2 then Snow else Fog
  }

  /** `SwitchToNextSeason`'s successor: `(Season)(((int)currentSeason + 1) % 4)`. */
  function NextSeason(s: Season): (r: Season)
    ensures r != s
    ensures s == Winter <==> r == Spring
    ensures s != Winter ==> SeasonOrdinal(r) == SeasonOrdinal(s) + 1
  {
    SeasonFromOrdinal((SeasonOrdinal(s) + 1) % SeasonCount)
  }

  /** The season after `k` season changes. */
  function Advance(s: Season, k: nat): Season
  {
    if k == 0 then s else NextSeason(Advance(s, k - 1))
  }

  lemma {:induction false} AdvanceOrdinal(s: Season, k: nat)
    ensures SeasonOrdinal(Advance(s, k)) == (SeasonOrdinal(s) + k) % SeasonCount
  {
    if k > 0 {
      AdvanceOrdinal(s, k - 1);
      var o := SeasonOrdinal(s);
      var p := SeasonOrdinal(Advance(s, k - 1));
      assert p == (o + k - 1) % 4;
      assert SeasonOrdinal(Advance(s, k)) == (p + 1) % 4;
      assert (p + 1) % 4 == ((o + k - 1) % 4 + 1) % 4 == (o + k) % 4;
    }
  }

  /** The season cycle returns to its starting season after exactly the multiples of four
      changes: Winter wraps to Spring, and no shorter cycle exists. */
  lemma AdvanceReturns(s: Season, k: nat)
    ensures Advance(s, k) == s <==> k % SeasonCount == 0
  {
    AdvanceOrdinal(s, k);
    var o := SeasonOrdinal(s);
    assert Advance(s, k) == s <==> SeasonOrdinal(Advance(s, k)) == o by {
      if SeasonOrdinal(Advance(s, k)) == o {
        assert Advance(s, k) == SeasonFromOrdinal(o);
      }
    }
    assert (o + k) % 4 == (o + k % 4) % 4;
  }

  /** The request `UpdateSeasonEffects` makes for the season just entered. */
  function SeasonWeather(s: Season): (e: WeatherEffect)
    ensures SeasonRequesting(e) == s
  {
    match s
    case Winter => Snow
    case Summer => Rain
    case Spring => Fog
    case Autumn => None
  }

  /** The season whose change requests effect `e`. */
  function SeasonRequesting(e: WeatherEffect): Season
  {
    match e
    case Snow => Winter
    case Rain => Summer
    case Fog => Spring
    case None => Autumn
  }

  /** The season table is a bijection: each of the four effects, None included, is requested
      on entry to exactly one season. */
  lemma SeasonWeatherBijective(s: Season, e: WeatherEffect)
    ensures SeasonWeather(s) == e <==> SeasonRequesting(e) == s
  {
  }

  /** `GetSeasonAppropriateEffect`. `draw` is the value of `Random.Range(1, EffectCount)`,
      whose integer form excludes its upper bound. */
  function GetSeasonAppropriateEffect(s: Season, draw: int): (e: WeatherEffect)
    requires 1 <= draw < EffectCount
    ensures e != None
    ensures s == Winter ==> e == Snow
    ensures s == Summer ==> e == Rain
    ensures s == Spring || s == Autumn ==> EffectOrdinal(e) == draw
  {
    match s
    case Winter => Snow
    case Summer => Rain
    case _ => EffectFromOrdinal(draw)
  }

  /** In Spring and Autumn every effect but None is a possible outcome of the draw. */
  lemma RandomEffectCovers(s: Season, e: WeatherEffect)
    requires s == Spring || s == Autumn
    requires e != None
    ensures exists draw :: 1 <= draw < EffectCount && GetSeasonAppropriateEffect(s, draw) == e
  {
    var draw := EffectOrdinal(e);
    assert GetSeasonAppropriateEffect(s, draw) == EffectFromOrdinal(draw);
  }

  /** The effect a particle system renders. */
  function EffectOf(m: Emitter): WeatherEffect
  {
    match m
    case RainParticles => Rain
    case SnowParticles => Snow
    case FogParticles => Fog
  }

  /** `GetParticleSystem`: each of Rain, Snow and Fog has its own emitter, None has none. */
  function GetParticleSystem(e: WeatherEffect): (slot: EmitterSlot)
    ensures slot == NoEmitter <==> e == None
    ensures slot.Slot? ==> EffectOf(slot.emitter) == e
  {
    match e
    case Rain => Slot(RainParticles)
    case Snow => Slot(SnowParticles)
    case Fog => Slot(FogParticles)
    case None => NoEmitter
  }
}

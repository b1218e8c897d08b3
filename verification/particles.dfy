/** The weather particle canvas: the particle list and the spawn bookkeeping it keeps across
    animation frames. Switching weather resets the list, rain and snow spawn two particles
    at a time every two seconds up to six, and each frame moves every particle, respawns
    the ones that fell below the canvas and wraps them horizontally. Every `Math.random()`
    a particle uses is a caller-supplied draw; drawing and colours are left out. */
module Particles {
  import opened Options

  const Rain := "rain"
  const Snow := "snow"
  const Sunny := "sunny"

  /** `Math.PI` as a double. */
  const Pi: real := 3.141592653589793

  /** Rain and snow produce particles; `sunny` and an absent weather do not. */
  predicate Precipitating(weather: string)
  {
    weather == Rain || weather == Snow
  }

  /** A particle, without its colour. `kind` is the weather it was created in. */
  datatype Particle = Particle(x: real, y: real, vx: real, vy: real, size: real, rotation: real, kind: string)

  /** The `Math.random()` values one particle uses in one step, in [0, 1). */
  datatype Draws = Draws(x: real, vx: real, vy: real, size: real, rotation: real, jitter: real)

  predicate UnitDraws(d: Draws)
  {
    0.0 <= d.x < 1.0 && 0.0 <= d.vx < 1.0 && 0.0 <= d.vy < 1.0
    && 0.0 <= d.size < 1.0 && 0.0 <= d.rotation < 1.0 && 0.0 <= d.jitter < 1.0
  }

  /** One particle made by `createParticles`, starting just above the canvas. */
  function NewParticle(weather: string, width: real, d: Draws): Particle
  {
    Particle(
      d.x * width,
      -20.0,
      (d.vx - 0.5) * (if weather == Rain then 0.2 else 0.1),
      if weather == Rain then d.vy * 0.01 + 0.008 else d.vy * 0.005 + 0.0025,
      if weather == Rain then d.size * 6.0 + 6.0 else d.size * 8.0 + 6.0,
      if weather == Snow then d.rotation * Pi * 2.0 else 0.0,
      weather)
  }

  /** The particles `createParticles(count)` appends: none in sunny weather, otherwise one
      per iteration, the `i`-th from `draws(i)`. */
  function Created(weather: string, width: real, count: nat, draws: nat -> Draws): seq<Particle>
  {
    if weather == Sunny || count == 0 then []
    else Created(weather, width, count - 1, draws) + [NewParticle(weather, width, draws(count - 1))]
  }

  /** What `createParticles` promises: `count` particles (none when sunny), each of the
      current weather's kind, starting at y = -20 inside the canvas width, with a size of
      6 to 12 px for rain and 6 to 14 px otherwise, and no rotation for rain. */
  lemma {:induction false} CreatedParticles(weather: string, width: real, count: nat, draws: nat -> Draws)
    requires width >= 0.0 && forall i :: UnitDraws(draws(i))
    ensures var ps := Created(weather, width, count, draws);
      |ps| == (if weather == Sunny then 0 else count)
      && forall p :: p in ps ==>
           p.kind == weather && p.y == -20.0 && 0.0 <= p.x <= width
           && 6.0 <= p.size && p.size < (if weather == Rain then 12.0 else 14.0)
           && (weather == Rain ==> p.rotation == 0.0)
  {
    if weather != Sunny && count > 0 {
      CreatedParticles(weather, width, count - 1, draws);
      var d := draws(count - 1);
      ScaledDrawInRange(d.x, width);
      var prev := Created(weather, width, count - 1, draws);
      var q := NewParticle(weather, width, d);
      assert Created(weather, width, count, draws) == prev + [q];
      forall p | p in prev + [q]
        ensures p.kind == weather && p.y == -20.0 && 0.0 <= p.x <= width
        ensures 6.0 <= p.size && p.size < (if weather == Rain then 12.0 else 14.0)
        ensures weather == Rain ==> p.rotation == 0.0
      {
        if p != q {
          assert p in prev;
        }
      }
    }
  }

  lemma ScaledDrawInRange(u: real, width: real)
    requires 0.0 <= u < 1.0 && width >= 0.0
    ensures 0.0 <= u * width <= width
  {
    assert width - u * width == (1.0 - u) * width;
  }

  /** The canvas's bookkeeping: the effect's weather, the particle list, the last spawn
      time (`None` when it was set from the argument-less first frame), the spawning flag
      and the canvas size. */
  datatype Field = Field(
    weather: string,
    particles: seq<Particle>,
    snowfallStart: Option<real>,
    isSnowing: bool,
    width: real,
    height: real)

  /** The weather effect: rain and snow empty the list, reset the spawn clock to 0 and start
      spawning; sunny empties the list and stops spawning; an absent weather changes
      nothing. */
  function WeatherChanged(f: Field, weather: string): Field
  {
    if Precipitating(weather) then f.(weather := weather, particles := [], snowfallStart := Some(0.0), isSnowing := true)
    else if weather == Sunny then f.(weather := weather, particles := [], isSnowing := false)
    else f.(weather := weather)
  }

  /** More than 2000 ms since the last spawn; a comparison with an undefined time is false. */
  predicate SpawnDue(start: Option<real>, time: Option<real>)
  {
    start.Some? && time.Some? && time.value - start.value > 2000.0
  }

  /** The spawn block of one frame at `time` (`None` for the first, argument-less call). */
  function Spawn(f: Field, time: Option<real>, draws: nat -> Draws): Field
  {
    if Precipitating(f.weather) then
      var g := if !f.isSnowing then f.(isSnowing := true, snowfallStart := time) else f;
      if SpawnDue(g.snowfallStart, time) && |g.particles| < 6 then
        g.(particles := g.particles + Created(g.weather, g.width, 2, draws), snowfallStart := time)
      else g
    else if f.isSnowing then f.(isSnowing := false, particles := [])
    else f
  }

  /** One particle's move in one frame: gravity and drift, then a respawn above the canvas
      once it has fallen more than 20 px below it, then the horizontal wrap; a particle
      that is not rain turns by 0.01 rad as it is drawn. */
  function Moved(p: Particle, width: real, height: real, d: Draws): Particle
  {
    var vy := p.vy + 0.02;
    var vx := p.vx + (d.jitter - 0.5) * 0.01;
    var q := p.(x := p.x + vx, y := p.y + vy, vx := vx, vy := vy);
    var r := if q.y > height + 20.0 then q.(x := d.x * width, y := -20.0, vx := (d.vx - 0.5) * 0.5, vy := d.vy * 1.0 + 0.5) else q;
    var x := if r.x < -20.0 then width + 20.0 else r.x;
    r.(x := if x > width + 20.0 then -20.0 else x,
       rotation := if p.kind == Rain then p.rotation else p.rotation + 0.01)
  }

  /** After its move a particle is within 20 px of the canvas horizontally and no more than
      20 px below it; its size and kind are untouched, a raindrop keeps its rotation and
      any other particle turns by 0.01 rad. */
  lemma MovedInBounds(p: Particle, width: real, height: real, d: Draws)
    requires width >= 0.0 && height >= 0.0
    ensures var m := Moved(p, width, height, d);
      -20.0 <= m.x <= width + 20.0 && m.y <= height + 20.0
      && m.size == p.size && m.kind == p.kind
      && m.rotation == (if p.kind == Rain then p.rotation else p.rotation + 0.01)
  {
  }

  /** `k` frames turn a snowflake by `k` hundredths of a radian, and a raindrop not at all,
      wherever the particle goes. */
  lemma {:induction false} RotationAfterFrames(p: Particle, width: real, height: real, draws: nat -> Draws, k: nat)
    ensures MovedTimes(p, width, height, draws, k).rotation
      == (if p.kind == Rain then p.rotation else p.rotation + 0.01 * k as real)
    ensures MovedTimes(p, width, height, draws, k).kind == p.kind
  {
    if k > 0 {
      RotationAfterFrames(p, width, height, draws, k - 1);
    }
  }

  /** One particle moved in `k` successive frames, frame `i` using `draws(i)`. */
  function MovedTimes(p: Particle, width: real, height: real, draws: nat -> Draws, k: nat): Particle
  {
    if k == 0 then p else Moved(MovedTimes(p, width, height, draws, k - 1), width, height, draws(k - 1))
  }

  /** A particle that fell out of the canvas starts again 20 px above it. */
  lemma MovedRespawns(p: Particle, width: real, height: real, d: Draws)
    requires p.y + p.vy + 0.02 > height + 20.0
    ensures Moved(p, width, height, d).y == -20.0
  {
  }

  function MoveAll(ps: seq<Particle>, width: real, height: real, draws: nat -> Draws): (r: seq<Particle>)
    ensures |r| == |ps|
  {
    seq(|ps|, i requires 0 <= i < |ps| => Moved(ps[i], width, height, draws(i)))
  }

  /** One animation frame: the spawn block, then every particle moves. */
  function Frame(f: Field, time: Option<real>, spawnDraws: nat -> Draws, moveDraws: nat -> Draws): Field
  {
    var g := Spawn(f, time, spawnDraws);
    g.(particles := MoveAll(g.particles, g.width, g.height, moveDraws))
  }

  /** What every reachable field satisfies: the count is even and at most six, in rain or
      snow every particle is of that weather, and sunny weather has no particles and no
      spawning. */
  predicate Inv(f: Field)
  {
    f.width >= 0.0 && f.height >= 0.0
    && |f.particles| % 2 == 0 && |f.particles| <= 6
    && (Precipitating(f.weather) ==> forall p :: p in f.particles ==> p.kind == f.weather)
    && (f.weather == Sunny ==> f.particles == [] && !f.isSnowing)
  }

  lemma WeatherChangeKeepsInv(f: Field, weather: string)
    requires Inv(f)
    ensures Inv(WeatherChanged(f, weather))
  {
  }

  /** The spawn block adds two particles of the current weather when due and below six,
      and otherwise never adds; so the count stays even and at most six. */
  lemma SpawnKeepsInv(f: Field, time: Option<real>, draws: nat -> Draws)
    requires Inv(f) && forall i :: UnitDraws(draws(i))
    ensures Inv(Spawn(f, time, draws))
    ensures |Spawn(f, time, draws).particles| == |f.particles| + 2
      || Spawn(f, time, draws).particles == f.particles
      || Spawn(f, time, draws).particles == []
  {
    CreatedParticles(f.weather, f.width, 2, draws);
  }

  /** Every frame keeps the invariant and leaves every particle inside the wrap bounds and
      at most 20 px below the canvas; moving never adds or removes a particle. */
  lemma FrameKeepsInv(f: Field, time: Option<real>, spawnDraws: nat -> Draws, moveDraws: nat -> Draws)
    requires Inv(f) && forall i :: UnitDraws(spawnDraws(i))
    ensures var g := Frame(f, time, spawnDraws, moveDraws);
      Inv(g) && |g.particles| == |Spawn(f, time, spawnDraws).particles|
      && forall p :: p in g.particles ==> -20.0 <= p.x <= f.width + 20.0 && p.y <= f.height + 20.0
  {
    SpawnKeepsInv(f, time, spawnDraws);
    var s := Spawn(f, time, spawnDraws);
    var g := Frame(f, time, spawnDraws, moveDraws);
    forall k | 0 <= k < |g.particles|
      ensures -20.0 <= g.particles[k].x <= f.width + 20.0 && g.particles[k].y <= f.height + 20.0
      ensures g.particles[k].kind == s.particles[k].kind
    {
      MovedInBounds(s.particles[k], s.width, s.height, moveDraws(k));
    }
    if Precipitating(g.weather) {
      forall p | p in g.particles
        ensures p.kind == g.weather
      {
        var k :| 0 <= k < |g.particles| && g.particles[k] == p;
        assert s.particles[k] in s.particles;
      }
    }
  }

  /** From the weather change to rain, the first frame more than 2000 ms in spawns two rain
      particles and restarts the clock at that frame. */
  lemma FirstSpawnAfterTwoSeconds(f: Field, t: real, draws: nat -> Draws)
    requires t > 2000.0 && f.width >= 0.0 && forall i :: UnitDraws(draws(i))
    ensures var g := Spawn(WeatherChanged(f, Rain), Some(t), draws);
      |g.particles| == 2 && g.snowfallStart == Some(t) && g.isSnowing
      && forall p :: p in g.particles ==> p.kind == Rain && p.y == -20.0
  {
    var w := WeatherChanged(f, Rain);
    CreatedParticles(Rain, w.width, 2, draws);
    assert w.particles + Created(Rain, w.width, 2, draws) == Created(Rain, w.width, 2, draws);
  }

  /** A frame less than 2000 ms after the last spawn adds nothing. */
  lemma NoSpawnBeforeTwoSeconds(f: Field, t: real, draws: nat -> Draws)
    requires f.isSnowing && f.snowfallStart.Some? && t - f.snowfallStart.value <= 2000.0
    ensures Spawn(f, Some(t), draws).particles == (if Precipitating(f.weather) then f.particles else [])
  {
  }

  /** The canvas component's refs and size. */
  class ParticleBackground {
    var weather: string
    var particles: seq<Particle>
    var snowfallStartTime: Option<real>
    var isSnowing: bool
    var width: real
    var height: real

    function State(): Field
      reads this
    {
      Field(weather, particles, snowfallStartTime, isSnowing, width, height)
    }

    ghost predicate Valid()
      reads this
    {
      Inv(State())
    }

    /** Mounting: the refs start empty, then the weather effect runs once. */
    constructor (weather: string, width: real, height: real)
      requires width >= 0.0 && height >= 0.0
      ensures Valid() && State() == WeatherChanged(Field(weather, [], Some(0.0), false, width, height), weather)
    {
      this.weather := weather;
      particles := [];
      snowfallStartTime := Some(0.0);
      isSnowing := false;
      this.width := width;
      this.height := height;
      new;
      OnWeatherChange(weather);
    }

    /** `resizeCanvas` */
    method Resize(w: real, h: real)
      requires Valid() && w >= 0.0 && h >= 0.0
      modifies this
      ensures Valid() && State() == old(State()).(width := w, height := h)
    {
      width, height := w, h;
    }

    /** The weather effect. */
    method OnWeatherChange(w: string)
      requires Inv(State())
      modifies this
      ensures Valid() && State() == WeatherChanged(old(State()), w)
    {
      WeatherChangeKeepsInv(State(), w);
      if w == Rain || w == Snow {
        particles := [];
        snowfallStartTime := Some(0.0);
        isSnowing := true;
      } else if w == Sunny {
        particles := [];
        isSnowing := false;
      }
      weather := w;
    }

    /** `createParticles(count)`: appends one particle per iteration. */
    method CreateParticles(count: nat, draws: nat -> Draws)
      modifies this
      ensures State() == old(State()).(particles := old(particles) + Created(weather, width, count, draws))
    {
      if weather == Sunny {
        return;
      }
      var i := 0;
      while i < count
        invariant 0 <= i <= count
        invariant State() == old(State()).(particles := old(particles) + Created(weather, width, i, draws))
      {
        particles := particles + [NewParticle(weather, width, draws(i))];
        i := i + 1;
      }
    }

    /** One call of `animate`: the spawn block, then the per-particle update in place. */
    method AnimateFrame(time: Option<real>, spawnDraws: nat -> Draws, moveDraws: nat -> Draws)
      requires Valid() && forall i :: UnitDraws(spawnDraws(i))
      modifies this
      ensures Valid() && State() == Frame(old(State()), time, spawnDraws, moveDraws)
    {
      FrameKeepsInv(State(), time, spawnDraws, moveDraws);
      SpawnBlock(time, spawnDraws);
      MoveParticles(moveDraws);
    }

    /** The spawn block of `animate`. */
    method SpawnBlock(time: Option<real>, draws: nat -> Draws)
      modifies this
      ensures State() == Spawn(old(State()), time, draws)
    {
      if weather == Rain || weather == Snow {
        if !isSnowing {
          isSnowing := true;
          snowfallStartTime := time;
        }
        if SpawnDue(snowfallStartTime, time) && |particles| < 6 {
          CreateParticles(2, draws);
          snowfallStartTime := time;
        }
      } else if isSnowing {
        isSnowing := false;
        particles := [];
      }
    }

    /** The `forEach` of `animate`: each particle is moved in place, in list order. */
    method MoveParticles(draws: nat -> Draws)
      modifies this
      ensures State() == old(State()).(particles := MoveAll(old(particles), width, height, draws))
    {
      ghost var before := particles;
      var i := 0;
      while i < |particles|
        invariant 0 <= i <= |particles| == |before|
        invariant forall k :: 0 <= k < i ==> particles[k] == Moved(before[k], width, height, draws(k))
        invariant forall k :: i <= k < |particles| ==> particles[k] == before[k]
        invariant State() == old(State()).(particles := particles)
      {
        particles := particles[i := Moved(particles[i], width, height, draws(i))];
        i := i + 1;
      }
    }
  }
}

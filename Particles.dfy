/** The 2D particle pool: a fixed-capacity array whose first `numParticles`
    slots hold the live particles. `Emit` appends fresh particles at the
    emitter, `Update` advances every live particle one step and compacts the
    dead ones away by moving the last live particle into their slot. */
module Particles {
  import opened Common

  /** One particle. `time` is the remaining lifetime, `lifeTime` the total. */
  datatype Particle = Particle(
    position: Vec2, velocity: Vec2, color: Color,
    lifeTime: real, time: real, radius: real)

  /** The particle `Particle::Update(gravity, dt)` leaves behind: the position
      moves by the old velocity, then gravity accelerates the vertical
      velocity, and the remaining time shrinks by `dt`. */
  function Advanced(p: Particle, gravity: real, dt: real): (q: Particle)
    ensures q.time == p.time - dt
    ensures q.velocity.x == p.velocity.x
    ensures q.color == p.color && q.radius == p.radius && q.lifeTime == p.lifeTime
  {
    p.(position := Vec2(p.position.x + p.velocity.x * dt, p.position.y + p.velocity.y * dt),
       velocity := Vec2(p.velocity.x, p.velocity.y + gravity * dt),
       time := p.time - dt)
  }

  /** The value `Particle::Update` returns: whether the particle is still
      alive after the step. */
  predicate SurvivesStep(p: Particle, gravity: real, dt: real)
    ensures SurvivesStep(p, gravity, dt) <==> dt < p.time
  {
    Advanced(p, gravity, dt).time > 0.0
  }

  /** `n` consecutive updates with the same gravity and step. */
  function AdvancedN(p: Particle, gravity: real, dt: real, n: nat): Particle
  {
    if n == 0 then p else Advanced(AdvancedN(p, gravity, dt, n - 1), gravity, dt)
  }

  /** Closed form of repeated updates: time falls linearly, the horizontal
      velocity is constant, the vertical velocity grows linearly with gravity,
      and colour, radius and total lifetime never change. */
  lemma {:induction false} AdvancedNClosedForm(p: Particle, gravity: real, dt: real, n: nat)
    ensures AdvancedN(p, gravity, dt, n).time == p.time - (n as real) * dt
    ensures AdvancedN(p, gravity, dt, n).velocity
         == Vec2(p.velocity.x, p.velocity.y + (n as real) * (gravity * dt))
    ensures AdvancedN(p, gravity, dt, n).position.x == p.position.x + (n as real) * (p.velocity.x * dt)
    ensures AdvancedN(p, gravity, dt, n).color == p.color
    ensures AdvancedN(p, gravity, dt, n).radius == p.radius
    ensures AdvancedN(p, gravity, dt, n).lifeTime == p.lifeTime
  {
    if n > 0 {
      AdvancedNClosedForm(p, gravity, dt, n - 1);
      var k := (n - 1) as real;
      assert k * dt + dt == (n as real) * dt;
      assert k * (gravity * dt) + gravity * dt == (n as real) * (gravity * dt);
      assert k * (p.velocity.x * dt) + p.velocity.x * dt == (n as real) * (p.velocity.x * dt);
    }
  }

  /** A particle emitted with remaining time `t` and stepped by a positive
      `dt` is still alive after its `n`-th update exactly when `n * dt < t`. */
  lemma AliveAfterSteps(p: Particle, gravity: real, dt: real, n: nat)
    requires n > 0
    ensures SurvivesStep(AdvancedN(p, gravity, dt, n - 1), gravity, dt) <==> (n as real) * dt < p.time
  {
    AdvancedNClosedForm(p, gravity, dt, n);
  }

  /** The live particles after one `Update`, in the order a front-to-back
      filter would keep them: each particle advanced once, the dead ones
      dropped. */
  function Survivors(s: seq<Particle>, gravity: real, dt: real): seq<Particle>
  {
    if s == [] then []
    else
      (if SurvivesStep(s[0], gravity, dt) then [Advanced(s[0], gravity, dt)] else [])
      + Survivors(s[1..], gravity, dt)
  }

  /** A particle is left after `Update` exactly when it is the one-step
      advance of a live particle that survived that step. */
  lemma {:induction false} SurvivorsMembers(s: seq<Particle>, gravity: real, dt: real, q: Particle)
    ensures q in Survivors(s, gravity, dt)
        <==> exists i :: 0 <= i < |s| && SurvivesStep(s[i], gravity, dt) && Advanced(s[i], gravity, dt) == q
  {
    if s != [] {
      SurvivorsMembers(s[1..], gravity, dt, q);
      if q in Survivors(s[1..], gravity, dt) {
        var j :| 0 <= j < |s[1..]| && SurvivesStep(s[1..][j], gravity, dt) && Advanced(s[1..][j], gravity, dt) == q;
        assert s[j + 1] == s[1..][j];
      }
      if exists i :: 0 <= i < |s| && SurvivesStep(s[i], gravity, dt) && Advanced(s[i], gravity, dt) == q {
        var i :| 0 <= i < |s| && SurvivesStep(s[i], gravity, dt) && Advanced(s[i], gravity, dt) == q;
        if i > 0 {
          assert s[1..][i - 1] == s[i];
        }
      }
    }
  }

  /** No dead particle is left after `Update`, and none is created. */
  lemma {:induction false} SurvivorsBounds(s: seq<Particle>, gravity: real, dt: real)
    ensures |Survivors(s, gravity, dt)| <= |s|
    ensures forall q :: q in Survivors(s, gravity, dt) ==> q.time > 0.0
  {
    if s != [] {
      SurvivorsBounds(s[1..], gravity, dt);
    }
  }

  /** A particle freshly emitted with the emitter's settings. */
  function Spawned(position: Vec2, color: Color, lifeTime: real, d: Draw): (p: Particle)
    ensures p.time == p.lifeTime == lifeTime
    ensures p.position == position && p.color == color
    ensures p.velocity == d.velocity && p.radius == d.radius
  {
    Particle(position, d.velocity, color, lifeTime, lifeTime, d.radius)
  }

  /** One draw from the emitter's random distributions. */
  datatype Draw = Draw(velocity: Vec2, radius: real)

  /** A velocity and radius inside the ranges of the emitter's uniform
      distributions (closed, since rounding to `float` can reach the upper
      end). */
  predicate WithinRanges(velocity: Vec2, radius: real, minVel: Vec2, maxVel: Vec2, minRadius: real, maxRadius: real)
  {
    && minVel.x <= velocity.x <= maxVel.x
    && minVel.y <= velocity.y <= maxVel.y
    && minRadius <= radius <= maxRadius
  }

  /** How many particles `Emit(num)` appends to a pool holding `n` of
      `capacity`: the loop counter is a `uint8_t`, so for `num > 255` the test
      `i < num` never fails and the pool fills up. */
  function EmittedAsWritten(num: nat, n: nat, capacity: nat): nat
    requires n <= capacity
  {
    if num < Two8 && num < capacity - n then num else capacity - n
  }

  /** How many particles emitting `num` is meant to append: `num`, limited
      by the free capacity. */
  function Emitted(num: nat, n: nat, capacity: nat): (k: nat)
    requires n <= capacity
    ensures k <= num && n + k <= capacity
    ensures k == num || n + k == capacity
  {
    if num < capacity - n then num else capacity - n
  }

  /** For counts a `uint8_t` can hold the source agrees with the intent. */
  lemma EmittedAgreesBelow256(num: nat, n: nat, capacity: nat)
    requires n <= capacity && num < Two8
    ensures EmittedAsWritten(num, n, capacity) == Emitted(num, n, capacity)
  {
  }

  /** `Emit(300)` on an empty pool of 1000 appends 1000 particles, not 300. */
  lemma EmitWrapCounterexample()
    ensures EmittedAsWritten(300, 0, 1000) == 1000
    ensures Emitted(300, 0, 1000) == 300
  {
  }

  /** The emitter settings and the pool's capacity, for frame conditions. */
  datatype EmitterSettings = EmitterSettings(
    position: Vec2, minVel: Vec2, maxVel: Vec2, minRadius: real, maxRadius: real,
    lifeTime: real, gravity: real, color: Color)

  const White := Color(255, 255, 255, 255)

  class ParticleSystem {
    var position: Vec2
    var minVel: Vec2
    var maxVel: Vec2
    var minRadius: real
    var maxRadius: real
    var lifeTime: real
    var gravity: real
    var color: Color
    /** `null` in a default-constructed or moved-from system. */
    var particles: array?<Particle>
    var numParticles: nat
    var maxParticles: nat

    /** The live count never exceeds the capacity, and the array has exactly
        the capacity (no array means capacity 0); both counts are `uint32_t`. */
    ghost predicate Valid()
      reads this
    {
      numParticles <= maxParticles < Two32
      && (particles == null ==> maxParticles == 0)
      && (particles != null ==> particles.Length == maxParticles)
    }

    /** The live particles, `particles[0 .. numParticles)`. */
    ghost function Live(): seq<Particle>
      reads this, particles
    {
      if particles == null || numParticles > particles.Length then []
      else particles[..numParticles]
    }

    function Settings(): EmitterSettings
      reads this
    {
      EmitterSettings(position, minVel, maxVel, minRadius, maxRadius, lifeTime, gravity, color)
    }

    /** `ParticleSystem()`: no array, no capacity, no particles. The emitter
        fields are left uninitialised by the source; here they are zero. */
    constructor Default()
      ensures Valid() && particles == null && numParticles == 0 && maxParticles == 0
      ensures Live() == []
    {
      position, minVel, maxVel := Vec2(0.0, 0.0), Vec2(0.0, 0.0), Vec2(0.0, 0.0);
      minRadius, maxRadius, lifeTime, gravity := 0.0, 0.0, 0.0, 0.0;
      color := Color(0, 0, 0, 0);
      particles := null;
      numParticles, maxParticles := 0, 0;
    }

    /** `ParticleSystem(maxParticles)`: an empty pool of that capacity with the
        default emitter (velocities in [-10, 10], radius in [1, 2], lifetime 1,
        gravity 9.81, white). */
    constructor (maxParticles: nat)
      requires maxParticles < Two32
      ensures Valid() && fresh(particles) && particles != null
      ensures this.maxParticles == maxParticles && numParticles == 0 && Live() == []
      ensures Settings() == EmitterSettings(Vec2(0.0, 0.0), Vec2(-10.0, -10.0), Vec2(10.0, 10.0),
                                            1.0, 2.0, 1.0, 9.81, White)
    {
      position := Vec2(0.0, 0.0);
      minVel, maxVel := Vec2(-10.0, -10.0), Vec2(10.0, 10.0);
      minRadius, maxRadius := 1.0, 2.0;
      lifeTime, gravity := 1.0, 9.81;
      color := White;
      this.maxParticles := maxParticles;
      particles := new Particle[maxParticles](_ => Particle(Vec2(0.0, 0.0), Vec2(0.0, 0.0), Color(0, 0, 0, 0), 0.0, 0.0, 0.0));
      numParticles := 0;
    }

    /** The move constructor: takes the array and counts, and leaves `other`
        with no array, capacity 0 and count 0. */
    constructor Moved(other: ParticleSystem)
      requires other.Valid()
      modifies other
      ensures Valid() && other.Valid()
      ensures Settings() == old(other.Settings())
      ensures particles == old(other.particles)
      ensures numParticles == old(other.numParticles) && maxParticles == old(other.maxParticles)
      ensures other.particles == null && other.numParticles == 0 && other.maxParticles == 0
      ensures other.Settings() == old(other.Settings())
    {
      position, minVel, maxVel := other.position, other.minVel, other.maxVel;
      minRadius, maxRadius := other.minRadius, other.maxRadius;
      lifeTime, gravity, color := other.lifeTime, other.gravity, other.color;
      particles := other.particles;
      maxParticles := other.maxParticles;
      numParticles := other.numParticles;
      new;
      other.particles := null;
      other.maxParticles := 0;
      other.numParticles := 0;
    }

    /** Move assignment: a self-move changes nothing; otherwise as the move
        constructor. */
    method MoveAssign(other: ParticleSystem)
      requires Valid() && other.Valid()
      modifies this, other
      ensures Valid() && other.Valid()
      ensures other == this ==> unchanged(this)
      ensures other != this ==>
        Settings() == old(other.Settings()) && particles == old(other.particles)
        && numParticles == old(other.numParticles) && maxParticles == old(other.maxParticles)
        && other.particles == null && other.numParticles == 0 && other.maxParticles == 0
        && other.Settings() == old(other.Settings())
    {
      if this != other {
        position, minVel, maxVel := other.position, other.minVel, other.maxVel;
        minRadius, maxRadius := other.minRadius, other.maxRadius;
        lifeTime, gravity, color := other.lifeTime, other.gravity, other.color;
        particles := other.particles;
        maxParticles := other.maxParticles;
        numParticles := other.numParticles;
        other.particles := null;
        other.maxParticles := 0;
        other.numParticles := 0;
      }
    }

    method SetPosition(position: Vec2)
      modifies this
      ensures Settings() == old(Settings()).(position := position)
      ensures particles == old(particles) && numParticles == old(numParticles) && maxParticles == old(maxParticles)
    {
      this.position := position;
    }

    method SetLifeTime(lifeTime: real)
      modifies this
      ensures Settings() == old(Settings()).(lifeTime := lifeTime)
      ensures particles == old(particles) && numParticles == old(numParticles) && maxParticles == old(maxParticles)
    {
      this.lifeTime := lifeTime;
    }

    method SetGravity(gravity: real)
      modifies this
      ensures Settings() == old(Settings()).(gravity := gravity)
      ensures particles == old(particles) && numParticles == old(numParticles) && maxParticles == old(maxParticles)
    {
      this.gravity := gravity;
    }

    method SetColor(color: Color)
      modifies this
      ensures Settings() == old(Settings()).(color := color)
      ensures particles == old(particles) && numParticles == old(numParticles) && maxParticles == old(maxParticles)
    {
      this.color := color;
    }

    /** `SetRadius(min, max)`: stores the radius bounds the next emissions
        draw from. */
    method SetRadius(minRadius: real, maxRadius: real)
      modifies this
      ensures Settings() == old(Settings()).(minRadius := minRadius, maxRadius := maxRadius)
      ensures particles == old(particles) && numParticles == old(numParticles) && maxParticles == old(maxParticles)
    {
      this.minRadius, this.maxRadius := minRadius, maxRadius;
    }

    /** `SetVelocity(min, max)`: stores the velocity bounds the next emissions
        draw from. */
    method SetVelocity(minVel: Vec2, maxVel: Vec2)
      modifies this
      ensures Settings() == old(Settings()).(minVel := minVel, maxVel := maxVel)
      ensures particles == old(particles) && numParticles == old(numParticles) && maxParticles == old(maxParticles)
    {
      this.minVel, this.maxVel := minVel, maxVel;
    }

    /** `Clear()`: forgets every live particle; the array and its capacity
        stay. */
    method Clear()
      requires Valid()
      modifies this
      ensures Valid() && numParticles == 0 && Live() == []
      ensures particles == old(particles) && maxParticles == old(maxParticles)
      ensures Settings() == old(Settings())
    {
      numParticles := 0;
    }

    /** `Emit(num)` as written: appends particles drawn from `draw` (the k-th
        emitted particle takes the k-th draw) while the `uint8_t` counter is
        below `num` and the pool has room. */
    method Emit(num: nat, draw: nat -> Draw)
      requires Valid() && num < Two32
      requires forall k :: WithinRanges(draw(k).velocity, draw(k).radius, minVel, maxVel, minRadius, maxRadius)
      modifies this, particles
      ensures Valid() && particles == old(particles) && maxParticles == old(maxParticles)
      ensures Settings() == old(Settings())
      ensures numParticles == old(numParticles) + EmittedAsWritten(num, old(numParticles), maxParticles)
      ensures Live()[..old(numParticles)] == old(Live())
      ensures forall k :: old(numParticles) <= k < numParticles ==>
        Live()[k] == Spawned(position, color, lifeTime, draw(k - old(numParticles)))
      ensures forall k :: old(numParticles) <= k < numParticles ==>
        WithinRanges(Live()[k].velocity, Live()[k].radius, minVel, maxVel, minRadius, maxRadius)
    {
      var n0 := numParticles;
      var i := 0;
      while i < num && numParticles < maxParticles
        invariant Valid() && Settings() == old(Settings())
        invariant particles == old(particles) && maxParticles == old(maxParticles)
        invariant n0 <= numParticles && 0 <= i < Two8
        invariant num < Two8 ==> i == numParticles - n0 <= num
        invariant particles != null ==> particles[..n0] == old(particles[..n0])
        invariant particles != null ==> forall k :: n0 <= k < numParticles ==>
          particles[k] == Spawned(position, color, lifeTime, draw(k - n0))
        decreases maxParticles - numParticles
      {
        particles[numParticles] := Spawned(position, color, lifeTime, draw(numParticles - n0));
        numParticles := numParticles + 1;
        i := ToUint8(i + 1);
      }
    }

    /** Emitting as intended: exactly `min(num, free capacity)` particles. */
    method EmitBounded(num: nat, draw: nat -> Draw)
      requires Valid() && num < Two32
      requires forall k :: WithinRanges(draw(k).velocity, draw(k).radius, minVel, maxVel, minRadius, maxRadius)
      modifies this, particles
      ensures Valid() && particles == old(particles) && maxParticles == old(maxParticles)
      ensures Settings() == old(Settings())
      ensures numParticles == old(numParticles) + Emitted(num, old(numParticles), maxParticles)
      ensures Live()[..old(numParticles)] == old(Live())
      ensures forall k :: old(numParticles) <= k < numParticles ==>
        Live()[k] == Spawned(position, color, lifeTime, draw(k - old(numParticles)))
      ensures forall k :: old(numParticles) <= k < numParticles ==>
        WithinRanges(Live()[k].velocity, Live()[k].radius, minVel, maxVel, minRadius, maxRadius)
    {
      var n0 := numParticles;
      var i := 0;
      while i < num && numParticles < maxParticles
        invariant Valid() && Settings() == old(Settings())
        invariant particles == old(particles) && maxParticles == old(maxParticles)
        invariant i == numParticles - n0 <= num
        invariant particles != null ==> particles[..n0] == old(particles[..n0])
        invariant particles != null ==> forall k :: n0 <= k < numParticles ==>
          particles[k] == Spawned(position, color, lifeTime, draw(k - n0))
        decreases maxParticles - numParticles
      {
        particles[numParticles] := Spawned(position, color, lifeTime, draw(numParticles - n0));
        numParticles := numParticles + 1;
        i := i + 1;
      }
    }

    /** `Update(dt)`: advances every live particle once and removes those whose
        time ran out, moving the last live particle into the freed slot. The
        backward walk means the particle moved in was already advanced, so the
        pool ends up holding exactly the survivors, each advanced once. */
    method Update(dt: real)
      requires Valid()
      modifies this, particles
      ensures Valid() && particles == old(particles) && maxParticles == old(maxParticles)
      ensures Settings() == old(Settings())
      ensures multiset(Live()) == multiset(Survivors(old(Live()), gravity, dt))
      ensures numParticles == |Survivors(old(Live()), gravity, dt)|
    {
      if particles == null {
        return;
      }
      numParticles := UpdateLive(particles, numParticles, gravity, dt);
    }
  }

  /** The loop of `ParticleSystem::Update` over the live prefix `a[..n]`:
      walks it backwards, advancing each particle, and overwrites each dead
      one with the last live particle. Returns the new live count. */
  method UpdateLive(a: array<Particle>, n0: nat, gravity: real, dt: real) returns (n: nat)
    requires n0 <= a.Length
    modifies a
    ensures n <= n0
    ensures multiset(a[..n]) == multiset(Survivors(old(a[..n0]), gravity, dt))
  {
    ghost var live := a[..n0];
    n := n0;
    var i := n;
    while i > 0
      invariant 0 <= i <= n <= n0
      invariant forall k :: 0 <= k < i ==> a[k] == live[k]
      invariant multiset(a[i..n]) == multiset(Survivors(live[i..], gravity, dt))
    {
      i := i - 1;
      ghost var s := a[..];
      SurvivorsCons(live, i, gravity, dt);
      var p := Advanced(a[i], gravity, dt);
      assert p == Advanced(live[i], gravity, dt);
      assert SurvivesStep(live[i], gravity, dt) <==> p.time > 0.0;
      a[i] := p;
      if !(p.time > 0.0) {
        n := n - 1;
        a[i] := a[n];
        DeadStep(s, i, n + 1, p);
      } else {
        AliveStep(s, i, n, p);
      }
    }
    assert live[0..] == live;
    assert a[0..n] == a[..n];
  }

  /** One step of the walk from the front of what is left to visit. */
  lemma SurvivorsCons(live: seq<Particle>, i: nat, gravity: real, dt: real)
    requires i < |live|
    ensures Survivors(live[i..], gravity, dt)
         == (if SurvivesStep(live[i], gravity, dt) then [Advanced(live[i], gravity, dt)] else [])
            + Survivors(live[i + 1..], gravity, dt)
  {
    assert live[i..][1..] == live[i + 1..];
  }

  /** A surviving particle written back into its own slot joins the visited
      block behind it. */
  lemma AliveStep(s: seq<Particle>, i: nat, n: nat, p: Particle)
    requires i < n <= |s|
    ensures multiset(s[i := p][i..n]) == multiset{p} + multiset(s[i + 1..n])
  {
    assert s[i := p][i..n] == [p] + s[i + 1..n];
  }

  /** A dead particle's slot taken by the last live one: the visited block
      loses one slot and keeps the same particles. */
  lemma DeadStep(s: seq<Particle>, i: nat, n: nat, p: Particle)
    requires i < n <= |s|
    ensures multiset(s[i := p][i := s[i := p][n - 1]][i..n - 1]) == multiset(s[i + 1..n])
  {
    var t := s[i := p];
    if i < n - 1 {
      assert t[i := t[n - 1]][i..n - 1] == [s[n - 1]] + s[i + 1..n - 1];
      assert s[i + 1..n] == s[i + 1..n - 1] + [s[n - 1]];
    }
  }
}

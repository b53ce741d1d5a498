/** The 3D light manager's bookkeeping: how many lights fit, which of them
    cast shadows, and where each shadow caster's depth tile sits inside the
    square shadow atlas. Shaders, the depth framebuffer and drawing are left
    out. */
module Lights {
  import opened Common

  // ---------------------------------------------------------------------
  // `nearestUpperSquare`: the bit-smearing round-up on `uint32`
  // ---------------------------------------------------------------------

  /** `x |= x >> 1; … x |= x >> 16`: every bit below the highest set one. */
  function Smear(x: bv32): bv32
  {
    var a := x | (x >> 1);
    var b := a | (a >> 2);
    var c := b | (b >> 4);
    var d := c | (c >> 8);
    d | (d >> 16)
  }

  /** The lambda in `AddShadowLight`: decrement, smear, increment, all on
      `uint32` (so 0 wraps to `0xFFFFFFFF` and back to 0). */
  /** For `1 <= x <= 2^31` the result is the least power of two that is at
      least `x`: a single bit, not below `x`, and its half below `x`.
      Outside that range the `uint32` arithmetic wraps to 0. */
  function NearestUpperSquare(x: bv32): (r: bv32)
    ensures 1 <= x <= 0x8000_0000 ==> r != 0 && r & (r - 1) == 0 && x <= r && r >> 1 < x
    ensures x == 0 || x > 0x8000_0000 ==> r == 0
  {
    Smear(x - 1) + 1
  }

  /** `p` is a power of two. */
  predicate IsPow2(p: nat)
  {
    p == 1 || (p > 1 && p % 2 == 0 && IsPow2(p / 2))
  }

  /** The same round-up on integers: the least power of two at least `n`
      (1 for `n <= 1`). The atlas layout below uses this one. */
  function NextPow2(n: nat): (p: nat)
    ensures IsPow2(p) && p >= 1 && p >= n
    ensures n <= 1 ==> p == 1
    ensures n > 1 ==> p / 2 < n && p % 2 == 0
  {
    if n <= 1 then 1
    else
      var h := NextPow2((n + 1) / 2);
      assert IsPow2(2 * h) by {
        assert (2 * h) / 2 == h;
      }
      2 * h
  }

  // ---------------------------------------------------------------------
  // Light
  // ---------------------------------------------------------------------

  datatype Vec3 = Vec3(x: real, y: real, z: real)

  /** The casting camera: where the light is, what it looks at, its
      vertical field of view. */
  datatype Camera = Camera(position: Vec3, target: Vec3, up: Vec3, fovy: real, projection: int)

  /** Everything a light's public setters change. */
  datatype LightSettings = LightSettings(caster: Camera, radius: real, color: Color, enabled: bool)

  class Light {
    /** Whether the light was given the shadow map (a non-null pointer). */
    const shadowed: bool
    /** Its index among the manager's lights (`lightNum`). */
    const index: nat
    /** The part of the shadow atlas the light renders its depth into. */
    var boundsMap: Rect
    var caster: Camera
    var radius: real
    var color: Color
    var enabled: bool

    function Settings(): LightSettings
      reads this
    {
      LightSettings(caster, radius, color, enabled)
    }

    /** `Light(shader, shadowMap, lightNum, caster, radius, color)`: stores
        the caster, radius and colour and switches the light on. */
    constructor (shadowed: bool, index: nat, caster: Camera, radius: real, color: Color)
      ensures this.shadowed == shadowed && this.index == index
      ensures Settings() == LightSettings(caster, radius, color, true)
      ensures boundsMap == Rect(0.0, 0.0, 0.0, 0.0)
    {
      this.shadowed := shadowed;
      this.index := index;
      this.caster := caster;
      this.radius := radius;
      this.color := color;
      this.enabled := true;
      this.boundsMap := Rect(0.0, 0.0, 0.0, 0.0);
    }

    /** `SetShadowMapBounds(bounds)`: divides by the shadow map's size, so
        the light must have one. */
    method SetShadowMapBounds(bounds: Rect)
      requires shadowed
      modifies this
      ensures boundsMap == bounds && Settings() == old(Settings())
    {
      boundsMap := bounds;
    }

    function GetPosition(): (p: Vec3)
      reads this
      ensures p == caster.position
    {
      caster.position
    }

    function GetTarget(): (p: Vec3)
      reads this
      ensures p == caster.target
    {
      caster.target
    }

    function GetFovY(): (f: real)
      reads this
      ensures f == caster.fovy
    {
      caster.fovy
    }

    function GetRadius(): (r: real)
      reads this
      ensures r == radius
    {
      radius
    }

    function GetColor(): (c: Color)
      reads this
      ensures c == color
    {
      color
    }

    function IsActive(): (b: bool)
      reads this
      ensures b == enabled
    {
      enabled
    }

    method SetPosition(position: Vec3, updateMatrix: bool)
      modifies this
      ensures GetPosition() == position
      ensures Settings() == old(Settings()).(caster := old(caster).(position := position))
      ensures boundsMap == old(boundsMap)
    {
      caster := caster.(position := position);
    }

    method SetTarget(target: Vec3, updateMatrix: bool)
      modifies this
      ensures GetTarget() == target
      ensures Settings() == old(Settings()).(caster := old(caster).(target := target))
      ensures boundsMap == old(boundsMap)
    {
      caster := caster.(target := target);
    }

    method SetFovY(fovy: real, updateMatrix: bool)
      modifies this
      ensures GetFovY() == fovy
      ensures Settings() == old(Settings()).(caster := old(caster).(fovy := fovy))
      ensures boundsMap == old(boundsMap)
    {
      caster := caster.(fovy := fovy);
    }

    method SetRadius(radius: real)
      modifies this
      ensures GetRadius() == radius
      ensures Settings() == old(Settings()).(radius := radius)
      ensures boundsMap == old(boundsMap)
    {
      this.radius := radius;
    }

    method SetColor(color: Color)
      modifies this
      ensures GetColor() == color
      ensures Settings() == old(Settings()).(color := color)
      ensures boundsMap == old(boundsMap)
    {
      this.color := color;
    }

    method SetActive(active: bool)
      modifies this
      ensures IsActive() == active
      ensures Settings() == old(Settings()).(enabled := active)
      ensures boundsMap == old(boundsMap)
    {
      enabled := active;
    }

    /** `SetCaster(caster)`: the whole camera, then its position, target and
        field of view again through their setters. */
    method SetCaster(caster: Camera)
      modifies this
      ensures GetPosition() == caster.position && GetTarget() == caster.target && GetFovY() == caster.fovy
      ensures Settings() == old(Settings()).(caster := caster)
      ensures boundsMap == old(boundsMap)
    {
      this.caster := caster;
      SetPosition(caster.position, false);
      SetTarget(caster.target, false);
      SetFovY(caster.fovy, false);
    }
  }

  // ---------------------------------------------------------------------
  // Shadow atlas layout
  // ---------------------------------------------------------------------

  /** One step of the layout cursor: right by one tile, and back to the left
      edge one row down once it reaches the atlas width. */
  function Advance(c: Vec2, side: real, width: real): (d: Vec2)
    ensures c.x + side < width ==> d == Vec2(c.x + side, c.y)
    ensures c.x + side >= width ==> d == Vec2(0.0, c.y + side)
  {
    if c.x + side >= width then Vec2(0.0, c.y + side) else Vec2(c.x + side, c.y)
  }

  /** Where the `i`-th light's tile starts. */
  function Cursor(i: nat, side: real, width: real): Vec2
  {
    if i == 0 then Vec2(0.0, 0.0) else Advance(Cursor(i - 1, side, width), side, width)
  }

  /** The `i`-th light's tile. */
  function Tile(i: nat, side: real, width: real): (r: Rect)
    ensures r.width == side && r.height == side
  {
    var c := Cursor(i, side, width);
    Rect(c.x, c.y, side, side)
  }

  /** `k` tiles of side `side` laid end to end. */
  function Times(k: nat, side: real): real
  {
    if k == 0 then 0.0 else Times(k - 1, side) + side
  }

  /** ... which is `k * side`. */
  lemma {:induction false} TimesIsProduct(k: nat, side: real)
    ensures Times(k, side) == k as real * side
  {
    if k > 0 {
      TimesIsProduct(k - 1, side);
      assert (k - 1) as real * side + side == k as real * side;
    }
  }

  /** Tile `i` ends no later than tile `j > i` starts. */
  lemma {:induction false} TimesLess(i: nat, j: nat, side: real)
    requires i < j && side > 0.0
    ensures Times(i, side) + side <= Times(j, side)
  {
    if i + 1 < j {
      TimesLess(i, j - 1, side);
    }
  }

  /** With `count` tiles per row (the side is `width / count`), the first
      `count` tiles all sit in the top row, left to right. */
  lemma {:induction false} CursorTopRow(i: nat, count: nat, side: real, width: real)
    requires side > 0.0 && Times(count, side) == width && i < count
    ensures Cursor(i, side, width) == Vec2(Times(i, side), 0.0)
  {
    if i > 0 {
      CursorTopRow(i - 1, count, side, width);
      TimesLess(i, count, side);
    }
  }

  /** The side `width / p` fits `p` tiles in a row exactly. */
  lemma SideFits(p: nat, width: real)
    requires width > 0.0 && p >= 1
    ensures width / p as real > 0.0
    ensures Times(p, width / p as real) == width
  {
    TimesIsProduct(p, width / p as real);
  }

  /** With `p` tiles to a row, tile `i < p` lies in the top row and inside
      the atlas. */
  lemma TileInRow(i: nat, p: nat, width: real)
    requires width > 0.0 && i < p
    ensures var side := width / p as real;
      && side > 0.0
      && Tile(i, side, width) == Rect(Times(i, side), 0.0, side, side)
      && Times(i, side) + side <= width
  {
    var side := width / p as real;
    SideFits(p, width);
    CursorTopRow(i, p, side, width);
    TimesLess(i, p, side);
  }

  /** Where the `i`-th of `n` tiles lies when the side is
      `width / NextPow2(n)`: in the top row, and inside the atlas. */
  lemma TileInTopRow(i: nat, n: nat, width: real)
    requires width > 0.0 && i < n
    ensures var side := width / NextPow2(n) as real;
      && side > 0.0
      && Tile(i, side, width) == Rect(Times(i, side), 0.0, side, side)
      && Times(i, side) + side <= width
  {
    TileInRow(i, NextPow2(n), width);
  }

  /** The atlas as `AddShadowLight` leaves it with `n` shadow casters: the
      side is `width / NextPow2(n)`, and since `n <= NextPow2(n)` every tile
      lies in the top row, inside the atlas, and no two overlap. Rows below
      the first are never used. */
  lemma {:induction false} AtlasLayout(i: nat, j: nat, n: nat, width: real)
    requires width > 0.0 && i < j < n
    ensures var side := width / NextPow2(n) as real;
      && Tile(i, side, width).y == Tile(j, side, width).y == 0.0
      && Tile(i, side, width).x + side <= Tile(j, side, width).x
      && Tile(j, side, width).x + side <= width
  {
    var side := width / NextPow2(n) as real;
    TileInTopRow(i, n, width);
    TileInTopRow(j, n, width);
    TimesLess(i, j, side);
  }

  // ---------------------------------------------------------------------
  // Lights
  // ---------------------------------------------------------------------

  /** How many of the lights cast shadows. */
  function ShadowCount(s: seq<Light>): (n: nat)
    ensures n <= |s|
    ensures (forall i :: 0 <= i < |s| ==> s[i].shadowed) ==> n == |s|
  {
    if s == [] then 0
    else ShadowCount(s[..|s| - 1]) + if s[|s| - 1].shadowed then 1 else 0
  }

  /** The float constructor's ambient colour: the intensity scaled to a
      byte in the three colour channels, alpha 0. The cast to `uint8_t`
      truncates toward zero, and is defined only for values in (-1, 256). */
  function AmbientFromIntensity(a: real): (c: Color)
    requires -1.0 < a * 255.0 < 256.0
    ensures c.r == c.g == c.b && c.a == 0
    ensures a * 255.0 >= 0.0 ==> c.r as real <= a * 255.0 < c.r as real + 1.0
    ensures a * 255.0 < 0.0 ==> c.r == 0
  {
    var v := if a * 255.0 < 0.0 then 0 else (a * 255.0).Floor;
    Color(v, v, v, 0)
  }

  class Lights {
    var ambient: Color
    /** The side of the square shadow atlas; `maxLights * mapSize`. */
    var bufferSize: nat
    var mapSize: Uint16
    var maxLights: Uint16
    /** Whether the atlas exists (a non-null `shadowMap`). */
    var hasShadowMap: bool
    var sources: seq<Light>
    var shadowNum: nat

    ghost predicate Valid()
      reads this
    {
      && |sources| <= maxLights
      && bufferSize == maxLights * mapSize
      && (hasShadowMap <==> bufferSize > 0)
      && shadowNum == ShadowCount(sources)
      && (forall i :: 0 <= i < |sources| ==> sources[i].index == i)
      && (forall i :: 0 <= i < |sources| ==> sources[i].shadowed ==> hasShadowMap)
      && (forall i, j :: 0 <= i < j < |sources| ==> sources[i] != sources[j])
    }

    /** `Lights(ambient, maxLights, mapSize, …)`: the atlas side is the
        product of the light count and the per-light map size (computed in
        `int`, so the product must stay below 2^31), and the atlas exists
        exactly when that side is positive. */
    constructor (ambient: Color, maxLights: Uint16, mapSize: Uint16)
      requires maxLights * mapSize < 0x8000_0000
      ensures Valid()
      ensures this.ambient == ambient && this.maxLights == maxLights && this.mapSize == mapSize
      ensures bufferSize == maxLights * mapSize
      ensures hasShadowMap <==> maxLights > 0 && mapSize > 0
      ensures sources == [] && shadowNum == 0
    {
      this.ambient := ambient;
      this.maxLights := maxLights;
      this.mapSize := mapSize;
      bufferSize := maxLights * mapSize;
      hasShadowMap := maxLights * mapSize > 0;
      sources := [];
      shadowNum := 0;
    }

    /** `Lights(float ambient, maxLights, mapSize, …)`: the same, with the
        ambient colour built from an intensity. */
    constructor FromIntensity(ambient: real, maxLights: Uint16, mapSize: Uint16)
      requires -1.0 < ambient * 255.0 < 256.0
      requires maxLights * mapSize < 0x8000_0000
      ensures Valid()
      ensures this.ambient == AmbientFromIntensity(ambient)
      ensures this.maxLights == maxLights && this.mapSize == mapSize
      ensures bufferSize == maxLights * mapSize
      ensures hasShadowMap <==> maxLights > 0 && mapSize > 0
      ensures sources == [] && shadowNum == 0
    {
      this.ambient := AmbientFromIntensity(ambient);
      this.maxLights := maxLights;
      this.mapSize := mapSize;
      bufferSize := maxLights * mapSize;
      hasShadowMap := maxLights * mapSize > 0;
      sources := [];
      shadowNum := 0;
    }

    /** `AddLight(caster, radius, color)`: a light without shadows when there
        is room, with the next index; null and no change when full. */
    method AddLight(caster: Camera, radius: real, color: Color) returns (light: Light?)
      requires Valid()
      modifies this
      ensures Valid()
      ensures bufferSize == old(bufferSize) && hasShadowMap == old(hasShadowMap)
      ensures maxLights == old(maxLights) && mapSize == old(mapSize) && ambient == old(ambient)
      ensures shadowNum == old(shadowNum)
      ensures |old(sources)| >= maxLights ==> light == null && sources == old(sources)
      ensures |old(sources)| < maxLights ==>
        && light != null && fresh(light)
        && sources == old(sources) + [light]
        && !light.shadowed && light.index == |old(sources)|
        && light.Settings() == LightSettings(caster, radius, color, true)
    {
      if |sources| < maxLights {
        light := new Light(false, |sources|, caster, radius, color);
        assert sources + [light] == sources[..|sources|] + [light];
        sources := sources + [light];
        assert sources[..|sources| - 1] == old(sources);
      } else {
        light := null;
      }
    }

    /** `AddShadowLight(caster, radius, color)`. Without an atlas it is
        `AddLight`. Otherwise, when there is room, it adds a shadow casting
        light, counts it, and lays every light's tile out again with side
        `bufferSize / NextPow2(shadowNum)`, left to right; when full it
        returns null and changes nothing. Laying out dereferences each
        light's shadow map, so then every light present must cast shadows. */
    method AddShadowLight(caster: Camera, radius: real, color: Color) returns (light: Light?)
      requires Valid()
      requires hasShadowMap && |sources| < maxLights ==> forall i :: 0 <= i < |sources| ==> sources[i].shadowed
      modifies this, sources
      ensures Valid()
      ensures bufferSize == old(bufferSize) && hasShadowMap == old(hasShadowMap)
      ensures maxLights == old(maxLights) && mapSize == old(mapSize) && ambient == old(ambient)
      ensures forall i :: 0 <= i < |old(sources)| ==> old(sources)[i].Settings() == old(sources[i].Settings())
      ensures !(hasShadowMap && |old(sources)| < maxLights) ==>
        forall i :: 0 <= i < |old(sources)| ==> old(sources)[i].boundsMap == old(sources[i].boundsMap)
      ensures !hasShadowMap ==> shadowNum == old(shadowNum)
      ensures !hasShadowMap && |old(sources)| < maxLights ==>
        && light != null && fresh(light)
        && sources == old(sources) + [light]
        && !light.shadowed && light.index == |old(sources)|
        && light.Settings() == LightSettings(caster, radius, color, true)
      ensures |old(sources)| >= maxLights ==> light == null && sources == old(sources) && shadowNum == old(shadowNum)
      ensures hasShadowMap && |old(sources)| < maxLights ==>
        && light != null && fresh(light)
        && sources == old(sources) + [light]
        && light.shadowed && light.index == |old(sources)|
        && light.Settings() == LightSettings(caster, radius, color, true)
        && shadowNum == old(shadowNum) + 1 == |sources|
        && (forall i :: 0 <= i < |sources| ==>
              sources[i].boundsMap == Tile(i, bufferSize as real / NextPow2(shadowNum) as real, bufferSize as real))
    {
      if !hasShadowMap {
        light := AddLight(caster, radius, color);
        return;
      }
      if |sources| >= maxLights {
        return null;
      }
      light := new Light(true, |sources|, caster, radius, color);
      ghost var before := sources;
      sources := sources + [light];
      assert sources[..|sources| - 1] == before;
      shadowNum := shadowNum + 1;
      LayOut(bufferSize as real / NextPow2(shadowNum) as real);
    }

    /** The layout loop of `AddShadowLight`: gives every light, in order, the
        tile under the cursor and advances the cursor. Only the lights'
        bounds change. */
    method LayOut(side: real)
      requires Valid() && forall i :: 0 <= i < |sources| ==> sources[i].shadowed
      modifies sources
      ensures forall j :: 0 <= j < |sources| ==> sources[j].boundsMap == Tile(j, side, bufferSize as real)
      ensures forall j :: 0 <= j < |sources| ==> sources[j].Settings() == old(sources[j].Settings())
    {
      var bounds := Rect(0.0, 0.0, side, side);
      var i := 0;
      while i < |sources|
        invariant 0 <= i <= |sources|
        invariant bounds == Tile(i, side, bufferSize as real)
        invariant forall j :: 0 <= j < i ==> sources[j].boundsMap == Tile(j, side, bufferSize as real)
        invariant forall j :: 0 <= j < |sources| ==> sources[j].Settings() == old(sources[j].Settings())
      {
        sources[i].SetShadowMapBounds(bounds);
        var c := Advance(Vec2(bounds.x, bounds.y), side, bufferSize as real);
        bounds := Rect(c.x, c.y, side, side);
        i := i + 1;
      }
    }

    /** The atlas tile of the `i`-th light after a run of `AddShadowLight`
        with an atlas: in the top row, inside the atlas. */
    function TileOf(i: nat): (r: Rect)
      requires Valid() && hasShadowMap && i < shadowNum
      reads this
      ensures var side := bufferSize as real / NextPow2(shadowNum) as real;
        && r == Rect(Times(i, side), 0.0, side, side)
        && r.x + side <= bufferSize as real
    {
      TileInTopRow(i, shadowNum, bufferSize as real);
      Tile(i, bufferSize as real / NextPow2(shadowNum) as real, bufferSize as real)
    }
  }
}

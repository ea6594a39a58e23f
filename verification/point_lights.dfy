/** PointLight.h: a light at a position, with a colour and an intensity, whose light
    falls off with the square of the distance. */
module PointLights {
  import opened Numerics
  import opened Colors
  import Vectors

  datatype PointLight = PointLight(position: Vectors.Vector3, colour: ColorRGB, intensity: real)

  /** The area 4 pi d^2 of the sphere of radius d around the light; pow(d, 2) is d * d. */
  function SphereArea(d: real): real
  {
    PI * 4.0 * (d * d)
  }

  /** Away from the light the area is positive, so dividing by it is defined. */
  lemma AreaPositive(d: real)
    requires d != 0.0
    ensures SphereArea(d) > 0.0
  {
    assert d > 0.0 || d < 0.0;
    calc {
      SphereArea(d);
    ==
      PI * 4.0 * (d * d);
    > { SquarePositive(d); }
      0.0;
    }
  }

  /** The light's colour scaled by its intensity spread over the sphere of radius d:
      multiplying a channel back by the area gives colour times intensity. */
  function IlluminationAt(light: PointLight, d: real): (c: ColorRGB)
    requires d != 0.0
    ensures c.R() * SphereArea(d) == light.colour.R() * light.intensity
    ensures c.G() * SphereArea(d) == light.colour.G() * light.intensity
    ensures c.B() * SphereArea(d) == light.colour.B() * light.intensity
  {
    AreaPositive(d);
    var k := light.intensity / SphereArea(d);
    ScaledBack(k, SphereArea(d), light.intensity, light.colour.R());
    ScaledBack(k, SphereArea(d), light.intensity, light.colour.G());
    ScaledBack(k, SphereArea(d), light.intensity, light.colour.B());
    light.colour.Scale(k)
  }

  lemma ScaledBack(k: real, area: real, intensity: real, channel: real)
    requires area > 0.0 && k == intensity / area
    ensures (k * channel) * area == channel * intensity
  {
    assert k * area == intensity;
    calc {
      (k * channel) * area;
    ==
      (k * area) * channel;
    ==
      channel * intensity;
    }
  }

  /** A light of zero intensity contributes black at every distance. */
  lemma ZeroIntensityIsDark(light: PointLight, d: real)
    requires d != 0.0 && light.intensity == 0.0
    ensures IlluminationAt(light, d) == Gray(0.0)
  {
    var c := IlluminationAt(light, d);
    AreaPositive(d);
    ZeroProduct(c.R(), SphereArea(d));
    ZeroProduct(c.G(), SphereArea(d));
    ZeroProduct(c.B(), SphereArea(d));
  }

  lemma ZeroProduct(x: real, area: real)
    requires area > 0.0 && x * area == 0.0
    ensures x == 0.0
  {
  }

  /** The inverse-square law: twice as far, a quarter of the light. */
  lemma InverseSquare(light: PointLight, d: real)
    requires d != 0.0
    ensures IlluminationAt(light, 2.0 * d) == IlluminationAt(light, d).Scale(0.25)
  {
    AreaPositive(d);
    AreaPositive(2.0 * d);
    var k1 := light.intensity / SphereArea(d);
    var k2 := light.intensity / SphereArea(2.0 * d);
    assert SphereArea(2.0 * d) == 4.0 * SphereArea(d);
    assert k2 == 0.25 * k1;
  }
}

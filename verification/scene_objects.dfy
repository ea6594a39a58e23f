/** SceneObject.h: the material shared by every primitive. The record itself is a value
    (the scene stores copies of its objects); the class models the setters that update
    an object's fields in place. */
module SceneObjects {
  import opened Colors

  /** Diffuse colour, Phong coefficients, reflectivity, and the transmittance and
      refractive index that are carried but never used by tracing. */
  datatype Material = Material(colour: ColorRGB, kD: real, kS: real, alpha: real,
                               reflectivity: real, transmittance: ColorRGB,
                               refractiveIndex: real)
  {
    /** An object is transmissive when its transmittance colour is not black. */
    function IsTransmissive(): (b: bool)
      ensures b <==> transmittance.R() != 0.0 || transmittance.G() != 0.0 || transmittance.B() != 0.0
    {
      !transmittance.IsZero()
    }
  }

  /** The field values set by the default constructor. */
  const DefaultMaterial: Material := Material(Gray(1.0), 0.0, 0.0, 0.0, 0.0, Gray(0.0), 1.5)

  /** The defaults: white, no Phong response, not reflective, opaque, index 1.5. */
  lemma DefaultMaterialValues()
    ensures DefaultMaterial.colour == Rgb(1.0, 1.0, 1.0)
    ensures DefaultMaterial.kD == 0.0 && DefaultMaterial.kS == 0.0 && DefaultMaterial.alpha == 0.0
    ensures DefaultMaterial.reflectivity == 0.0
    ensures !DefaultMaterial.IsTransmissive()
    ensures DefaultMaterial.refractiveIndex == 1.5
  {
  }

  class SceneObject {
    var colour: ColorRGB
    var kD: real
    var kS: real
    var alpha: real
    var reflectivity: real
    var transmittance: ColorRGB
    var refractiveIndex: real

    /** The record of the current field values; the getters read its fields. */
    function Value(): Material
      reads this
    {
      Material(colour, kD, kS, alpha, reflectivity, transmittance, refractiveIndex)
    }

    constructor ()
      ensures Value() == DefaultMaterial
    {
      colour := Gray(1.0);
      kD, kS, alpha := 0.0, 0.0, 0.0;
      reflectivity := 0.0;
      transmittance := Gray(0.0);
      refractiveIndex := 1.5;
    }

    method SetColour(c: ColorRGB)
      modifies this
      ensures Value() == old(Value()).(colour := c)
    {
      colour := c;
    }

    method SetReflectivity(r: real)
      modifies this
      ensures Value() == old(Value()).(reflectivity := r)
    {
      reflectivity := r;
    }
  }
}

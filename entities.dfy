/** The graph entities the factory creates.  Each is a class, so that the
    source's pointer identity is Dafny's reference equality.  Only the
    identifier and the opaque type/level-of-detail tags are modelled; the
    geometry, tessellation and attribute internals of the entities are not.
    The fields are `const`: the factory never changes an entity after
    creating it. */
module Entities {

  /** `unsigned int` of the source (the level of detail of a geometry). */
  newtype uint32 = x: int | 0 <= x < 0x1_0000_0000

  /** `CityObject::CityObjectsType`, kept as an opaque enumerator code. */
  type CityObjectsType = int

  /** `Geometry::GeometryType`, kept as an opaque enumerator code. */
  type GeometryType = int

  class CityModel {
    const id: string

    constructor (id: string)
      ensures this.id == id
    {
      this.id := id;
    }
  }

  class CityObject {
    const id: string
    const objectType: CityObjectsType

    constructor (id: string, objectType: CityObjectsType)
      ensures this.id == id && this.objectType == objectType
    {
      this.id := id;
      this.objectType := objectType;
    }
  }

  class Geometry {
    const id: string
    const geometryType: GeometryType
    const lod: uint32

    constructor (id: string, geometryType: GeometryType, lod: uint32)
      ensures this.id == id && this.geometryType == geometryType && this.lod == lod
    {
      this.id := id;
      this.geometryType := geometryType;
      this.lod := lod;
    }
  }

  class Polygon {
    const id: string

    constructor (id: string)
      ensures this.id == id
    {
      this.id := id;
    }
  }

  class ImplicitGeometry {
    const id: string

    constructor (id: string)
      ensures this.id == id
    {
      this.id := id;
    }
  }

  class Texture {
    const id: string

    constructor (id: string)
      ensures this.id == id
    {
      this.id := id;
    }
  }

  class Material {
    const id: string

    constructor (id: string)
      ensures this.id == id
    {
      this.id := id;
    }
  }

  class GeoreferencedTexture {
    const id: string

    constructor (id: string)
      ensures this.id == id
    {
      this.id := id;
    }
  }

  /** Binds the id of the surface it should attach to (`targetID`) to a
      material; it carries its own identifier as well. */
  class MaterialTargetDefinition {
    const targetID: string
    const appearance: Material
    const id: string

    constructor (targetID: string, appearance: Material, id: string)
      ensures this.targetID == targetID && this.appearance == appearance && this.id == id
    {
      this.targetID := targetID;
      this.appearance := appearance;
      this.id := id;
    }
  }

  /** As MaterialTargetDefinition, for a texture. */
  class TextureTargetDefinition {
    const targetID: string
    const appearance: Texture
    const id: string

    constructor (targetID: string, appearance: Texture, id: string)
      ensures this.targetID == targetID && this.appearance == appearance && this.id == id
    {
      this.targetID := targetID;
      this.appearance := appearance;
      this.id := id;
    }
  }

  /** An `AppearanceTarget*` as the factory hands it over: a geometry or a
      polygon (the two kinds the factory registers). */
  datatype AppearanceTarget =
    | GeometryTarget(geometry: Geometry)
    | PolygonTarget(polygon: Polygon)

  /** A `shared_ptr<Appearance>`: one of the three appearance kinds. */
  datatype Appearance =
    | TextureAppearance(texture: Texture)
    | MaterialAppearance(material: Material)
    | GeoreferencedTextureAppearance(georeferencedTexture: GeoreferencedTexture)
}

/**
 * The factory that turns the manufacturer and product codes a Z-Wave node
 * reports into the product that understands its values: one factory per
 * manufacturer, and a registry that dispatches on the manufacturer code.
 */
module ZWaveFactory {
  import opened Wrappers
  import opened ZWaveProducts

  /** The manufacturer factories of the gateway. */
  datatype Manufacturer = Aeotec | DLink | Fibaro | Philio | Popp

  /** The manufacturer code each factory is meant to be registered under. */
  function ManufacturerCode(f: Manufacturer): nat
  {
    match f
    case Aeotec => 0x0086
    case DLink => 0x0108
    case Fibaro => 0x010f
    case Philio => 0x013c
    case Popp => 0x0154
  }

  /** The one product code each factory knows. */
  function ProductCode(f: Manufacturer): nat
  {
    match f
    case Aeotec => 0x0064
    case DLink => 0x000d
    case Fibaro => 0x1000
    case Philio => 0x000e
    case Popp => 0x0001
  }

  function Made(f: Manufacturer): Product
  {
    match f
    case Aeotec => AeotecZW100
    case DLink => DLinkDchZ120
    case Fibaro => FibaroFGK107
    case Philio => PhilioPST021C
    case Popp => Popp123601
  }

  /**
   * create of one manufacturer's factory: its product for its product code,
   * NotFoundException for any other; the manufacturer code is not looked at.
   */
  function ManufacturerCreate(f: Manufacturer, product: nat): (r: Result<Product, Exception>)
    ensures r.Ok? <==> product == ProductCode(f)
    ensures r.Err? ==> r.error == NotFound
  {
    if product == ProductCode(f) then Ok(Made(f)) else Err(NotFound)
  }

  /** Each factory makes its own product and no two factories make the same one. */
  lemma MadeInjective(f: Manufacturer, g: Manufacturer)
    ensures Made(f) == Made(g) <==> f == g
    ensures ManufacturerCreate(f, ProductCode(f)) == Ok(Made(f))
  {
  }

  /**
   * GenericZWaveMessageFactory::create over a registry: the factory
   * registered under the manufacturer code decides; a code nobody
   * registered throws a plain Poco::Exception.
   */
  function RegistryCreate(registry: map<nat, Manufacturer>, manufacturer: nat, product: nat): Result<Product, Exception>
  {
    if manufacturer in registry then ManufacturerCreate(registry[manufacturer], product) else Err(General)
  }

  /** The registry with every manufacturer under its own code. */
  function StandardRegistry(): map<nat, Manufacturer>
  {
    map[ManufacturerCode(Aeotec) := Aeotec, ManufacturerCode(DLink) := DLink,
        ManufacturerCode(Fibaro) := Fibaro, ManufacturerCode(Philio) := Philio,
        ManufacturerCode(Popp) := Popp]
  }

  /** With the standard registry, exactly the five known code pairs make a product, each its own. */
  lemma StandardRegistryCreates(manufacturer: nat, product: nat)
    ensures RegistryCreate(StandardRegistry(), manufacturer, product).Ok? <==>
      exists f :: manufacturer == ManufacturerCode(f) && product == ProductCode(f)
    ensures forall f :: RegistryCreate(StandardRegistry(), ManufacturerCode(f), ProductCode(f)) == Ok(Made(f))
  {
    var r := StandardRegistry();
    if manufacturer in r {
      var f := r[manufacturer];
      assert manufacturer == ManufacturerCode(f);
    }
  }

  /** GenericZWaveMessageFactory: the registry of manufacturer factories. */
  class GenericFactory {
    var manufacturers: map<nat, Manufacturer>

    constructor()
      ensures manufacturers == map[]
    {
      manufacturers := map[];
    }

    /**
     * registerManufacturer: a null factory throws NullPointerException; a
     * code already registered keeps its first factory (std::map::insert).
     */
    method RegisterManufacturer(code: nat, factory: Option<Manufacturer>) returns (error: Option<Exception>)
      modifies this
      ensures factory.None? ==> error == Some(NullPointer) && manufacturers == old(manufacturers)
      ensures factory.Some? && code in old(manufacturers) ==> error == None && manufacturers == old(manufacturers)
      ensures factory.Some? && code !in old(manufacturers) ==>
        error == None && manufacturers == old(manufacturers)[code := factory.value]
    {
      if factory.None? {
        return Some(NullPointer);
      }
      error := None;
      if code !in manufacturers {
        manufacturers := manufacturers[code := factory.value];
      }
    }

    /** create: the product for the codes, or the exception create throws. */
    method Create(manufacturer: nat, product: nat) returns (r: Result<Product, Exception>)
      ensures r == RegistryCreate(manufacturers, manufacturer, product)
    {
      if manufacturer in manufacturers {
        r := ManufacturerCreate(manufacturers[manufacturer], product);
      } else {
        r := Err(General);
      }
    }
  }

  /** Registering the five factories under their own codes builds the standard registry. */
  method RegisterAll() returns (factory: GenericFactory)
    ensures fresh(factory) && factory.manufacturers == StandardRegistry()
  {
    factory := new GenericFactory();
    var e := factory.RegisterManufacturer(ManufacturerCode(Aeotec), Some(Aeotec));
    e := factory.RegisterManufacturer(ManufacturerCode(DLink), Some(DLink));
    e := factory.RegisterManufacturer(ManufacturerCode(Fibaro), Some(Fibaro));
    e := factory.RegisterManufacturer(ManufacturerCode(Philio), Some(Philio));
    e := factory.RegisterManufacturer(ManufacturerCode(Popp), Some(Popp));
  }
}

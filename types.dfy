/** The records the storefront and the back office share: images, properties
    and the filter criteria, with the default criteria of the listing page. */
module Types {
  import opened JsValues

  /** One image slot of a listing. */
  datatype Image = Image(id: string, url_imagen: string, alt_text: Option<string>, es_principal: bool)

  /** One real-estate listing. Enumerated fields hold the strings the
      application stores (`venta`, `publicado`, ...); optional fields are
      `Option`; the dynamically indexed `tiene_*` amenity booleans live in
      `flags`; `fecha_publicacion` is a timestamp in milliseconds. */
  datatype Property = Property(
    id: string,
    titulo: string,
    descripcion: string,
    ciudad: string,
    barrio_sector: string,
    direccion_completa: Option<string>,
    departamento: Option<string>,
    tipo_operacion: string,
    tipo_propiedad: string,
    precio: int,
    valor_administracion: Option<int>,
    es_negociable: bool,
    area_construida: Option<int>,
    habitaciones: Option<int>,
    banos_completos: Option<int>,
    parqueaderos: Option<int>,
    estrato: Option<int>,
    estado_inmueble: Option<string>,
    estado_amoblado: Option<string>,
    tipo_cocina: Option<string>,
    tipo_vigilancia: Option<string>,
    flags: map<string, bool>,
    imagenes: seq<Image>,
    es_destacado: bool,
    estado_publicacion: string,
    fecha_publicacion: int)

  const Publicado := "publicado"
  const Borrador := "borrador"
  const Pausado := "pausado"

  /** `p[name]` is truthy for an amenity name. */
  predicate HasFlag(p: Property, name: string) {
    name in p.flags && p.flags[name]
  }

  /** The filter criteria: the union of the fields the listing, the filter
      bar and the filter dialog read or write. Fields that the default
      criteria leave undefined are `Option`. */
  datatype Filters = Filters(
    searchTerm: string,
    tipo_operacion: string,
    tipo_propiedad: string,
    precio_min: Number,
    precio_max: Number,
    area_min: Number,
    area_max: Number,
    habitaciones: string,
    banos: string,
    parqueaderos: string,
    extras: seq<string>,
    estrato_min: Number,
    estrato_max: Number,
    estado_inmueble: string,
    estado_amoblado: string,
    departamento: string,
    codigo_inmueble: Option<string>,
    barrio: Option<string>,
    tipo_cocina: Option<string>,
    tipo_vigilancia: Option<string>)

  /** The default criteria: empty search, every sentinel, wide ranges. */
  const InitialFilters: Filters :=
    Filters(
      searchTerm := "",
      tipo_operacion := "todos",
      tipo_propiedad := "todos",
      precio_min := Finite(0),
      precio_max := Finite(2000000000),
      area_min := Finite(30),
      area_max := Finite(500),
      habitaciones := "any",
      banos := "any",
      parqueaderos := "any",
      extras := [],
      estrato_min := Finite(1),
      estrato_max := Finite(6),
      estado_inmueble := "any",
      estado_amoblado := "any",
      departamento := "todos",
      codigo_inmueble := None,
      barrio := None,
      tipo_cocina := None,
      tipo_vigilancia := None)

  /** The fields an input element of the filter bar or dialog can name. */
  datatype FilterField =
    | SearchTerm | TipoOperacion | TipoPropiedad
    | PrecioMin | PrecioMax | AreaMin | AreaMax
    | Habitaciones | Banos | Parqueaderos
    | EstratoMin | EstratoMax
    | EstadoInmueble | EstadoAmoblado | Departamento
    | CodigoInmueble | Barrio | TipoCocina | TipoVigilancia

  /** The `name` attribute of the input bound to a field. */
  function FieldName(f: FilterField): string {
    match f
    case SearchTerm => "searchTerm"
    case TipoOperacion => "tipo_operacion"
    case TipoPropiedad => "tipo_propiedad"
    case PrecioMin => "precio_min"
    case PrecioMax => "precio_max"
    case AreaMin => "area_min"
    case AreaMax => "area_max"
    case Habitaciones => "habitaciones"
    case Banos => "banos"
    case Parqueaderos => "parqueaderos"
    case EstratoMin => "estrato_min"
    case EstratoMax => "estrato_max"
    case EstadoInmueble => "estado_inmueble"
    case EstadoAmoblado => "estado_amoblado"
    case Departamento => "departamento"
    case CodigoInmueble => "codigo_inmueble"
    case Barrio => "barrio"
    case TipoCocina => "tipo_cocina"
    case TipoVigilancia => "tipo_vigilancia"
  }

  /** The fields whose stored value is a number. */
  predicate IsNumberField(f: FilterField) {
    f.PrecioMin? || f.PrecioMax? || f.AreaMin? || f.AreaMax? || f.EstratoMin? || f.EstratoMax?
  }

  /** A field's value as the dynamic record holds it. */
  datatype FilterValue = Absent | Num(n: Number) | Text(s: string)

  function Get(filters: Filters, f: FilterField): FilterValue {
    match f
    case SearchTerm => Text(filters.searchTerm)
    case TipoOperacion => Text(filters.tipo_operacion)
    case TipoPropiedad => Text(filters.tipo_propiedad)
    case PrecioMin => Num(filters.precio_min)
    case PrecioMax => Num(filters.precio_max)
    case AreaMin => Num(filters.area_min)
    case AreaMax => Num(filters.area_max)
    case Habitaciones => Text(filters.habitaciones)
    case Banos => Text(filters.banos)
    case Parqueaderos => Text(filters.parqueaderos)
    case EstratoMin => Num(filters.estrato_min)
    case EstratoMax => Num(filters.estrato_max)
    case EstadoInmueble => Text(filters.estado_inmueble)
    case EstadoAmoblado => Text(filters.estado_amoblado)
    case Departamento => Text(filters.departamento)
    case CodigoInmueble => OptionalText(filters.codigo_inmueble)
    case Barrio => OptionalText(filters.barrio)
    case TipoCocina => OptionalText(filters.tipo_cocina)
    case TipoVigilancia => OptionalText(filters.tipo_vigilancia)
  }

  function OptionalText(o: Option<string>): FilterValue {
    match o
    case Some(s) => Text(s)
    case None => Absent
  }
}

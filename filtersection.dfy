/** The filter bar: its input and checkbox handlers, its reset, and the
    amenities it offers. The handlers update the application's criteria
    through `setFilters`. */
module FilterSection {
  import opened JsValues
  import opened Types
  import opened Sequences
  import App

  /** `name.includes('precio') || name.includes('area') || name.includes('estrato')`:
      the inputs whose value is stored as a number. */
  predicate NumericName(name: string) {
    Contains(name, "precio") || Contains(name, "area") || Contains(name, "estrato")
  }

  /** A name that lacks one character of each of the three words. */
  lemma NotNumericByChars(name: string, cp: char, ca: char, ce: char)
    requires cp in "precio" && cp !in name
    requires ca in "area" && ca !in name
    requires ce in "estrato" && ce !in name
    ensures !NumericName(name)
  {
    NotContainsChar(name, "precio", cp);
    NotContainsChar(name, "area", ca);
    NotContainsChar(name, "estrato", ce);
  }

  lemma SearchTermNotNumeric()
    ensures !NumericName("searchTerm")
  {
    NotContainsChar("searchTerm", "precio", 'p');
    NotContainsChar("searchTerm", "estrato", 'o');
    assert !Contains("sear" + ['c'] + "hTerm", "area") by {
      NotContainsSameLength("sear", "area");
      NotContainsChar("hTerm", "area", 'a');
      NotContainsCut("sear", 'c', "hTerm", "area");
    }
    assert "sear" + ['c'] + "hTerm" == "searchTerm";
  }

  lemma OperacionLacksPrecio()
    ensures !Contains("operacion", "precio")
  {
    assert !Contains("oper" + ['a'] + "cion", "precio") by {
      NotContainsCut("oper", 'a', "cion", "precio");
    }
    assert "oper" + ['a'] + "cion" == "operacion";
  }

  lemma OperacionLacksArea()
    ensures !Contains("operacion", "area")
  {
    assert !Contains("" + ['o'] + "pera", "area") by {
      NotContainsSameLength("pera", "area");
      NotContainsCut("", 'o', "pera", "area");
    }
    assert "" + ['o'] + "pera" == "opera";
    assert !Contains("opera" + ['c'] + "ion", "area") by {
      NotContainsCut("opera", 'c', "ion", "area");
    }
    assert "opera" + ['c'] + "ion" == "operacion";
  }

  lemma TipoOperacionNotNumeric()
    ensures !NumericName("tipo_operacion")
  {
    NotContainsChar("tipo_operacion", "estrato", 's');
    OperacionLacksPrecio();
    OperacionLacksArea();
    assert !Contains("tipo" + ['_'] + "operacion", "precio") by {
      NotContainsCut("tipo", '_', "operacion", "precio");
    }
    assert !Contains("tipo" + ['_'] + "operacion", "area") by {
      NotContainsChar("tipo", "area", 'a');
      NotContainsCut("tipo", '_', "operacion", "area");
    }
    assert "tipo" + ['_'] + "operacion" == "tipo_operacion";
  }

  lemma PropiedadLacksArea()
    ensures !Contains("propiedad", "area")
  {
    assert !Contains("pr" + ['o'] + "piedad", "area") by {
      NotContainsChar("piedad", "area", 'r');
      NotContainsCut("pr", 'o', "piedad", "area");
    }
    assert "pr" + ['o'] + "piedad" == "propiedad";
  }

  lemma TipoPropiedadNotNumeric()
    ensures !NumericName("tipo_propiedad")
  {
    NotContainsChar("tipo_propiedad", "precio", 'c');
    NotContainsChar("tipo_propiedad", "estrato", 's');
    PropiedadLacksArea();
    assert !Contains("tipo" + ['_'] + "propiedad", "area") by {
      NotContainsChar("tipo", "area", 'a');
      NotContainsCut("tipo", '_', "propiedad", "area");
    }
    assert "tipo" + ['_'] + "propiedad" == "tipo_propiedad";
  }

  lemma ParqueaderosTailLacksArea()
    ensures !Contains("ueaderos", "area")
  {
    assert !Contains("uea" + ['d'] + "eros", "area") by {
      NotContainsSameLength("eros", "area");
      NotContainsCut("uea", 'd', "eros", "area");
    }
    assert "uea" + ['d'] + "eros" == "ueaderos";
  }

  lemma ParqueaderosNotNumeric()
    ensures !NumericName("parqueaderos")
  {
    NotContainsChar("parqueaderos", "precio", 'c');
    NotContainsChar("parqueaderos", "estrato", 't');
    ParqueaderosTailLacksArea();
    assert !Contains("par" + ['q'] + "ueaderos", "area") by {
      NotContainsCut("par", 'q', "ueaderos", "area");
    }
    assert "par" + ['q'] + "ueaderos" == "parqueaderos";
  }

  lemma DepartamentoTailLacksArea()
    ensures !Contains("artamento", "area")
  {
    assert !Contains("ar" + ['t'] + "amento", "area") by {
      NotContainsChar("amento", "area", 'r');
      NotContainsCut("ar", 't', "amento", "area");
    }
    assert "ar" + ['t'] + "amento" == "artamento";
  }

  lemma DepartamentoNotNumeric()
    ensures !NumericName("departamento")
  {
    NotContainsChar("departamento", "precio", 'c');
    NotContainsChar("departamento", "estrato", 's');
    DepartamentoTailLacksArea();
    assert !Contains("de" + ['p'] + "artamento", "area") by {
      NotContainsCut("de", 'p', "artamento", "area");
    }
    assert "de" + ['p'] + "artamento" == "departamento";
  }

  /** Each of the six numeric names contains its word at the front. */
  lemma NumberNamesNumeric(f: FilterField)
    requires IsNumberField(f)
    ensures NumericName(FieldName(f))
  {
    match f
    case PrecioMin => assert OccursAt("precio_min", "precio", 0);
    case PrecioMax => assert OccursAt("precio_max", "precio", 0);
    case AreaMin => assert OccursAt("area_min", "area", 0);
    case AreaMax => assert OccursAt("area_max", "area", 0);
    case EstratoMin => assert OccursAt("estrato_min", "estrato", 0);
    case EstratoMax => assert OccursAt("estrato_max", "estrato", 0);
  }

  /** Eight of the other names lack a character of each of the three words. */
  lemma PlainNamesNotNumeric(f: FilterField)
    requires f.Habitaciones? || f.Banos? || f.EstadoInmueble? || f.EstadoAmoblado?
    ensures !NumericName(FieldName(f))
  {
    match f
    case Habitaciones => NotNumericByChars("habitaciones", 'p', 'r', 'r');
    case Banos => NotNumericByChars("banos", 'p', 'r', 'r');
    case EstadoInmueble => NotNumericByChars("estado_inmueble", 'p', 'r', 'r');
    case EstadoAmoblado => NotNumericByChars("estado_amoblado", 'p', 'r', 'r');
  }

  lemma MorePlainNamesNotNumeric(f: FilterField)
    requires f.CodigoInmueble? || f.Barrio? || f.TipoCocina? || f.TipoVigilancia?
    ensures !NumericName(FieldName(f))
  {
    match f
    case CodigoInmueble => NotNumericByChars("codigo_inmueble", 'p', 'r', 'r');
    case Barrio => NotNumericByChars("barrio", 'p', 'e', 'e');
    case TipoCocina => NotNumericByChars("tipo_cocina", 'r', 'r', 'r');
    case TipoVigilancia => NotNumericByChars("tipo_vigilancia", 'r', 'r', 'r');
  }

  /** None of the thirteen other names contains any of the three words. */
  lemma OtherNamesNotNumeric(f: FilterField)
    requires !IsNumberField(f)
    ensures !NumericName(FieldName(f))
  {
    match f
    case SearchTerm => SearchTermNotNumeric();
    case TipoOperacion => TipoOperacionNotNumeric();
    case TipoPropiedad => TipoPropiedadNotNumeric();
    case Parqueaderos => ParqueaderosNotNumeric();
    case Departamento => DepartamentoNotNumeric();
    case Habitaciones => PlainNamesNotNumeric(f);
    case Banos => PlainNamesNotNumeric(f);
    case EstadoInmueble => PlainNamesNotNumeric(f);
    case EstadoAmoblado => PlainNamesNotNumeric(f);
    case CodigoInmueble => MorePlainNamesNotNumeric(f);
    case Barrio => MorePlainNamesNotNumeric(f);
    case TipoCocina => MorePlainNamesNotNumeric(f);
    case TipoVigilancia => MorePlainNamesNotNumeric(f);
  }

  /** The name rule picks out exactly the six numeric criteria. */
  lemma NumericNameIffNumberField(f: FilterField)
    ensures NumericName(FieldName(f)) <==> IsNumberField(f)
  {
    if IsNumberField(f) {
      NumberNamesNumeric(f);
    } else {
      OtherNamesNotNumeric(f);
    }
  }

  // ------------------------------------------------------------ inputs

  /** Stores a number in one of the six numeric criteria. */
  function SetNumber(prev: Filters, field: FilterField, n: Number): (r: Filters)
    requires IsNumberField(field)
    ensures Get(r, field) == Num(n)
    ensures forall g :: g != field ==> Get(r, g) == Get(prev, g)
    ensures r.extras == prev.extras
  {
    match field
    case PrecioMin => prev.(precio_min := n)
    case PrecioMax => prev.(precio_max := n)
    case AreaMin => prev.(area_min := n)
    case AreaMax => prev.(area_max := n)
    case EstratoMin => prev.(estrato_min := n)
    case EstratoMax => prev.(estrato_max := n)
  }

  /** Stores raw text in one of the thirteen other criteria. */
  function SetText(prev: Filters, field: FilterField, s: string): (r: Filters)
    requires !IsNumberField(field)
    ensures Get(r, field) == Text(s)
    ensures forall g :: g != field ==> Get(r, g) == Get(prev, g)
    ensures r.extras == prev.extras
  {
    match field
    case SearchTerm => prev.(searchTerm := s)
    case TipoOperacion => prev.(tipo_operacion := s)
    case TipoPropiedad => prev.(tipo_propiedad := s)
    case Habitaciones => prev.(habitaciones := s)
    case Banos => prev.(banos := s)
    case Parqueaderos => prev.(parqueaderos := s)
    case EstadoInmueble => prev.(estado_inmueble := s)
    case EstadoAmoblado => prev.(estado_amoblado := s)
    case Departamento => prev.(departamento := s)
    case CodigoInmueble => prev.(codigo_inmueble := Some(s))
    case Barrio => prev.(barrio := Some(s))
    case TipoCocina => prev.(tipo_cocina := Some(s))
    case TipoVigilancia => prev.(tipo_vigilancia := Some(s))
  }

  /** `handleInputChange`: the input's name decides whether the value is
      stored as `Number(value)` or as the raw text; nothing else changes. */
  function InputChange(prev: Filters, field: FilterField, value: string): (r: Filters)
    ensures NumericName(FieldName(field)) ==> Get(r, field) == Num(ToNumber(value))
    ensures !NumericName(FieldName(field)) ==> Get(r, field) == Text(value)
    ensures forall g :: g != field ==> Get(r, g) == Get(prev, g)
    ensures r.extras == prev.extras
  {
    NumericNameIffNumberField(field);
    if NumericName(FieldName(field)) then SetNumber(prev, field, ToNumber(value))
    else SetText(prev, field, value)
  }

  /** Two criteria records that agree on every field and on the amenities
      are the same record. */
  lemma SameFieldsSameFilters(a: Filters, b: Filters)
    requires forall g :: Get(a, g) == Get(b, g)
    requires a.extras == b.extras
    ensures a == b
  {
    SameTextFields(a, b);
    SameNumberFields(a, b);
    SameOptionalFields(a, b);
  }

  lemma SameTextFields(a: Filters, b: Filters)
    requires Get(a, SearchTerm) == Get(b, SearchTerm)
    requires Get(a, TipoOperacion) == Get(b, TipoOperacion)
    requires Get(a, TipoPropiedad) == Get(b, TipoPropiedad)
    requires Get(a, Habitaciones) == Get(b, Habitaciones)
    requires Get(a, Banos) == Get(b, Banos)
    requires Get(a, Parqueaderos) == Get(b, Parqueaderos)
    requires Get(a, EstadoInmueble) == Get(b, EstadoInmueble)
    requires Get(a, EstadoAmoblado) == Get(b, EstadoAmoblado)
    requires Get(a, Departamento) == Get(b, Departamento)
    ensures a.searchTerm == b.searchTerm && a.tipo_operacion == b.tipo_operacion
      && a.tipo_propiedad == b.tipo_propiedad && a.habitaciones == b.habitaciones
      && a.banos == b.banos && a.parqueaderos == b.parqueaderos
      && a.estado_inmueble == b.estado_inmueble && a.estado_amoblado == b.estado_amoblado
      && a.departamento == b.departamento
  {
  }

  lemma SameNumberFields(a: Filters, b: Filters)
    requires Get(a, PrecioMin) == Get(b, PrecioMin)
    requires Get(a, PrecioMax) == Get(b, PrecioMax)
    requires Get(a, AreaMin) == Get(b, AreaMin)
    requires Get(a, AreaMax) == Get(b, AreaMax)
    requires Get(a, EstratoMin) == Get(b, EstratoMin)
    requires Get(a, EstratoMax) == Get(b, EstratoMax)
    ensures a.precio_min == b.precio_min && a.precio_max == b.precio_max
      && a.area_min == b.area_min && a.area_max == b.area_max
      && a.estrato_min == b.estrato_min && a.estrato_max == b.estrato_max
  {
  }

  lemma SameOptionalFields(a: Filters, b: Filters)
    requires Get(a, CodigoInmueble) == Get(b, CodigoInmueble)
    requires Get(a, Barrio) == Get(b, Barrio)
    requires Get(a, TipoCocina) == Get(b, TipoCocina)
    requires Get(a, TipoVigilancia) == Get(b, TipoVigilancia)
    ensures a.codigo_inmueble == b.codigo_inmueble && a.barrio == b.barrio
      && a.tipo_cocina == b.tipo_cocina && a.tipo_vigilancia == b.tipo_vigilancia
  {
  }

  /** Typing the value a field already holds as text changes nothing. */
  lemma RetypeTextIsNoChange(prev: Filters, field: FilterField, value: string)
    requires !IsNumberField(field) && Get(prev, field) == Text(value)
    ensures InputChange(prev, field, value) == prev
  {
    NumericNameIffNumberField(field);
    var r := InputChange(prev, field, value);
    forall g ensures Get(r, g) == Get(prev, g) {
    }
    SameFieldsSameFilters(r, prev);
  }

  // ------------------------------------------------------------ amenities

  /** `handleCheckboxChange`: checking appends the name, unchecking drops
      every occurrence of it. */
  function ToggleExtra(extras: seq<string>, name: string, checked: bool): (r: seq<string>)
    ensures name in r <==> checked
    ensures forall x :: x != name ==> (x in r <==> x in extras)
    ensures Filter(r, (x: string) => x != name) == Filter(extras, (x: string) => x != name)
    ensures checked ==> |r| == |extras| + 1 && r[..|extras|] == extras && r[|extras|] == name
    ensures !checked ==> IsSubseq(r, extras)
  {
    var others := (x: string) => x != name;
    if checked then
      FilterAppend(extras, [name], others);
      assert Filter([name], others) == [];
      assert Filter(extras, others) + [] == Filter(extras, others);
      extras + [name]
    else
      FilterIsSubseq(extras, others);
      FilterIdempotent(extras, others);
      Filter(extras, others)
  }

  /** Checking a name that is not selected and unchecking it again gives
      back the original selection. */
  lemma CheckThenUncheck(extras: seq<string>, name: string)
    requires name !in extras
    ensures ToggleExtra(ToggleExtra(extras, name, true), name, false) == extras
  {
    var others := (x: string) => x != name;
    FilterKeepsAll(extras, others);
  }

  /** `checked={filters.extras.includes(option.name)}`. */
  predicate IsChecked(f: Filters, name: string) {
    name in f.extras
  }

  /** The amenities the filter bar offers, in display order. */
  const SectionExtras: seq<string> := [
    "tiene_porteria_24h", "tiene_ascensor", "tiene_piscina_comun", "tiene_gimnasio",
    "tiene_balcon", "tiene_comedor", "tiene_gas_domiciliario", "tiene_zonas_verdes",
    "tiene_cancha_futbol", "tiene_kiosko_asados", "tiene_salon_social",
    "tiene_juegos_infantiles", "tiene_sendero_peatonal"]

  /** Thirteen distinct amenity names, each an amenity flag `tiene_*`. */
  lemma SectionExtrasShape()
    ensures |SectionExtras| == 13
    ensures forall i, j :: 0 <= i < j < |SectionExtras| ==> SectionExtras[i] != SectionExtras[j]
    ensures forall i :: 0 <= i < |SectionExtras| ==> SectionExtras[i][..6] == "tiene_"
  {
  }

  // ------------------------------------------------------------ reset

  /** `resetFilters`: the default criteria, keeping the search text and the
      operation and property type. */
  function SectionReset(prev: Filters): (r: Filters)
    ensures Get(r, SearchTerm) == Get(prev, SearchTerm)
    ensures Get(r, TipoOperacion) == Get(prev, TipoOperacion)
    ensures Get(r, TipoPropiedad) == Get(prev, TipoPropiedad)
    ensures forall g :: g != SearchTerm && g != TipoOperacion && g != TipoPropiedad ==>
      Get(r, g) == Get(InitialFilters, g)
    ensures r.extras == []
  {
    InitialFilters.(
      searchTerm := prev.searchTerm,
      tipo_operacion := prev.tipo_operacion,
      tipo_propiedad := prev.tipo_propiedad)
  }

  /** Resetting twice is resetting once. */
  lemma SectionResetIdempotent(f: Filters)
    ensures SectionReset(SectionReset(f)) == SectionReset(f)
  {
    var once := SectionReset(f);
    var twice := SectionReset(once);
    forall g ensures Get(twice, g) == Get(once, g) {
    }
    SameFieldsSameFilters(twice, once);
  }

  // ------------------------------------------------------------ handlers

  /** The filter bar's input handler, through `setFilters`. */
  method HandleInputChange(app: App.AppState, field: FilterField, value: string)
    modifies app
    ensures app.filters == InputChange(old(app.filters), field, value)
    ensures app.OnlyFiltersChanged()
  {
    app.SetFilters(InputChange(app.filters, field, value));
  }

  /** The filter bar's checkbox handler. */
  method HandleCheckboxChange(app: App.AppState, name: string, checked: bool)
    modifies app
    ensures app.filters == old(app.filters).(extras := ToggleExtra(old(app.filters).extras, name, checked))
    ensures IsChecked(app.filters, name) <==> checked
    ensures app.OnlyFiltersChanged()
  {
    app.SetFilters(app.filters.(extras := ToggleExtra(app.filters.extras, name, checked)));
  }

  /** The filter bar's reset button. */
  method ResetFilters(app: App.AppState)
    modifies app
    ensures app.filters == SectionReset(old(app.filters))
    ensures app.OnlyFiltersChanged()
  {
    app.SetFilters(SectionReset(app.filters));
  }
}

/** The filter dialog: the same input and checkbox handlers as the filter
    bar, a reset that keeps the search text and the listing code, and a
    shorter list of amenities. */
module FilterModal {
  import opened JsValues
  import opened Types
  import App
  import FilterSection

  /** The dialog's input handler: the same name rule as the filter bar. */
  method HandleInputChange(app: App.AppState, field: FilterField, value: string)
    modifies app
    ensures app.filters == FilterSection.InputChange(old(app.filters), field, value)
    ensures app.OnlyFiltersChanged()
  {
    app.SetFilters(FilterSection.InputChange(app.filters, field, value));
  }

  /** The dialog's checkbox handler. */
  method HandleCheckboxChange(app: App.AppState, name: string, checked: bool)
    modifies app
    ensures app.filters == old(app.filters).(extras := FilterSection.ToggleExtra(old(app.filters).extras, name, checked))
    ensures FilterSection.IsChecked(app.filters, name) <==> checked
    ensures app.OnlyFiltersChanged()
  {
    app.SetFilters(app.filters.(extras := FilterSection.ToggleExtra(app.filters.extras, name, checked)));
  }

  /** `resetFilters` of the dialog: the default criteria, keeping only the
      search text and the listing code; unlike the filter bar it also
      resets the operation and property type. */
  function ModalReset(prev: Filters): (r: Filters)
    ensures Get(r, SearchTerm) == Get(prev, SearchTerm)
    ensures Get(r, CodigoInmueble) == Get(prev, CodigoInmueble)
    ensures forall g :: g != SearchTerm && g != CodigoInmueble ==> Get(r, g) == Get(InitialFilters, g)
    ensures r.extras == []
  {
    InitialFilters.(searchTerm := prev.searchTerm, codigo_inmueble := prev.codigo_inmueble)
  }

  /** Resetting twice is resetting once. */
  lemma ModalResetIdempotent(f: Filters)
    ensures ModalReset(ModalReset(f)) == ModalReset(f)
  {
    var once := ModalReset(f);
    var twice := ModalReset(once);
    forall g ensures Get(twice, g) == Get(once, g) {
    }
    FilterSection.SameFieldsSameFilters(twice, once);
  }

  /** The two resets differ exactly in what they keep: after the dialog's
      reset the operation and property type are back at `todos`, and the
      filter bar's reset leaves the listing code at its default. */
  lemma ResetsDiffer(f: Filters)
    ensures ModalReset(f).tipo_operacion == "todos" && ModalReset(f).tipo_propiedad == "todos"
    ensures FilterSection.SectionReset(f).tipo_operacion == f.tipo_operacion
    ensures FilterSection.SectionReset(f).codigo_inmueble == None
    ensures ModalReset(f).codigo_inmueble == f.codigo_inmueble
  {
  }

  /** The dialog's reset button. */
  method ResetFilters(app: App.AppState)
    modifies app
    ensures app.filters == ModalReset(old(app.filters))
    ensures app.OnlyFiltersChanged()
  {
    app.SetFilters(ModalReset(app.filters));
  }

  /** The amenities the dialog offers, in display order. */
  const ModalExtras: seq<string> := [
    "tiene_porteria_24h", "tiene_ascensor", "tiene_piscina_comun", "tiene_gimnasio",
    "tiene_balcon", "tiene_zonas_verdes", "tiene_cancha_futbol", "tiene_kiosko_asados",
    "tiene_salon_social", "tiene_juegos_infantiles", "tiene_sendero_peatonal"]

  /** Eleven distinct names, every one also offered by the filter bar; the
      bar's dining-room and piped-gas amenities are missing here. */
  lemma ModalExtrasShape()
    ensures |ModalExtras| == 11
    ensures forall i, j :: 0 <= i < j < |ModalExtras| ==> ModalExtras[i] != ModalExtras[j]
    ensures forall n :: n in ModalExtras ==> n in FilterSection.SectionExtras
    ensures "tiene_comedor" !in ModalExtras && "tiene_gas_domiciliario" !in ModalExtras
  {
    ModalExtrasDistinct();
    assert ModalExtras == FilterSection.SectionExtras[..5] + FilterSection.SectionExtras[7..];
  }

  lemma ModalExtrasDistinct()
    ensures forall i, j :: 0 <= i < j < |ModalExtras| ==> ModalExtras[i] != ModalExtras[j]
  {
    FilterSection.SectionExtrasShape();
    assert ModalExtras == FilterSection.SectionExtras[..5] + FilterSection.SectionExtras[7..];
  }
}

/** The storefront's listing pipeline: the grid predicate applied to every
    property, the featured selector, and the sort of the grid. */
module Listing {
  import opened JsValues
  import opened Types
  import opened Sequences

  /** `filters.searchTerm.toLowerCase().trim()`, computed once per pass. */
  function SearchNeedle(f: Filters): string {
    Trim(ToLower(f.searchTerm))
  }

  /** `x && ...` on an optional number: present and non-zero. */
  predicate Truthy(v: Option<int>) {
    v.Some? && v.value != 0
  }

  /** `x < lo || x > hi` with JavaScript comparisons. */
  predicate OutOfRange(x: int, lo: Number, hi: Number) {
    LessThan(x, lo) || GreaterThan(x, hi)
  }

  /** An "N+" facet that rejects: not `any`, and the value (absent counts as
      0) is below `Number(threshold)`. */
  predicate BelowThreshold(v: Option<int>, threshold: string) {
    threshold != "any" && LessThan(v.GetOr(0), ToNumber(threshold))
  }

  /** The checks of the grid predicate in App.tsx before the amenities, in order. */
  predicate MatchesHead(p: Property, f: Filters, needle: string) {
    && p.estado_publicacion == Publicado
    && !p.es_destacado
    && (needle == [] || Contains(ToLower(p.ciudad), needle) || Contains(ToLower(p.barrio_sector), needle))
    && (f.tipo_operacion == "todos" || p.tipo_operacion == f.tipo_operacion)
    && (f.tipo_propiedad == "todos" || p.tipo_propiedad == f.tipo_propiedad)
    && !OutOfRange(p.precio, f.precio_min, f.precio_max)
    && !(Truthy(p.area_construida) && OutOfRange(p.area_construida.value, f.area_min, f.area_max))
    && !BelowThreshold(p.habitaciones, f.habitaciones)
    && !BelowThreshold(p.banos_completos, f.banos)
    && !BelowThreshold(p.parqueaderos, f.parqueaderos)
  }

  /** The amenity check: every required flag is set. */
  predicate HasExtras(p: Property, extras: seq<string>) {
    forall e :: e in extras ==> HasFlag(p, e)
  }

  /** The checks of the grid predicate in App.tsx after the amenities, in order. */
  predicate MatchesTail(p: Property, f: Filters) {
    && !(Truthy(p.estrato) && OutOfRange(p.estrato.value, f.estrato_min, f.estrato_max))
    && (f.estado_inmueble == "any" || p.estado_inmueble == Some(f.estado_inmueble))
    && (f.estado_amoblado == "any" || p.estado_amoblado == Some(f.estado_amoblado))
    && (f.departamento == "todos" || p.departamento == Some(f.departamento))
  }

  /** The grid predicate, one conjunct per early `return false` of the
      `filteredProperties` callback in App.tsx, in the same order. */
  predicate Matches(p: Property, f: Filters, needle: string) {
    MatchesHead(p, f, needle) && HasExtras(p, f.extras) && MatchesTail(p, f)
  }

  /** The grid: the properties that pass the predicate, in list order. */
  function FilteredProperties(props: seq<Property>, f: Filters): (r: seq<Property>)
    ensures forall p :: p in r <==> p in props && Matches(p, f, SearchNeedle(f))
    ensures forall p :: multiset(r)[p] == if Matches(p, f, SearchNeedle(f)) then multiset(props)[p] else 0
    ensures IsSubseq(r, props)
  {
    var keep := (p: Property) => Matches(p, f, SearchNeedle(f));
    FilterIsSubseq(props, keep);
    var r := Filter(props, keep);
    assert forall p :: multiset(r)[p] == if keep(p) then multiset(props)[p] else 0;
    r
  }

  /** The featured strip: published and featured, in list order. */
  function FeaturedProperties(props: seq<Property>): (r: seq<Property>)
    ensures forall p :: p in r <==> p in props && p.es_destacado && p.estado_publicacion == Publicado
    ensures forall p :: multiset(r)[p] == if p.es_destacado && p.estado_publicacion == Publicado then multiset(props)[p] else 0
    ensures IsSubseq(r, props)
  {
    FilterIsSubseq(props, (p: Property) => p.es_destacado && p.estado_publicacion == Publicado);
    Filter(props, (p: Property) => p.es_destacado && p.estado_publicacion == Publicado)
  }

  // ------------------------------------------------------------ visibility

  /** Every grid entry is published and not featured, so no property is
      shown both in the grid and in the featured strip. */
  lemma GridAndFeaturedDisjoint(props: seq<Property>, f: Filters)
    ensures forall p :: p in FilteredProperties(props, f) ==> p.estado_publicacion == Publicado && !p.es_destacado
    ensures forall p :: p in FilteredProperties(props, f) ==> p !in FeaturedProperties(props)
  {
  }

  /** Selecting the featured strip twice changes nothing. */
  lemma {:induction false} FeaturedIdempotent(props: seq<Property>)
    ensures FeaturedProperties(FeaturedProperties(props)) == FeaturedProperties(props)
  {
    var keep := (p: Property) => p.es_destacado && p.estado_publicacion == Publicado;
    FilterIdempotent(props, keep);
  }

  // ------------------------------------------------------------ criteria

  /** Search: an empty (or blank) term imposes nothing; otherwise a property
      passes iff its lower-cased city or neighbourhood contains the term. */
  lemma SearchSemantics(p: Property, f: Filters)
    ensures Matches(p, f, SearchNeedle(f)) <==>
      Matches(p, f, []) &&
      (SearchNeedle(f) == [] || Contains(ToLower(p.ciudad), SearchNeedle(f)) || Contains(ToLower(p.barrio_sector), SearchNeedle(f)))
    ensures IsBlank(ToLower(f.searchTerm)) ==> SearchNeedle(f) == []
  {
    TrimEmptyIffBlank(ToLower(f.searchTerm));
  }

  /** Price: with finite bounds, a grid property's price lies in
      `[precio_min, precio_max]`; a NaN bound constrains nothing. */
  lemma PriceRange(p: Property, f: Filters)
    requires Matches(p, f, SearchNeedle(f))
    ensures f.precio_min.Finite? ==> f.precio_min.n <= p.precio
    ensures f.precio_max.Finite? ==> p.precio <= f.precio_max.n
  {
  }

  /** Area and stratum: absent or zero values pass whatever the bounds;
      present non-zero values must lie in the finite bounds. */
  lemma OptionalRanges(p: Property, f: Filters)
    requires Matches(p, f, SearchNeedle(f))
    ensures Truthy(p.area_construida) && f.area_min.Finite? ==> f.area_min.n <= p.area_construida.value
    ensures Truthy(p.area_construida) && f.area_max.Finite? ==> p.area_construida.value <= f.area_max.n
    ensures Truthy(p.estrato) && f.estrato_min.Finite? ==> f.estrato_min.n <= p.estrato.value
    ensures Truthy(p.estrato) && f.estrato_max.Finite? ==> p.estrato.value <= f.estrato_max.n
  {
  }

  /** Absent or zero area and stratum never exclude: changing the area and
      stratum bounds does not affect such a property. */
  lemma MissingAreaAndStratumPass(p: Property, f: Filters, alo: Number, ahi: Number, slo: Number, shi: Number)
    requires !Truthy(p.area_construida) && !Truthy(p.estrato)
    ensures Matches(p, f, SearchNeedle(f)) ==
      Matches(p, f.(area_min := alo, area_max := ahi, estrato_min := slo, estrato_max := shi), SearchNeedle(f))
  {
    var g, needle := f.(area_min := alo, area_max := ahi, estrato_min := slo, estrato_max := shi), SearchNeedle(f);
    HeadIgnoresAreaBounds(p, f, needle, alo, ahi, slo, shi);
    TailIgnoresStratumBounds(p, f, alo, ahi, slo, shi);
  }

  lemma HeadIgnoresAreaBounds(p: Property, f: Filters, needle: string, alo: Number, ahi: Number, slo: Number, shi: Number)
    requires !Truthy(p.area_construida)
    ensures MatchesHead(p, f.(area_min := alo, area_max := ahi, estrato_min := slo, estrato_max := shi), needle)
      == MatchesHead(p, f, needle)
  {
  }

  lemma TailIgnoresStratumBounds(p: Property, f: Filters, alo: Number, ahi: Number, slo: Number, shi: Number)
    requires !Truthy(p.estrato)
    ensures MatchesTail(p, f.(area_min := alo, area_max := ahi, estrato_min := slo, estrato_max := shi)) == MatchesTail(p, f)
  {
  }

  /** "N+" facets: for a threshold written in digits, a property passes iff
      its value, absent counting as 0, is at least the threshold. */
  lemma ThresholdSemantics(v: Option<int>, threshold: string)
    requires AllDigits(threshold)
    ensures !BelowThreshold(v, threshold) <==> v.GetOr(0) >= DigitsValue(threshold)
  {
    DigitsNumber(threshold);
    assert threshold != "any" by {
      assert !IsDigit("any"[0]);
    }
  }

  /** Extras have AND semantics: a property passes the extras check iff every
      required flag is set, so no extras impose nothing. */
  lemma ExtrasSemantics(p: Property, f: Filters)
    ensures Matches(p, f, SearchNeedle(f)) <==>
      Matches(p, f.(extras := []), SearchNeedle(f)) && forall e :: e in f.extras ==> HasFlag(p, e)
  {
    var g, needle := f.(extras := []), SearchNeedle(f);
    HeadIgnoresExtras(p, f, needle);
    TailIgnoresExtras(p, f);
    assert HasExtras(p, g.extras);
  }

  lemma HeadIgnoresExtras(p: Property, f: Filters, needle: string)
    ensures MatchesHead(p, f.(extras := []), needle) == MatchesHead(p, f, needle)
  {
  }

  lemma TailIgnoresExtras(p: Property, f: Filters)
    ensures MatchesTail(p, f.(extras := [])) == MatchesTail(p, f)
  {
  }

  /** The default criteria keep every published, non-featured property whose
      price, area and stratum are in the default ranges (absent or zero area
      and stratum always are). */
  lemma InitialFiltersPermissive(p: Property)
    requires p.estado_publicacion == Publicado && !p.es_destacado
    requires 0 <= p.precio <= 2000000000
    requires !Truthy(p.area_construida) || 30 <= p.area_construida.value <= 500
    requires !Truthy(p.estrato) || 1 <= p.estrato.value <= 6
    ensures Matches(p, InitialFilters, SearchNeedle(InitialFilters))
  {
    assert SearchNeedle(InitialFilters) == [];
  }

  // ------------------------------------------------------------ monotonicity

  /** Narrowing a criterion never adds results: the narrower grid is a
      subsequence of the wider one. */
  lemma NarrowingKeepsSubsequence(props: seq<Property>, wide: Filters, narrow: Filters)
    requires SearchNeedle(wide) == SearchNeedle(narrow)
    requires forall p :: Matches(p, narrow, SearchNeedle(narrow)) ==> Matches(p, wide, SearchNeedle(wide))
    ensures IsSubseq(FilteredProperties(props, narrow), FilteredProperties(props, wide))
    ensures |FilteredProperties(props, narrow)| <= |FilteredProperties(props, wide)|
  {
    var n, w := SearchNeedle(narrow), SearchNeedle(wide);
    FilterMonotone(props, (p: Property) => Matches(p, narrow, n), (p: Property) => Matches(p, wide, w));
    IsSubseqLength(FilteredProperties(props, narrow), FilteredProperties(props, wide));
  }

  /** Raising a finite minimum price never adds results. */
  lemma RaisingMinPriceNarrows(props: seq<Property>, f: Filters, m: int)
    requires f.precio_min.Finite? && f.precio_min.n <= m
    ensures IsSubseq(FilteredProperties(props, f.(precio_min := Finite(m))), FilteredProperties(props, f))
  {
    NarrowingKeepsSubsequence(props, f, f.(precio_min := Finite(m)));
  }

  /** Requiring one more extra never adds results. */
  lemma AddingExtraNarrows(props: seq<Property>, f: Filters, e: string)
    ensures IsSubseq(FilteredProperties(props, f.(extras := f.extras + [e])), FilteredProperties(props, f))
  {
    var g := f.(extras := f.extras + [e]);
    forall p | Matches(p, g, SearchNeedle(g)) ensures Matches(p, f, SearchNeedle(f)) {
      forall x | x in f.extras ensures HasFlag(p, x) {
        assert x in g.extras;
      }
    }
    NarrowingKeepsSubsequence(props, f, g);
  }

  // ------------------------------------------------------------ sorting

  function PriceKey(p: Property): int { p.precio }
  function NegPriceKey(p: Property): int { -p.precio }
  function NegAreaKey(p: Property): int { -p.area_construida.GetOr(0) }

  /** The comparator chosen by the sort menu, as an ascending key; `None`
      for `default` and any other value (no sort). */
  function OrderKey(sortBy: string): Option<Property -> int> {
    if sortBy == "price_asc" then Some(PriceKey)
    else if sortBy == "price_desc" then Some(NegPriceKey)
    else if sortBy == "area_desc" then Some(NegAreaKey)
    else None
  }

  /** The grid order the application computes on its copy of the list. */
  function SortForView(s: seq<Property>, sortBy: string): seq<Property> {
    match OrderKey(sortBy)
    case Some(key) => SortBy(s, key)
    case None => s
  }

  /** The sort step: for a known option, sort a copy of the list in place;
      otherwise keep the list. */
  method SortForDisplay(s: seq<Property>, sortBy: string) returns (r: seq<Property>)
    ensures r == SortForView(s, sortBy)
  {
    var order := OrderKey(sortBy);
    if order.Some? {
      r := SortedCopy(s, order.value);
    } else {
      r := s;
    }
  }

  /** `sortedAndFilteredProperties`: filter, then sort the result. */
  method SortedAndFilteredProperties(props: seq<Property>, f: Filters, sortBy: string) returns (r: seq<Property>)
    ensures r == SortForView(FilteredProperties(props, f), sortBy)
  {
    r := SortForDisplay(FilteredProperties(props, f), sortBy);
  }

  /** Sorting only reorders: the result is a permutation of its input. */
  lemma SortIsPermutation(s: seq<Property>, sortBy: string)
    ensures multiset(SortForView(s, sortBy)) == multiset(s)
    ensures |SortForView(s, sortBy)| == |s|
  {
  }

  /** `default` (and any unknown option) keeps the filtered order. */
  lemma DefaultKeepsOrder(s: seq<Property>, sortBy: string)
    requires sortBy != "price_asc" && sortBy != "price_desc" && sortBy != "area_desc"
    ensures SortForView(s, sortBy) == s
  {
  }

  /** `price_asc` is non-decreasing in price. */
  lemma PriceAscOrdered(s: seq<Property>)
    ensures forall i, j :: 0 <= i < j < |s| ==>
      SortForView(s, "price_asc")[i].precio <= SortForView(s, "price_asc")[j].precio
  {
    SortBySorted(s, PriceKey);
  }

  /** `price_desc` is non-increasing in price. */
  lemma PriceDescOrdered(s: seq<Property>)
    ensures forall i, j :: 0 <= i < j < |s| ==>
      SortForView(s, "price_desc")[i].precio >= SortForView(s, "price_desc")[j].precio
  {
    SortBySorted(s, NegPriceKey);
  }

  /** `area_desc` is non-increasing in area, absent area counting as 0. */
  lemma AreaDescOrdered(s: seq<Property>)
    ensures forall i, j :: 0 <= i < j < |s| ==>
      SortForView(s, "area_desc")[i].area_construida.GetOr(0) >= SortForView(s, "area_desc")[j].area_construida.GetOr(0)
  {
    SortBySorted(s, NegAreaKey);
  }

  /** Ties keep the input order: for every sort option, the properties that
      share a sort key appear in the result in their filtered order. */
  lemma SortKeepsTies(s: seq<Property>, sortBy: string, k: int)
    requires OrderKey(sortBy).Some?
    ensures WithKey(SortForView(s, sortBy), OrderKey(sortBy).value, k) == WithKey(s, OrderKey(sortBy).value, k)
  {
    SortByStable(s, OrderKey(sortBy).value, k);
  }
}

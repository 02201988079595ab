/** The back-office property form: the empty draft, opening the form on a
    property or on a new draft, the field and checkbox handlers, the image
    slots with their "one principal image" rule, and submission. */
module PropertyForm {
  import opened JsValues
  import opened Types
  import Listing

  // ------------------------------------------------------------ the empty draft

  /** The amenity checkboxes of the form, all unchecked in a new draft. */
  const FormAmenities: seq<string> := [
    "tiene_comedor", "tiene_gas_domiciliario", "tiene_balcon", "tiene_gimnasio",
    "tiene_piscina_comun", "tiene_ascensor", "tiene_porteria_24h", "tiene_zonas_verdes",
    "tiene_cancha_futbol", "tiene_kiosko_asados", "tiene_salon_social",
    "tiene_juegos_infantiles", "tiene_sendero_peatonal", "tiene_vidrio_templado",
    "tiene_reja", "tiene_puerta_tradicional"]

  /** `emptyProperty`; `created` is the timestamp taken when the module was
      loaded. */
  function EmptyProperty(created: int): (p: Property)
    ensures p.estado_publicacion == Borrador && !p.es_destacado
    ensures p.imagenes == [] && p.id == ""
    ensures p.fecha_publicacion == created
    ensures forall name :: !HasFlag(p, name)
    ensures p.flags.Keys == set n | n in FormAmenities
  {
    Property(
      id := "",
      titulo := "",
      descripcion := "",
      ciudad := "",
      barrio_sector := "",
      direccion_completa := None,
      departamento := None,
      tipo_operacion := "venta",
      tipo_propiedad := "apartamento",
      precio := 0,
      valor_administracion := Some(0),
      es_negociable := false,
      area_construida := Some(0),
      habitaciones := Some(0),
      banos_completos := Some(0),
      parqueaderos := Some(0),
      estrato := None,
      estado_inmueble := Some("used"),
      estado_amoblado := Some("sin_amoblar"),
      tipo_cocina := Some("no_tiene"),
      tipo_vigilancia := Some("sin_vigilancia"),
      flags := map n | n in FormAmenities :: false,
      imagenes := [],
      es_destacado := false,
      estado_publicacion := Borrador,
      fecha_publicacion := created)
  }

  /** The effect run when the form opens: a copy of the property being edited,
      or the empty draft with the id `prop_<now>`. */
  function Draft(property: Option<Property>, created: int, now: nat): (p: Property)
    ensures property.Some? ==> p == property.value
    ensures property.None? ==> p.(id := "") == EmptyProperty(created)
    ensures property.None? ==> |p.id| > 5 && p.id[..5] == "prop_" && p.id[5..] == NatToString(now)
  {
    match property
    case Some(q) => q
    case None => EmptyProperty(created).(id := "prop_" + NatToString(now))
  }

  /** The id of a new draft spells out the time it was opened. */
  lemma DraftIdEncodesTime(created: int, now: nat)
    ensures AllDigits(Draft(None, created, now).id[5..])
    ensures DigitsValue(Draft(None, created, now).id[5..]) == now
  {
  }

  /** Drafts opened at different times get different ids. */
  lemma DraftIdsDiffer(created: int, now1: nat, now2: nat)
    requires now1 != now2
    ensures Draft(None, created, now1).id != Draft(None, created, now2).id
  {
    DraftIdEncodesTime(created, now1);
    DraftIdEncodesTime(created, now2);
  }

  /** A new draft is neither in the storefront grid nor among the featured
      listings, whatever the criteria. */
  lemma NewDraftIsHidden(created: int, now: nat, props: seq<Property>, f: Filters)
    ensures Draft(None, created, now) !in Listing.FilteredProperties(props, f)
    ensures Draft(None, created, now) !in Listing.FeaturedProperties(props)
  {
  }

  // ------------------------------------------------------------ fields

  /** The inputs and checkboxes of the form, by the name they write. */
  datatype FormKey =
    | Titulo | Descripcion | Ciudad | BarrioSector | TipoOperacion | TipoPropiedad | EstadoPublicacion
    | EstadoInmueble | EstadoAmoblado | TipoCocina | TipoVigilancia
    | Precio | ValorAdministracion | AreaConstruida | Habitaciones | BanosCompletos | Parqueaderos
    | EsNegociable | EsDestacado | Amenity(name: string)

  predicate IsTextKey(k: FormKey) {
    || k.Titulo? || k.Descripcion? || k.Ciudad? || k.BarrioSector? || k.TipoOperacion?
    || k.TipoPropiedad? || k.EstadoPublicacion? || k.EstadoInmueble? || k.EstadoAmoblado?
    || k.TipoCocina? || k.TipoVigilancia?
  }

  /** The inputs of `type="number"`. */
  predicate IsNumberKey(k: FormKey) {
    k.Precio? || k.ValorAdministracion? || k.AreaConstruida? || k.Habitaciones? || k.BanosCompletos? || k.Parqueaderos?
  }

  predicate IsCheckboxKey(k: FormKey) {
    k.EsNegociable? || k.EsDestacado? || k.Amenity?
  }

  /** A field's value as the dynamic record holds it. */
  datatype FormValue = Missing | Str(s: string) | Int(n: int) | Bool(b: bool)

  function OptStr(o: Option<string>): FormValue {
    match o
    case Some(s) => Str(s)
    case None => Missing
  }

  function OptInt(o: Option<int>): FormValue {
    match o
    case Some(n) => Int(n)
    case None => Missing
  }

  /** `formData[name]`. */
  function Read(p: Property, k: FormKey): FormValue {
    match k
    case Titulo => Str(p.titulo)
    case Descripcion => Str(p.descripcion)
    case Ciudad => Str(p.ciudad)
    case BarrioSector => Str(p.barrio_sector)
    case TipoOperacion => Str(p.tipo_operacion)
    case TipoPropiedad => Str(p.tipo_propiedad)
    case EstadoPublicacion => Str(p.estado_publicacion)
    case EstadoInmueble => OptStr(p.estado_inmueble)
    case EstadoAmoblado => OptStr(p.estado_amoblado)
    case TipoCocina => OptStr(p.tipo_cocina)
    case TipoVigilancia => OptStr(p.tipo_vigilancia)
    case Precio => Int(p.precio)
    case ValorAdministracion => OptInt(p.valor_administracion)
    case AreaConstruida => OptInt(p.area_construida)
    case Habitaciones => OptInt(p.habitaciones)
    case BanosCompletos => OptInt(p.banos_completos)
    case Parqueaderos => OptInt(p.parqueaderos)
    case EsNegociable => Bool(p.es_negociable)
    case EsDestacado => Bool(p.es_destacado)
    case Amenity(name) => if name in p.flags then Bool(p.flags[name]) else Missing
  }

  /** The parts of a record no input of the form writes. */
  predicate SameUnkeyed(a: Property, b: Property) {
    && a.id == b.id && a.direccion_completa == b.direccion_completa && a.departamento == b.departamento
    && a.estrato == b.estrato && a.imagenes == b.imagenes && a.fecha_publicacion == b.fecha_publicacion
  }

  /** `{ ...prev, [name]: value }` for a text or select input. */
  function WriteText(p: Property, k: FormKey, value: string): (r: Property)
    requires IsTextKey(k)
    ensures Read(r, k) == Str(value)
    ensures forall g :: g != k ==> Read(r, g) == Read(p, g)
    ensures SameUnkeyed(r, p)
  {
    match k
    case Titulo => p.(titulo := value)
    case Descripcion => p.(descripcion := value)
    case Ciudad => p.(ciudad := value)
    case BarrioSector => p.(barrio_sector := value)
    case TipoOperacion => p.(tipo_operacion := value)
    case TipoPropiedad => p.(tipo_propiedad := value)
    case EstadoPublicacion => p.(estado_publicacion := value)
    case EstadoInmueble => p.(estado_inmueble := Some(value))
    case EstadoAmoblado => p.(estado_amoblado := Some(value))
    case TipoCocina => p.(tipo_cocina := Some(value))
    case TipoVigilancia => p.(tipo_vigilancia := Some(value))
  }

  /** `{ ...prev, [name]: n }` for a number input. */
  function WriteNumber(p: Property, k: FormKey, n: int): (r: Property)
    requires IsNumberKey(k)
    ensures Read(r, k) == Int(n)
    ensures forall g :: g != k ==> Read(r, g) == Read(p, g)
    ensures SameUnkeyed(r, p)
  {
    match k
    case Precio => p.(precio := n)
    case ValorAdministracion => p.(valor_administracion := Some(n))
    case AreaConstruida => p.(area_construida := Some(n))
    case Habitaciones => p.(habitaciones := Some(n))
    case BanosCompletos => p.(banos_completos := Some(n))
    case Parqueaderos => p.(parqueaderos := Some(n))
  }

  /** `{ ...prev, [name]: checked }` for a checkbox. */
  function WriteBool(p: Property, k: FormKey, checked: bool): (r: Property)
    requires IsCheckboxKey(k)
    ensures Read(r, k) == Bool(checked)
    ensures forall g :: g != k ==> Read(r, g) == Read(p, g)
    ensures SameUnkeyed(r, p)
  {
    match k
    case EsNegociable => p.(es_negociable := checked)
    case EsDestacado => p.(es_destacado := checked)
    case Amenity(name) => p.(flags := p.flags[name := checked])
  }

  /** `value === '' ? 0 : parseFloat(value)` on the values a number input
      can hold that are integers: the empty text or an integer literal.
      Anything else gives `None`. */
  function NumberInput(value: string): (r: Option<int>)
    ensures value == "" ==> r == Some(0)
    ensures AllDigits(value) ==> r == Some(DigitsValue(value) as int)
    ensures r.Some? <==> value == "" || ParseDecimal(value).Some?
  {
    if value == "" then Some(0) else ParseDecimal(value)
  }

  /** Reading back what the form displays for a stored count gives the count. */
  lemma NumberInputRoundTrip(n: nat)
    ensures NumberInput(NatToString(n)) == Some(n)
  {
    DigitsParse(NatToString(n));
  }

  // ------------------------------------------------------------ images

  /** How many images are marked principal. */
  function Principals(imgs: seq<Image>): (c: nat)
    ensures c <= |imgs|
  {
    if imgs == [] then 0 else (if imgs[0].es_principal then 1 else 0) + Principals(imgs[1..])
  }

  /** The rule the image editor keeps: a non-empty list has exactly one
      principal image. */
  predicate OnePrincipal(imgs: seq<Image>) {
    imgs != [] ==> Principals(imgs) == 1
  }

  lemma {:induction false} PrincipalsAppend(a: seq<Image>, b: seq<Image>)
    ensures Principals(a + b) == Principals(a) + Principals(b)
  {
    if a == [] {
      assert a + b == b;
    } else {
      PrincipalsAppend(a[1..], b);
      assert (a + b)[1..] == a[1..] + b;
    }
  }

  /** No image is principal exactly when the count is zero. */
  lemma {:induction false} PrincipalsZero(imgs: seq<Image>)
    ensures Principals(imgs) == 0 <==> forall j :: 0 <= j < |imgs| ==> !imgs[j].es_principal
  {
    if imgs != [] {
      PrincipalsZero(imgs[1..]);
      if Principals(imgs) == 0 {
        forall j | 0 <= j < |imgs| ensures !imgs[j].es_principal {
          if j > 0 {
            assert imgs[j] == imgs[1..][j - 1];
          }
        }
      }
      if forall j :: 0 <= j < |imgs| ==> !imgs[j].es_principal {
        forall j | 0 <= j < |imgs[1..]| ensures !imgs[1..][j].es_principal {
          assert imgs[1..][j] == imgs[j + 1];
        }
      }
    }
  }

  /** Lists with the same principal marks, slot by slot, have the same count. */
  lemma {:induction false} PrincipalsSameMarks(a: seq<Image>, b: seq<Image>)
    requires |a| == |b|
    requires forall j :: 0 <= j < |a| ==> a[j].es_principal == b[j].es_principal
    ensures Principals(a) == Principals(b)
  {
    if a != [] {
      forall j | 0 <= j < |a[1..]| ensures a[1..][j].es_principal == b[1..][j].es_principal {
        assert a[1..][j] == a[j + 1] && b[1..][j] == b[j + 1];
      }
      PrincipalsSameMarks(a[1..], b[1..]);
    }
  }

  /** Two images are the same slot: same id, url and alt text. */
  predicate SameSlot(a: Image, b: Image) {
    a.id == b.id && a.url_imagen == b.url_imagen && a.alt_text == b.alt_text
  }

  /** `handleImageChange`: slot `i` gets the new url, and nothing else changes. */
  function ChangeUrl(imgs: seq<Image>, i: int, url: string): (r: seq<Image>)
    requires 0 <= i < |imgs|
    ensures |r| == |imgs|
    ensures r[i].url_imagen == url && r[i].id == imgs[i].id
    ensures r[i].alt_text == imgs[i].alt_text && r[i].es_principal == imgs[i].es_principal
    ensures forall j :: 0 <= j < |imgs| && j != i ==> r[j] == imgs[j]
  {
    imgs[i := imgs[i].(url_imagen := url)]
  }

  lemma ChangeUrlKeepsPrincipals(imgs: seq<Image>, i: int, url: string)
    requires 0 <= i < |imgs|
    ensures Principals(ChangeUrl(imgs, i, url)) == Principals(imgs)
    ensures OnePrincipal(imgs) ==> OnePrincipal(ChangeUrl(imgs, i, url))
  {
    PrincipalsSameMarks(ChangeUrl(imgs, i, url), imgs);
  }

  /** `addImageField`: one new slot at the end with an empty url, principal
      exactly when the list was empty. */
  function AddImage(imgs: seq<Image>, id: string): (r: seq<Image>)
    ensures |r| == |imgs| + 1 && r[..|imgs|] == imgs
    ensures r[|imgs|].id == id && r[|imgs|].url_imagen == ""
    ensures r[|imgs|].es_principal <==> imgs == []
  {
    imgs + [Image(id, "", None, |imgs| == 0)]
  }

  lemma AddKeepsOnePrincipal(imgs: seq<Image>, id: string)
    requires OnePrincipal(imgs)
    ensures OnePrincipal(AddImage(imgs, id))
  {
    var r := AddImage(imgs, id);
    PrincipalsAppend(imgs, [r[|imgs|]]);
    assert r == imgs + [r[|imgs|]];
    assert Principals([r[|imgs|]]) == (if imgs == [] then 1 else 0) by {
      assert [r[|imgs|]][1..] == [];
    }
  }

  /** `imagenes.filter((_, i) => i !== index)`: slot `index` removed when
      there is one. */
  function WithoutSlot(imgs: seq<Image>, index: int): (r: seq<Image>)
    ensures 0 <= index < |imgs| ==> r == imgs[..index] + imgs[index + 1..]
    ensures !(0 <= index < |imgs|) ==> r == imgs
  {
    if 0 <= index < |imgs| then imgs[..index] + imgs[index + 1..] else imgs
  }

  /** The first image becomes principal when the list has none. */
  function PromoteFirst(imgs: seq<Image>): (r: seq<Image>)
    ensures |r| == |imgs|
    ensures forall j :: 0 <= j < |imgs| ==> SameSlot(r[j], imgs[j])
    ensures forall j :: 0 < j < |imgs| ==> r[j] == imgs[j]
    ensures Principals(imgs) > 0 ==> r == imgs
    ensures imgs != [] ==> Principals(r) == (if Principals(imgs) == 0 then 1 else Principals(imgs))
  {
    if imgs != [] && Principals(imgs) == 0 then
      var first := imgs[0].(es_principal := true);
      assert Principals([first] + imgs[1..]) == 1 by {
        assert ([first] + imgs[1..])[1..] == imgs[1..];
      }
      [first] + imgs[1..]
    else imgs
  }

  /** `removeImageField`. */
  function RemoveImage(imgs: seq<Image>, index: int): (r: seq<Image>)
    ensures |r| == |WithoutSlot(imgs, index)|
    ensures forall j :: 0 <= j < |r| ==> SameSlot(r[j], WithoutSlot(imgs, index)[j])
    ensures forall j :: 0 < j < |r| ==> r[j] == WithoutSlot(imgs, index)[j]
    ensures r != [] ==>
      (r[0].es_principal <==> WithoutSlot(imgs, index)[0].es_principal || Principals(WithoutSlot(imgs, index)) == 0)
    ensures r != [] ==> Principals(r) >= 1
  {
    PromoteFirst(WithoutSlot(imgs, index))
  }

  /** Removing a slot keeps the others in order: the slots before it keep
      their position, the ones after it move up by one. */
  lemma RemoveImageSlots(imgs: seq<Image>, index: int)
    requires 0 <= index < |imgs|
    ensures |RemoveImage(imgs, index)| == |imgs| - 1
    ensures forall j :: 0 <= j < index ==> SameSlot(RemoveImage(imgs, index)[j], imgs[j])
    ensures forall j :: index <= j < |imgs| - 1 ==> SameSlot(RemoveImage(imgs, index)[j], imgs[j + 1])
  {
    var rest := WithoutSlot(imgs, index);
    assert forall j :: 0 <= j < index ==> rest[j] == imgs[j];
    assert forall j :: index <= j < |imgs| - 1 ==> rest[j] == imgs[j + 1];
  }

  lemma RemoveKeepsOnePrincipal(imgs: seq<Image>, index: int)
    requires OnePrincipal(imgs)
    ensures OnePrincipal(RemoveImage(imgs, index))
  {
    var rest := WithoutSlot(imgs, index);
    if 0 <= index < |imgs| {
      assert imgs == imgs[..index] + [imgs[index]] + imgs[index + 1..];
      PrincipalsAppend(imgs[..index] + [imgs[index]], imgs[index + 1..]);
      PrincipalsAppend(imgs[..index], [imgs[index]]);
      PrincipalsAppend(imgs[..index], imgs[index + 1..]);
      assert Principals([imgs[index]]) <= 1 by {
        assert [imgs[index]][1..] == [];
      }
    }
  }

  /** `setPrincipalImage`: image `j` is principal exactly when `j` is the
      chosen index; every slot keeps its id, url and alt text. */
  function SetPrincipal(imgs: seq<Image>, index: int): (r: seq<Image>)
    ensures |r| == |imgs|
    ensures forall j :: 0 <= j < |imgs| ==> SameSlot(r[j], imgs[j]) && (r[j].es_principal <==> j == index)
  {
    seq(|imgs|, j requires 0 <= j < |imgs| => imgs[j].(es_principal := j == index))
  }

  /** Choosing an existing slot leaves exactly one principal image. */
  lemma SetPrincipalOne(imgs: seq<Image>, index: int)
    requires 0 <= index < |imgs|
    ensures OnePrincipal(SetPrincipal(imgs, index))
    ensures Principals(SetPrincipal(imgs, index)) == 1
  {
    var r := SetPrincipal(imgs, index);
    assert r == r[..index] + [r[index]] + r[index + 1..];
    PrincipalsAppend(r[..index] + [r[index]], r[index + 1..]);
    PrincipalsAppend(r[..index], [r[index]]);
    PrincipalsZero(r[..index]);
    PrincipalsZero(r[index + 1..]);
    assert Principals([r[index]]) == 1 by {
      assert [r[index]][1..] == [];
    }
  }

  // ------------------------------------------------------------ the form

  /** The inputs marked `required`: title, description, city and
      neighbourhood are not empty. The price input is `required` too, but it
      always shows a number, so it never blocks a submission. */
  predicate RequiredFilled(p: Property) {
    p.titulo != "" && p.descripcion != "" && p.ciudad != "" && p.barrio_sector != ""
  }

  /** A new draft cannot be submitted until the required fields are typed in. */
  lemma NewDraftNotSubmittable(created: int, now: nat)
    ensures !RequiredFilled(Draft(None, created, now))
  {
  }

  /** The form component: its `formData` state, and the timestamp the
      empty draft was built with. */
  class PropertyForm {
    var formData: Property
    const created: int

    /** `useState(emptyProperty)`. */
    constructor(created: int)
      ensures formData == EmptyProperty(created) && this.created == created
    {
      formData := EmptyProperty(created);
      this.created := created;
    }

    /** The effect on `[property]`, at time `now`. */
    method Open(property: Option<Property>, now: nat)
      modifies this
      ensures formData == Draft(property, created, now)
    {
      formData := Draft(property, created, now);
    }

    /** `handleChange` for a text or select input. */
    method HandleTextChange(k: FormKey, value: string)
      requires IsTextKey(k)
      modifies this
      ensures formData == WriteText(old(formData), k, value)
    {
      formData := WriteText(formData, k, value);
    }

    /** `handleChange` for a number input: the empty text stores 0. */
    method HandleNumberChange(k: FormKey, value: string)
      requires IsNumberKey(k) && NumberInput(value).Some?
      modifies this
      ensures formData == WriteNumber(old(formData), k, NumberInput(value).value)
      ensures value == "" ==> Read(formData, k) == Int(0)
    {
      formData := WriteNumber(formData, k, NumberInput(value).value);
    }

    /** `handleCheckboxChange`. */
    method HandleCheckboxChange(k: FormKey, checked: bool)
      requires IsCheckboxKey(k)
      modifies this
      ensures formData == WriteBool(old(formData), k, checked)
    {
      formData := WriteBool(formData, k, checked);
    }

    /** `handleImageChange`, for a slot the form displays. */
    method HandleImageChange(index: int, url: string)
      requires 0 <= index < |formData.imagenes|
      modifies this
      ensures formData == old(formData).(imagenes := ChangeUrl(old(formData.imagenes), index, url))
      ensures OnePrincipal(old(formData.imagenes)) ==> OnePrincipal(formData.imagenes)
    {
      ChangeUrlKeepsPrincipals(formData.imagenes, index, url);
      formData := formData.(imagenes := ChangeUrl(formData.imagenes, index, url));
    }

    /** `addImageField`, at time `now`. */
    method AddImageField(now: nat)
      modifies this
      ensures formData == old(formData).(imagenes := AddImage(old(formData.imagenes), "img_" + NatToString(now)))
      ensures OnePrincipal(old(formData.imagenes)) ==> OnePrincipal(formData.imagenes)
    {
      var id := "img_" + NatToString(now);
      if OnePrincipal(formData.imagenes) {
        AddKeepsOnePrincipal(formData.imagenes, id);
      }
      formData := formData.(imagenes := AddImage(formData.imagenes, id));
    }

    /** `removeImageField`. */
    method RemoveImageField(index: int)
      modifies this
      ensures formData == old(formData).(imagenes := RemoveImage(old(formData.imagenes), index))
      ensures OnePrincipal(old(formData.imagenes)) ==> OnePrincipal(formData.imagenes)
    {
      if OnePrincipal(formData.imagenes) {
        RemoveKeepsOnePrincipal(formData.imagenes, index);
      }
      formData := formData.(imagenes := RemoveImage(formData.imagenes, index));
    }

    /** `setPrincipalImage`. */
    method SetPrincipalImage(index: int)
      modifies this
      ensures formData == old(formData).(imagenes := SetPrincipal(old(formData.imagenes), index))
      ensures 0 <= index < |formData.imagenes| ==> OnePrincipal(formData.imagenes)
    {
      if 0 <= index < |formData.imagenes| {
        SetPrincipalOne(formData.imagenes, index);
      }
      formData := formData.(imagenes := SetPrincipal(formData.imagenes, index));
    }

    /** `handleSubmit` at time `now`: the record handed to `onSave`. The
        browser runs it only once the `required` fields are filled. */
    method HandleSubmit(now: int) returns (saved: Property)
      requires RequiredFilled(formData)
      ensures RequiredFilled(saved)
      ensures saved.fecha_publicacion == now
      ensures saved.(fecha_publicacion := formData.fecha_publicacion) == formData
    {
      saved := formData.(fecha_publicacion := now);
    }
  }
}

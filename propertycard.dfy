/** The listing card: which image it shows and the `src` it gives it. */
module PropertyCard {
  import opened JsValues
  import opened Types
  import PropertyForm

  /** The stock picture shown when a listing has no usable image. */
  const Placeholder := "https://picsum.photos/400/300"

  /** `imagenes.find(img => img.es_principal)`, as an index. */
  function FindPrincipal(imgs: seq<Image>): (r: Option<nat>)
    ensures r.Some? ==> r.value < |imgs| && imgs[r.value].es_principal
    ensures r.Some? ==> forall k :: 0 <= k < r.value ==> !imgs[k].es_principal
    ensures r.None? <==> forall k :: 0 <= k < |imgs| ==> !imgs[k].es_principal
  {
    if imgs == [] then None
    else if imgs[0].es_principal then Some(0)
    else
      match FindPrincipal(imgs[1..])
      case None => None
      case Some(k) => Some(k + 1)
  }

  /** `imagenPrincipal`: the first principal image, else the first image,
      else nothing. */
  function MainImage(imgs: seq<Image>): (r: Option<Image>)
    ensures r.None? <==> imgs == []
    ensures r.Some? ==> r.value in imgs
    ensures (exists k :: 0 <= k < |imgs| && imgs[k].es_principal) ==> r.Some? && r.value.es_principal
  {
    match FindPrincipal(imgs)
    case Some(k) => Some(imgs[k])
    case None => if imgs == [] then None else Some(imgs[0])
  }

  /** With a principal image, the card shows the first one. */
  lemma MainImageIsFirstPrincipal(imgs: seq<Image>, k: nat)
    requires k < |imgs| && imgs[k].es_principal
    requires forall j :: 0 <= j < k ==> !imgs[j].es_principal
    ensures MainImage(imgs) == Some(imgs[k])
  {
    var f := FindPrincipal(imgs);
    assert f.Some?;
    assert !(f.value < k);
    assert !(k < f.value);
  }

  /** Without one, it shows the first image. */
  lemma MainImageWithoutPrincipal(imgs: seq<Image>)
    requires imgs != []
    requires forall j :: 0 <= j < |imgs| ==> !imgs[j].es_principal
    ensures MainImage(imgs) == Some(imgs[0])
  {
  }

  /** Two principal slots of a list with one principal are the same slot. */
  lemma {:induction false} OnlyPrincipalSlot(imgs: seq<Image>, i: nat, j: nat)
    requires PropertyForm.Principals(imgs) == 1
    requires i < |imgs| && j < |imgs| && imgs[i].es_principal && imgs[j].es_principal
    ensures i == j
  {
    if i != 0 && j != 0 {
      assert imgs[1..][i - 1] == imgs[i] && imgs[1..][j - 1] == imgs[j];
      assert !imgs[0].es_principal by {
        if imgs[0].es_principal {
          PrincipalsAtLeastOne(imgs[1..], i - 1);
        }
      }
      OnlyPrincipalSlot(imgs[1..], i - 1, j - 1);
    } else if i != j {
      var k: nat := if i == 0 then j else i;
      PrincipalsAtLeastOne(imgs[1..], k - 1);
    }
  }

  lemma {:induction false} PrincipalsAtLeastOne(imgs: seq<Image>, k: nat)
    requires k < |imgs| && imgs[k].es_principal
    ensures PropertyForm.Principals(imgs) >= 1
  {
    if k > 0 {
      assert imgs[1..][k - 1] == imgs[k];
      PrincipalsAtLeastOne(imgs[1..], k - 1);
    }
  }

  /** Under the editor's one-principal rule, the card shows the principal
      image, whichever slot holds it. */
  lemma MainImageIsThePrincipal(imgs: seq<Image>, k: nat)
    requires PropertyForm.OnePrincipal(imgs)
    requires k < |imgs| && imgs[k].es_principal
    ensures MainImage(imgs) == Some(imgs[k])
  {
    PrincipalsAtLeastOne(imgs, k);
    var f := FindPrincipal(imgs);
    OnlyPrincipalSlot(imgs, f.value, k);
  }

  /** The `src` attribute: the chosen image's URL, or the placeholder when
      there is no image or its URL is empty. */
  function ImageSrc(imgs: seq<Image>): (src: string)
    ensures src != ""
    ensures src == Placeholder || exists img :: img in imgs && img.url_imagen == src
  {
    match MainImage(imgs)
    case Some(img) => if img.url_imagen != "" then img.url_imagen else Placeholder
    case None => Placeholder
  }

  /** A listing without images shows the placeholder. */
  lemma NoImagesPlaceholder(imgs: seq<Image>)
    requires imgs == []
    ensures ImageSrc(imgs) == Placeholder
  {
  }
}

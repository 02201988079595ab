/** The star widget of a testimonial: one fill per star, from the rating. */
module StarRating {

  /** How a star is drawn: whole, left half, or only its outline. */
  datatype Fill = Full | Half | Empty

  /** `totalStars` when the caller gives none. */
  const DefaultTotal: nat := 5

  /** The fill of the star whose 1-based value is `star`. */
  function FillOf(star: nat, rating: real): Fill {
    if star as real <= rating then Full
    else if star as real - 0.5 <= rating then Half
    else Empty
  }

  /** The row of `total` stars. */
  function Stars(rating: real, total: nat): (r: seq<Fill>)
    ensures |r| == total
  {
    seq(total, i requires 0 <= i < total => FillOf(i + 1, rating))
  }

  /** The row drawn without an explicit `totalStars`: five stars. */
  function DefaultStars(rating: real): (r: seq<Fill>)
    ensures |r| == 5
    ensures forall i :: 0 <= i < 5 ==> r[i] == FillOf(i + 1, rating)
  {
    Stars(rating, DefaultTotal)
  }

  /** Star i (1-based) is full exactly when i <= rating, and half exactly
      when it is not full and i - 0.5 <= rating. */
  lemma StarFill(rating: real, total: nat, i: nat)
    requires i < total
    ensures Stars(rating, total)[i] == Full <==> (i + 1) as real <= rating
    ensures Stars(rating, total)[i] == Half <==> rating < (i + 1) as real && (i + 1) as real - 0.5 <= rating
    ensures Stars(rating, total)[i] == Empty <==> rating < (i + 1) as real - 0.5
  {
  }

  /** Full stars come first, then at most one half star, then empty ones. */
  lemma StarsShape(rating: real, total: nat)
    ensures forall i, j :: 0 <= i < j < total && Stars(rating, total)[j] == Full ==> Stars(rating, total)[i] == Full
    ensures forall i, j :: 0 <= i < j < total && Stars(rating, total)[j] == Half ==> Stars(rating, total)[i] == Full
    ensures forall i, j :: 0 <= i < j < total && Stars(rating, total)[i] == Empty ==> Stars(rating, total)[j] == Empty
  {
  }

  /** As many full stars as the rating's whole part, within the row. */
  lemma FullCount(rating: real, total: nat)
    ensures var k := if rating.Floor < 0 then 0 else if rating.Floor > total then total else rating.Floor;
      (forall i :: 0 <= i < k ==> Stars(rating, total)[i] == Full) &&
      (forall i :: k <= i < total ==> Stars(rating, total)[i] != Full)
  {
  }

  /** A rating of at least `total` fills every star; one under 0.5 fills none. */
  lemma StarsExtremes(rating: real, total: nat)
    ensures total as real <= rating ==> forall i :: 0 <= i < total ==> Stars(rating, total)[i] == Full
    ensures rating < 0.5 ==> forall i :: 0 <= i < total ==> Stars(rating, total)[i] == Empty
  {
  }
}

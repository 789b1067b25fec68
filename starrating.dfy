/**
 * The five-star rating widget: how each star is drawn for a (possibly
 * fractional) rating, and which clicks are reported.
 */
module StarRating {
  import opened JsBuiltins

  /** How one star is drawn. */
  datatype Star = Half | Filled | Empty

  /** The star positions, left to right. */
  const Positions: seq<int> := [1, 2, 3, 4, 5]

  /** `renderStar`: half when the rating reaches half way into the star but
      not the star itself, filled when it reaches the star, empty otherwise. */
  function RenderStar(rating: real, position: int): (s: Star)
    ensures s == Half <==> position as real - 0.5 <= rating < position as real
    ensures s == Filled <==> rating >= position as real
    ensures s == Empty <==> rating < position as real - 0.5
  {
    var isHalf := rating - position as real + 0.5 >= 0.0 && rating - position as real < 0.0;
    var isFilled := rating - position as real >= 0.0;
    if isHalf then Half
    else if isFilled then Filled
    else Empty
  }

  /** The row of stars drawn for a rating. */
  function Stars(rating: real): (stars: seq<Star>)
    ensures |stars| == |Positions|
    ensures forall i :: 0 <= i < |stars| ==> stars[i] == RenderStar(rating, Positions[i])
  {
    seq(|Positions|, i requires 0 <= i < |Positions| => RenderStar(rating, Positions[i]))
  }

  /** The number of filled stars in a row. */
  function CountFilled(stars: seq<Star>): nat
  {
    if stars == [] then 0
    else CountFilled(stars[..|stars| - 1]) + (if stars[|stars| - 1] == Filled then 1 else 0)
  }

  lemma {:induction false} CountFilledPrefix(stars: seq<Star>, n: nat)
    requires n <= |stars|
    requires forall i :: 0 <= i < |stars| ==> (stars[i] == Filled <==> i < n)
    ensures CountFilled(stars) == n
  {
    if stars != [] {
      var init := stars[..|stars| - 1];
      if n == |stars| {
        CountFilledPrefix(init, n - 1);
      } else {
        CountFilledPrefix(init, n);
      }
    }
  }

  /** A whole-number rating draws no half star, fills exactly the positions up
      to the rating, and so fills as many stars as the rating (within 0..5). */
  lemma IntegerRating(rating: int)
    ensures var stars := Stars(rating as real);
            forall i :: 0 <= i < |stars| ==> stars[i] != Half && (stars[i] == Filled <==> Positions[i] <= rating)
    ensures 0 <= rating <= 5 ==> CountFilled(Stars(rating as real)) == rating
  {
    var stars := Stars(rating as real);
    forall i | 0 <= i < 5 ensures stars[i] != Half && (stars[i] == Filled <==> i < rating) {
      assert Positions[i] == i + 1;
    }
    if 0 <= rating <= 5 {
      CountFilledPrefix(stars, rating);
    }
  }

  /** A rating of n and a half fills the first n stars, halves the next and
      leaves the rest empty. */
  lemma HalfRating(n: nat)
    requires n < 5
    ensures var stars := Stars(n as real + 0.5);
            forall i :: 0 <= i < |stars| ==> stars[i] == if i < n then Filled else if i == n then Half else Empty
  {
    forall i | 0 <= i < 5 ensures Positions[i] == i + 1 {
    }
  }

  /** `handleClick`: a click is reported, as the clicked position, unless the
      widget is read-only or has nobody to report to. */
  function HandleClick(readonly: bool, hasOnChange: bool, selectedRating: int): (r: Option<int>)
    ensures r.Some? <==> !readonly && hasOnChange
    ensures r.Some? ==> r.value == selectedRating
  {
    if readonly || !hasOnChange then None else Some(selectedRating)
  }

  /** Every click the widget reports is a rating between 1 and 5. */
  lemma ClicksReportStarRatings(readonly: bool, hasOnChange: bool, i: int)
    requires 0 <= i < |Positions|
    ensures HandleClick(readonly, hasOnChange, Positions[i]).Some? ==>
              1 <= HandleClick(readonly, hasOnChange, Positions[i]).value <= 5
  {
  }
}

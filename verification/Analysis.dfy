/** The library functions the scores call, known only by the facts the scores rely on. */
module Analysis {
  import opened Products

  /** `math.exp`: positive, non-decreasing, one at zero. */
  ghost predicate ExpLike(exp: real -> real) {
    && exp(0.0) == 1.0
    && (forall x :: exp(x) > 0.0)
    && (forall x, y :: x <= y ==> exp(x) <= exp(y))
  }

  /** The normal distribution function: non-decreasing within [0, 1], one half at zero. */
  ghost predicate CdfLike(cdf: real -> real) {
    && cdf(0.0) == 0.5
    && (forall x :: 0.0 <= cdf(x) <= 1.0)
    && (forall x, y :: x <= y ==> cdf(x) <= cdf(y))
  }

  type Days = n: nat | n > 0 witness 1

  /** `0.5 ** (age / half_life)`: one when fresh, halved by a half-life, and multiplied up by one wait after another. */
  ghost predicate DecayLike(decay: (nat, Days) -> real) {
    && (forall age, halfLife :: 0.0 < decay(age, halfLife) <= 1.0)
    && (forall halfLife: Days :: decay(0, halfLife) == 1.0)
    && (forall halfLife: Days :: decay(halfLife, halfLife) == 0.5)
    && (forall age, wait, halfLife :: Compounds(decay, age, wait, halfLife))
  }

  ghost predicate Compounds(decay: (nat, Days) -> real, age: nat, wait: nat, halfLife: Days) {
    decay(age + wait, halfLife) == Times(decay(age, halfLife), decay(wait, halfLife))
  }

  /** Waiting never raises what is left. */
  lemma DecayFalls(decay: (nat, Days) -> real, age: nat, older: nat, halfLife: Days)
    requires DecayLike(decay) && age <= older
    ensures decay(older, halfLife) <= decay(age, halfLife)
  {
    assert Compounds(decay, age, older - age, halfLife);
    Fraction(decay(age, halfLife), decay(older - age, halfLife));
  }
}

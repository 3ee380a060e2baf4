/** The uniform random source `octet::random` used by the terrain classes.
    Its generator state is not modelled: the k-th call to `get(lo, hi)`
    consumes the k-th sample of an oracle of unit values and returns the
    point that far along [lo, hi]. */
module RandomSource {

  class Random {
    /** The oracle: the unit sample consumed by each successive draw. */
    const unit: nat -> real
    /** How many samples have been consumed so far. */
    var drawn: nat

    /** Every sample lies in [0, 1]. */
    ghost predicate Valid() {
      forall k: nat :: 0.0 <= unit(k) <= 1.0
    }

    constructor (unit: nat -> real)
      ensures this.unit == unit && drawn == 0
    {
      this.unit := unit;
      drawn := 0;
    }

    /** The value the k-th draw yields for the range [lo, hi]. */
    function Sample(k: nat, lo: real, hi: real): (v: real)
      ensures Valid() && lo <= hi ==> lo <= v <= hi
    {
      var u := unit(k);
      assert Valid() ==> 0.0 <= u <= 1.0;
      assert 0.0 <= u ==> 0.0 <= (hi - lo) * u || hi < lo;
      assert u <= 1.0 && lo <= hi ==> (hi - lo) * u <= hi - lo;
      lo + (hi - lo) * u
    }

    /** `get(lo, hi)`: consume the next sample. */
    method Get(lo: real, hi: real) returns (v: real)
      modifies this
      ensures drawn == old(drawn) + 1
      ensures v == Sample(old(drawn), lo, hi)
    {
      v := Sample(drawn, lo, hi);
      drawn := drawn + 1;
    }
  }
}

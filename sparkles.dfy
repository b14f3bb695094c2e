/** The sparkle element pool of `CursorEffects`: sparkles are taken from the end of the pool or made
    fresh, and come back reset. */
module Sparkles {

  /** A sparkle `div`: its class, its inline style and whether it is attached to the document. */
  class Sparkle {
    var className: string
    var cssText: string
    var attached: bool

    /** `document.createElement('div')` with class `sparkle`. */
    constructor ()
      ensures className == "sparkle" && cssText == "" && !attached
    {
      className := "sparkle";
      cssText := "";
      attached := false;
    }

    /** Detached, unstyled and with class `sparkle` only. */
    predicate IsReset()
      reads this
    {
      className == "sparkle" && cssText == "" && !attached
    }
  }

  class CursorEffects {
    var sparklePool: seq<Sparkle>

    /** Every pooled sparkle is reset. */
    ghost predicate Valid()
      reads this, set s | s in sparklePool
    {
      forall s :: s in sparklePool ==> s.IsReset()
    }

    constructor ()
      ensures Valid() && sparklePool == []
    {
      sparklePool := [];
    }

    /** `getSparkleFromPool()`: pops the last pooled sparkle, or makes a fresh one when the pool is
        empty. Either way the sparkle handed out is reset. */
    method GetSparkleFromPool() returns (sparkle: Sparkle)
      requires Valid()
      modifies this
      ensures Valid() && sparkle.IsReset()
      ensures |old(sparklePool)| > 0 ==>
                sparkle == old(sparklePool)[|old(sparklePool)| - 1] && sparklePool == old(sparklePool)[..|old(sparklePool)| - 1]
      ensures |old(sparklePool)| == 0 ==> fresh(sparkle) && sparklePool == []
    {
      if |sparklePool| > 0 {
        sparkle := sparklePool[|sparklePool| - 1];
        sparklePool := sparklePool[..|sparklePool| - 1];
        return;
      }
      sparkle := new Sparkle();
    }

    /** `returnSparkleToPool(sparkle)`: detaches the sparkle, clears its style and class, and pushes
        it onto the pool. */
    method ReturnSparkleToPool(sparkle: Sparkle)
      requires Valid()
      modifies this, sparkle
      ensures Valid() && sparkle.IsReset()
      ensures sparklePool == old(sparklePool) + [sparkle]
    {
      sparkle.attached := false;
      sparkle.cssText := "";
      sparkle.className := "sparkle";
      sparklePool := sparklePool + [sparkle];
    }
  }
}

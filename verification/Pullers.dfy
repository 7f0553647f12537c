/** The upstream of a pull operator (src/pushpull/puller.h): any sequence of answers. */
module Pullers {
  import opened Options

  /** The values among the first n answers. */
  function Values<T>(answer: nat -> Option<T>, n: nat): seq<T> {
    if n == 0 then []
    else if answer(n - 1).Some? then Values(answer, n - 1) + [answer(n - 1).value]
    else Values(answer, n - 1)
  }

  /** Answers its n-th pull, counted from zero, with `answer(n)`, a value or nothing. */
  class Upstream<T> {
    const answer: nat -> Option<T>
    var pulls: nat

    /** The values it has handed out. */
    ghost function Consumed(): seq<T>
      reads this
    {
      Values(answer, pulls)
    }

    constructor (answer: nat -> Option<T>)
      ensures this.answer == answer && pulls == 0 && Consumed() == []
    {
      this.answer, pulls := answer, 0;
    }

    method Pull() returns (x: Option<T>)
      modifies this
      ensures x == answer(old(pulls)) && pulls == old(pulls) + 1
      ensures Consumed() == if x.Some? then old(Consumed()) + [x.value] else old(Consumed())
    {
      x := answer(pulls);
      pulls := pulls + 1;
    }
  }
}

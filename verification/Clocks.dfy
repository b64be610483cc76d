/** The shared objects components read and set. */
module Clocks {

  class Clock {
    var time: nat

    constructor ()
      ensures time == 0
    {
      time := 0;
    }
  }

  class Latch {
    var value: bool

    constructor ()
      ensures !value
    {
      value := false;
    }
  }
}

/** The few Go notions every other module needs: an absent value, a value-or-error
    pair, fixed-width counters and clock readings. */
module GoTypes {
  datatype Option<+T> = None | Some(value: T)

  datatype Result<+T> = Ok(value: T) | Err(error: string)

  /** A clock reading in nanoseconds. Only order and equality of readings matter. */
  type Time = int

  const ZERO_TIME: Time := 0

  type Int32 = x: int | -0x8000_0000 <= x < 0x8000_0000

  /** What Go keeps of an integer stored in an int32. */
  function Wrap32(x: int): (r: Int32)
    ensures (x - r) % 0x1_0000_0000 == 0
    ensures -0x8000_0000 <= x < 0x8000_0000 ==> r == x
  {
    (x + 0x8000_0000) % 0x1_0000_0000 - 0x8000_0000
  }

  lemma WrapStep(x: int)
    ensures Wrap32(Wrap32(x) + 1) == Wrap32(x + 1)
  {
  }
}

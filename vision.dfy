/**
 * `Vision.shift_channel` of E7A/graphics/deprecated_vision.py: a saturating
 * brightness shift applied in place to one 8-bit image channel by two masked
 * assignments, of which the second sees the result of the first.
 */
module Vision {

  /** An element of a `uint8` array. */
  type Byte = x: int | 0 <= x < 256

  /** `uint8` addition, which wraps modulo 256. */
  function WrapAdd(v: Byte, d: int): (r: Byte) {
    (v + d) % 256
  }

  /** The intended effect on one element: add, clamping to the range of a byte. */
  function Shifted(v: Byte, amount: int): (r: Byte)
    ensures amount > 0 ==> r == if v + amount > 255 then 255 else v + amount
    ensures amount < 0 ==> r == if v + amount < 0 then 0 else v + amount
    ensures amount == 0 ==> r == v
  {
    if v + amount > 255 then 255 else if v + amount < 0 then 0 else v + amount
  }

  /**
   * `shift_channel(c, amount)`: for a positive amount, elements at or above
   * `255 - amount` become 255 and those below get `amount` added; for a
   * negative one, elements at or below `|amount|` become 0 and those above
   * lose `|amount|`. Returns the same array.
   */
  method ShiftChannel(c: array<Byte>, amount: int) returns (r: array<Byte>)
    requires -255 <= amount <= 255
    modifies c
    ensures r == c
    ensures forall i :: 0 <= i < c.Length ==> c[i] == Shifted(old(c[i]), amount)
  {
    ghost var original := c[..];
    if amount > 0 {
      var lim := 255 - amount;
      for i := 0 to c.Length
        invariant forall j :: 0 <= j < i ==> c[j] == if original[j] >= lim then 255 else original[j]
        invariant forall j :: i <= j < c.Length ==> c[j] == original[j]
      {
        if c[i] >= lim {
          c[i] := 255;
        }
      }
      for i := 0 to c.Length
        invariant forall j :: 0 <= j < i ==> c[j] == Shifted(original[j], amount)
        invariant forall j :: i <= j < c.Length ==> c[j] == if original[j] >= lim then 255 else original[j]
      {
        if c[i] < lim {
          c[i] := WrapAdd(c[i], amount);
        }
      }
    } else if amount < 0 {
      var magnitude := -amount;
      var lim := magnitude;
      for i := 0 to c.Length
        invariant forall j :: 0 <= j < i ==> c[j] == if original[j] <= lim then 0 else original[j]
        invariant forall j :: i <= j < c.Length ==> c[j] == original[j]
      {
        if c[i] <= lim {
          c[i] := 0;
        }
      }
      for i := 0 to c.Length
        invariant forall j :: 0 <= j < i ==> c[j] == Shifted(original[j], amount)
        invariant forall j :: i <= j < c.Length ==> c[j] == if original[j] <= lim then 0 else original[j]
      {
        if c[i] > lim {
          c[i] := WrapAdd(c[i], -magnitude);
        }
      }
    }
    r := c;
  }
}

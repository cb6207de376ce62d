/** A picture that is drawn on in place. */
module Canvas {

  datatype Point = Point(x: int, y: int)

  class Image {
    const pixels: array2<int>

    /** Every pixel starts out transparent. */
    constructor (width: nat, height: nat)
      ensures pixels.Length0 == width && pixels.Length1 == height && fresh(pixels)
      ensures forall a, b :: 0 <= a < width && 0 <= b < height ==> pixels[a, b] == 0
    {
      pixels := new int[width, height]((i, j) => 0);
    }

    predicate Contains(x: int, y: int) {
      0 <= x < pixels.Length0 && 0 <= y < pixels.Length1
    }

    /** A point outside the picture is ignored. */
    method Set(x: int, y: int, ink: int)
      modifies pixels
      ensures forall a, b :: Contains(a, b) ==> pixels[a, b] == if a == x && b == y then ink else old(pixels[a, b])
    {
      if Contains(x, y) {
        pixels[x, y] := ink;
      }
    }
  }
}

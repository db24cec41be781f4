/** Plane rotation (drm_blend.c): a rotation by 180 degrees is the same as reflecting both ways, so every transformation
    has two encodings, and a driver may support only one of them. */
module Rotation {
  // The values of the user-space interface: four rotations, of which exactly one is set, and two reflections.
  const ROTATE_0: bv8 := 1
  const ROTATE_90: bv8 := 2
  const ROTATE_180: bv8 := 4
  const ROTATE_270: bv8 := 8
  const REFLECT_X: bv8 := 16
  const REFLECT_Y: bv8 := 32
  const ROTATE_MASK: bv8 := 15
  const REFLECT_MASK: bv8 := 48

  predicate IsRotation(r: bv8) {
    && r & !(ROTATE_MASK | REFLECT_MASK) == 0
    && r & ROTATE_MASK in {ROTATE_0, ROTATE_90, ROTATE_180, ROTATE_270}
  }

  /** How many quarter turns. */
  function Turns(r: bv8): (n: nat)
    requires IsRotation(r)
    ensures n < 4
  {
    if r & ROTATE_90 != 0 then 1 else if r & ROTATE_180 != 0 then 2 else if r & ROTATE_270 != 0 then 3 else 0
  }

  datatype Point = Point(x: int, y: int)

  /** A quarter turn, counter-clockwise. */
  function Quarter(p: Point): Point {
    Point(-p.y, p.x)
  }

  function Turn(p: Point, n: nat): Point
    requires n < 4
  {
    if n == 0 then p
    else if n == 1 then Quarter(p)
    else if n == 2 then Quarter(Quarter(p))
    else Quarter(Quarter(Quarter(p)))
  }

  /** Where a point of the image goes: first it is reflected, then rotated. */
  function Image(r: bv8, p: Point): Point
    requires IsRotation(r)
  {
    Turn(Point(if r & REFLECT_X != 0 then -p.x else p.x, if r & REFLECT_Y != 0 then -p.y else p.y), Turns(r))
  }

  predicate Supported(r: bv8, supported: bv8) {
    r & !supported == 0
  }

  /** ffs(), for a value with a rotation bit. */
  function FindFirstSet(r: bv8): nat
    requires r in {ROTATE_0, ROTATE_90, ROTATE_180, ROTATE_270}
  {
    if r == ROTATE_0 then 1 else if r == ROTATE_90 then 2 else if r == ROTATE_180 then 3 else 4
  }

  function Bit(n: nat): bv8
    requires n < 4
  {
    if n == 0 then 1 else if n == 1 then 2 else if n == 2 then 4 else 8
  }

  /** Both encodings show the same. */
  ghost predicate SameImages(r: bv8, q: bv8)
    requires IsRotation(r) && IsRotation(q)
  {
    forall p :: Image(r, p) == Image(q, p)
  }

  /** drm_rotation_simplify: never changes what is shown. */
  function Simplify(rotation: bv8, supported: bv8): (r: bv8)
    requires IsRotation(rotation)
    ensures IsRotation(r) && SameImages(r, rotation)
    ensures r == rotation <==> rotation & !supported == 0
  {
    if rotation & !supported != 0 then
      var flipped := rotation ^ (REFLECT_X | REFLECT_Y);
      (flipped & REFLECT_MASK) | Bit((FindFirstSet(flipped & ROTATE_MASK) + 1) % 4)
    else rotation
  }

  /** It ends in a supported encoding if and only if the transformation has one. */
  lemma SimplifyFindsSupported(rotation: bv8, supported: bv8)
    requires IsRotation(rotation)
    ensures Supported(Simplify(rotation, supported), supported) <==>
            exists other :: IsRotation(other) && Supported(other, supported) && SameImages(other, rotation)
  {
    var simple := Simplify(rotation, supported);
    forall other | IsRotation(other) && Supported(other, supported) && SameImages(other, rotation)
      ensures Supported(simple, supported)
    {
      TwoEncodings(other, rotation);
    }
  }

  predicate FlipsX(r: bv8) {
    r & REFLECT_X != 0
  }

  predicate FlipsY(r: bv8) {
    r & REFLECT_Y != 0
  }

  lemma PartsDetermine(r: bv8, q: bv8)
    requires IsRotation(r) && IsRotation(q) && Turns(r) == Turns(q) && FlipsX(r) == FlipsX(q) && FlipsY(r) == FlipsY(q)
    ensures r == q
  {}

  lemma SimplifiedParts(q: bv8)
    requires IsRotation(q)
    ensures var r := Simplify(q, 0);
            Turns(r) == (Turns(q) + 2) % 4 && FlipsX(r) == !FlipsX(q) && FlipsY(r) == !FlipsY(q)
  {}

  /** A transformation has no encodings but the two. */
  lemma TwoEncodings(r: bv8, q: bv8)
    requires IsRotation(r) && IsRotation(q) && SameImages(r, q)
    ensures r == q || r == Simplify(q, 0)
  {
    assert Image(r, Point(1, 2)) == Image(q, Point(1, 2));
    OneImage(Turns(r), FlipsX(r), FlipsY(r), Turns(q), FlipsX(q), FlipsY(q));
    SimplifiedParts(q);
    if Turns(r) == Turns(q) {
      PartsDetermine(r, q);
    } else {
      PartsDetermine(r, Simplify(q, 0));
    }
  }

  lemma OneImage(m: nat, mx: bool, my: bool, n: nat, nx: bool, ny: bool)
    requires m < 4 && n < 4
    requires Turn(Point(if mx then -1 else 1, if my then -2 else 2), m)
             == Turn(Point(if nx then -1 else 1, if ny then -2 else 2), n)
    ensures (m == n && mx == nx && my == ny) || (m == (n + 2) % 4 && mx == !nx && my == !ny)
  {}
}

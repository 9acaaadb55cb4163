/** The crop rectangle of the image cropper under mouse drags: which handle a position hits, and how a drag moves
    the rectangle.  Both have to be read together. */
module ImageCropper {
  datatype Point = Point(x: int, y: int)

  /** A QRect: both corners belong to it. */
  datatype Rect = Rect(left: int, top: int, right: int, bottom: int)

  predicate Valid(r: Rect) {
    r.left <= r.right && r.top <= r.bottom
  }

  predicate Within(inner: Rect, outer: Rect) {
    outer.left <= inner.left && inner.right <= outer.right && outer.top <= inner.top && inner.bottom <= outer.bottom
  }

  predicate IsSquare(r: Rect) {
    r.right - r.left == r.bottom - r.top
  }

  // C++ division by two
  function Half(n: int): int {
    if n >= 0 then n / 2 else -(-n / 2)
  }

  function Center(r: Rect): Point {
    Point(Half(r.left + r.right), Half(r.top + r.bottom))
  }

  // QRect::contains for a valid rectangle; `proper` leaves out the border.
  predicate Contains(r: Rect, p: Point, proper: bool) {
    if proper then r.left < p.x < r.right && r.top < p.y < r.bottom
    else r.left <= p.x <= r.right && r.top <= p.y <= r.bottom
  }

  datatype Shape = Undefined | FixedRect | FixedEllipse | Rectangle | Square | Ellipse | Circle

  datatype Position =
    | OutsideRect | InsideRect
    | LeftTop | LeftMid | LeftBottom | RightTop | RightMid | RightBottom | BottomMid | TopMid

  const SELECTION_SQUARE: int := 8
  const MINIMUM: int := 16

  function Abs(n: int): int {
    if n < 0 then -n else n
  }

  // isMouseInsideSelectionSquare
  predicate Near(p: Point, q: Point) {
    Abs(p.x - q.x) * 2 <= SELECTION_SQUARE && Abs(p.y - q.y) * 2 <= SELECTION_SQUARE
  }

  // getPositionInCropperRect
  function Classify(r: Rect, p: Point): Position {
    var c := Center(r);
    if Near(p, Point(r.right, c.y)) then RightMid
    else if Near(p, Point(r.left, c.y)) then LeftMid
    else if Near(p, Point(c.x, r.bottom)) then BottomMid
    else if Near(p, Point(c.x, r.top)) then TopMid
    else if Near(p, Point(r.left, r.bottom)) then LeftBottom
    else if Near(p, Point(r.right, r.bottom)) then RightBottom
    else if Near(p, Point(r.left, r.top)) then LeftTop
    else if Near(p, Point(r.right, r.top)) then RightTop
    else if Contains(r, p, true) then InsideRect
    else OutsideRect
  }

  // An int compared with a size_t is converted first, so a negative distance counts as very large.
  function Unsigned(n: int): int {
    if n < 0 then n + 0x1_0000_0000_0000_0000 else n
  }

  predicate Wide(d: int) {
    Unsigned(d) >= MINIMUM
  }

  // The two distances a corner drag is decided on.
  function Dx(r: Rect, pos: Position, p: Point): int {
    match pos
    case RightBottom => p.x - r.left
    case LeftBottom => r.right - p.x
    case LeftTop => r.right - p.x
    case _ => p.x - r.right
  }

  function Dy(r: Rect, pos: Position, p: Point): int {
    if pos == RightBottom || pos == LeftBottom then p.y - r.top else r.bottom - p.y
  }

  predicate Corner(pos: Position) {
    pos in {RightBottom, LeftBottom, LeftTop, RightTop}
  }

  predicate Free(shape: Shape) {
    shape == Rectangle || shape == Ellipse
  }

  predicate Equal(shape: Shape) {
    shape == Square || shape == Circle
  }

  // Dragging a corner of a free shape moves the two sides that meet there.
  function DragFree(r: Rect, pos: Position, p: Point): Rect {
    var wide, high := Wide(Dx(r, pos, p)), Wide(Dy(r, pos, p));
    match pos
    case RightBottom => r.(right := if wide then p.x else r.right, bottom := if high then p.y else r.bottom)
    case LeftBottom => r.(left := if wide then p.x else r.left, bottom := if high then p.y else r.bottom)
    case LeftTop => r.(left := if wide then p.x else r.left, top := if high then p.y else r.top)
    case _ => r.(right := if wide then p.x else r.right, top := if high then p.y else r.top)
  }

  // Dragging a corner of a square or a circle.
  function DragEqual(image: Rect, r: Rect, pos: Position, p: Point): Rect {
    var dx, dy := Dx(r, pos, p), Dy(r, pos, p);
    match pos
    case RightBottom =>
      if dx > dy && dx + r.top <= image.bottom then r.(bottom := r.top + dx, right := p.x)
      else if dx <= dy && dy + r.left <= image.right then r.(bottom := p.y, right := dy + r.left)
      else r
    case LeftBottom =>
      if dx > dy && dx + r.top <= image.bottom then r.(bottom := r.top + dx, left := p.x)
      else if dx <= dy && r.right - dy >= image.left then r.(bottom := p.y, left := r.right - dy)
      else r
    case LeftTop =>
      if dx > dy && r.bottom - dx <= image.top then r.(top := r.bottom - dx, left := p.x)
      else if dx <= dy && r.right - dy >= image.left then r.(top := p.y, left := r.right - dy)
      else r
    case _ =>
      if dx < dy && dy + r.left <= image.right then r.(right := dy + r.left, top := p.y)
      else if dx >= dy && r.bottom - dx >= image.top then r.(bottom := p.x, left := p.x - dx)
      else r
  }

  // An offset that would carry a side over the border of the image is dropped.
  function Offset(offset: int, low: int, high: int, imageLow: int, imageHigh: int): int {
    if offset > 0 then if high + offset > imageHigh then 0 else offset
    else if low + offset < imageLow then 0 else offset
  }

  /** moveSelectionFrame */
  function MoveFrame(image: Rect, shape: Shape, r: Rect, pos: Position, p: Point, xOffset: int, yOffset: int): Rect {
    if Corner(pos) then
      if !Wide(Dx(r, pos, p)) && !Wide(Dy(r, pos, p)) then r
      else if Free(shape) then DragFree(r, pos, p)
      else if Equal(shape) then DragEqual(image, r, pos, p)
      else r
    else if pos == InsideRect then
      var x := Offset(xOffset, r.left, r.right, image.left, image.right);
      var y := Offset(yOffset, r.top, r.bottom, image.top, image.bottom);
      Rect(r.left + x, r.top + y, r.right + x, r.bottom + y)
    else r
  }

  datatype Label = Label(image: Rect, shape: Shape, crop: Rect, pressed: bool, pressedPos: Point)

  datatype Event = Press(p: Point) | Move(p: Point) | Release

  function Apply(l: Label, e: Event): Label {
    match e
    case Press(p) => l.(pressed := true, pressedPos := p)
    case Release => l.(pressed := false)
    case Move(p) =>
      if !l.pressed || !Contains(l.image, p, false) then l
      else
        l.(pressedPos := p,
           crop := MoveFrame(l.image, l.shape, l.crop, Classify(l.crop, p), p,
                             p.x - l.pressedPos.x, p.y - l.pressedPos.y))
  }

  function Exec(l: Label, events: seq<Event>): Label
    decreases |events|
  {
    if events == [] then l else Exec(Apply(l, events[0]), events[1..])
  }

  lemma CenterInside(r: Rect)
    requires Valid(r)
    ensures r.left <= Center(r).x <= r.right && r.top <= Center(r).y <= r.bottom
  {
  }

  /** A position that counts as a corner is at least five pixels from both midlines and at most four from the
      corner, so both distances point away from the opposite sides. */
  lemma CornerDistances(r: Rect, p: Point)
    requires Valid(r) && Corner(Classify(r, p))
    ensures var pos := Classify(r, p);
            && Dy(r, pos, p) >= 5
            && (pos == RightTop ==> -4 <= Dx(r, pos, p) <= 4 && p.x >= r.left + 5)
            && (pos != RightTop ==> Dx(r, pos, p) >= 5)
  {
    CenterInside(r);
  }

  /** The branch of the top right corner that would write the horizontal position into the bottom side is never
      taken. */
  lemma TopRightBranchUnreachable(r: Rect, p: Point)
    requires Valid(r) && Classify(r, p) == RightTop
    ensures Dx(r, RightTop, p) < Dy(r, RightTop, p)
  {
    CornerDistances(r, p);
  }

  // A drag with the button down and the pointer over the image.
  predicate Dragging(l: Label, p: Point) {
    l.pressed && Contains(l.image, p, false)
  }

  /** Which handle a position hits, for a rectangle big enough for its handles not to meet: each handle takes exactly the
      positions at most four pixels from it in both directions, the inside is the rest within the border. */
  lemma HandlesAreExact(r: Rect, p: Point)
    requires r.right - r.left >= 18 && r.bottom - r.top >= 18
    ensures Classify(r, p) == LeftTop <==> -4 <= p.x - r.left <= 4 && -4 <= p.y - r.top <= 4
    ensures Classify(r, p) == RightTop <==> -4 <= p.x - r.right <= 4 && -4 <= p.y - r.top <= 4
    ensures Classify(r, p) == LeftBottom <==> -4 <= p.x - r.left <= 4 && -4 <= p.y - r.bottom <= 4
    ensures Classify(r, p) == RightBottom <==> -4 <= p.x - r.right <= 4 && -4 <= p.y - r.bottom <= 4
    ensures Classify(r, p) == InsideRect ==> r.left < p.x < r.right && r.top < p.y < r.bottom
    ensures r.left + 4 < p.x < r.right - 4 && r.top + 4 < p.y < r.bottom - 4 ==> Classify(r, p) == InsideRect
  {
    HalfBetween(r.left, r.right);
    HalfBetween(r.top, r.bottom);
  }

  lemma HalfBetween(low: int, high: int)
    requires high - low >= 18
    ensures low + 9 <= Half(low + high) <= high - 9
  {
  }

  /** Dragging the inside shifts both sides of a direction by what the pointer moved since the last event, unless the
      side in front would leave the image, and never changes the size. */
  lemma InsideDragMoves(l: Label, p: Point)
    requires Dragging(l, p) && Classify(l.crop, p) == InsideRect
    ensures var r, r' := l.crop, Apply(l, Move(p)).crop;
            var dx, dy := p.x - l.pressedPos.x, p.y - l.pressedPos.y;
            && r'.left - r.left == r'.right - r.right
               == (if (dx > 0 && r.right + dx > l.image.right) || (dx <= 0 && r.left + dx < l.image.left) then 0 else dx)
            && r'.top - r.top == r'.bottom - r.bottom
               == (if (dy > 0 && r.bottom + dy > l.image.bottom) || (dy <= 0 && r.top + dy < l.image.top) then 0 else dy)
            && Apply(l, Move(p)).pressedPos == p
  {
  }

  /** Dragging a corner of a free shape brings each of the two sides that meet there to the pointer, if that leaves them
      at least sixteen pixels from the opposite side; at the top right the right side only ever moves inwards. */
  lemma FreeCornerMoves(l: Label, p: Point)
    requires Valid(l.crop) && Dragging(l, p) && Free(l.shape) && Corner(Classify(l.crop, p))
    ensures var r := l.crop;
            Apply(l, Move(p)).crop ==
            match Classify(r, p)
            case LeftTop => r.(left := if r.right - p.x >= 16 then p.x else r.left,
                               top := if r.bottom - p.y >= 16 then p.y else r.top)
            case LeftBottom => r.(left := if r.right - p.x >= 16 then p.x else r.left,
                                  bottom := if p.y - r.top >= 16 then p.y else r.bottom)
            case RightBottom => r.(right := if p.x - r.left >= 16 then p.x else r.right,
                                   bottom := if p.y - r.top >= 16 then p.y else r.bottom)
            case _ => r.(right := if p.x < r.right then p.x else r.right,
                         top := if r.bottom - p.y >= 16 then p.y else r.top)
  {
    CornerDistances(l.crop, p);
  }

  function Max(x: int, y: int): int {
    if x > y then x else y
  }

  /** Dragging a corner of a square or circle makes it the square over the longer of the pointer's two distances from the
      opposite corner, which stays where it is, if that is at least sixteen pixels and the side that follows passes its
      test against the image; otherwise nothing moves.  At the top left that test is the wrong way round, and at the top
      right the vertical distance alone counts. */
  lemma EqualCornerMoves(l: Label, p: Point)
    requires Valid(l.crop) && Dragging(l, p) && Equal(l.shape) && Corner(Classify(l.crop, p))
    ensures var r, image := l.crop, l.image;
            Apply(l, Move(p)).crop ==
            match Classify(r, p)
            case RightBottom =>
              var dx, dy := p.x - r.left, p.y - r.top;
              var k := Max(dx, dy);
              if k >= 16 && (if dx > dy then r.top + k <= image.bottom else r.left + k <= image.right)
              then Rect(r.left, r.top, r.left + k, r.top + k) else r
            case LeftBottom =>
              var dx, dy := r.right - p.x, p.y - r.top;
              var k := Max(dx, dy);
              if k >= 16 && (if dx > dy then r.top + k <= image.bottom else r.right - k >= image.left)
              then Rect(r.right - k, r.top, r.right, r.top + k) else r
            case LeftTop =>
              var dx, dy := r.right - p.x, r.bottom - p.y;
              var k := Max(dx, dy);
              if k >= 16 && (if dx > dy then r.bottom - k <= image.top else r.right - k >= image.left)
              then Rect(r.right - k, r.bottom - k, r.right, r.bottom) else r
            case _ =>
              var k := r.bottom - p.y;
              if (k >= 16 || p.x < r.right) && r.left + k <= image.right
              then Rect(r.left, r.bottom - k, r.left + k, r.bottom) else r
  {
    CornerDistances(l.crop, p);
  }

  /** No other position moves anything, and without the button, or with the pointer off the image, none does. */
  lemma NothingElseMoves(l: Label, e: Event)
    requires e.Move? ==> !Dragging(l, e.p) || !(Corner(Classify(l.crop, e.p)) || Classify(l.crop, e.p) == InsideRect)
    ensures Apply(l, e).crop == l.crop && Apply(l, e).image == l.image && Apply(l, e).shape == l.shape
    ensures e.Press? ==> Apply(l, e).pressed && Apply(l, e).pressedPos == e.p
    ensures e.Release? ==> !Apply(l, e).pressed
  {
  }

  lemma FreeDrag(image: Rect, r: Rect, p: Point)
    requires Valid(r) && Within(r, image) && Contains(image, p, false) && Corner(Classify(r, p))
    ensures Valid(DragFree(r, Classify(r, p), p)) && Within(DragFree(r, Classify(r, p), p), image)
  {
    CenterInside(r);
    CornerDistances(r, p);
    CornerSides(r, p);
  }

  // A corner position lies beyond the middle, as seen from the opposite sides.
  lemma CornerSides(r: Rect, p: Point)
    requires Valid(r) && Corner(Classify(r, p))
    ensures var pos := Classify(r, p);
            && (pos == RightBottom || pos == RightTop ==> r.left < p.x)
            && (pos == LeftBottom || pos == LeftTop ==> p.x < r.right)
            && (pos == RightBottom || pos == LeftBottom ==> r.top < p.y)
            && (pos == RightTop || pos == LeftTop ==> p.y < r.bottom)
  {
    CornerDistances(r, p);
  }

  lemma FreeStep(l: Label, e: Event)
    requires Free(l.shape) && Valid(l.crop) && Within(l.crop, l.image)
    ensures Valid(Apply(l, e).crop) && Within(Apply(l, e).crop, l.image)
  {
    if e.Move? && Contains(l.image, e.p, false) && Corner(Classify(l.crop, e.p)) {
      FreeDrag(l.image, l.crop, e.p);
    }
  }

  /** Rectangle and ellipse: every drag keeps a valid crop rectangle inside the image. */
  lemma {:induction false} FreeShapesStayInside(l: Label, events: seq<Event>)
    requires Free(l.shape) && Valid(l.crop) && Within(l.crop, l.image)
    ensures Valid(Exec(l, events).crop) && Within(Exec(l, events).crop, l.image)
    decreases |events|
  {
    if events != [] {
      FreeStep(l, events[0]);
      FreeShapesStayInside(Apply(l, events[0]), events[1..]);
    }
  }

  lemma EqualDrag(image: Rect, r: Rect, p: Point)
    requires Valid(r) && IsSquare(r) && Corner(Classify(r, p))
    ensures Valid(DragEqual(image, r, Classify(r, p), p)) && IsSquare(DragEqual(image, r, Classify(r, p), p))
  {
    CornerDistances(r, p);
  }

  lemma EqualStep(l: Label, e: Event)
    requires Equal(l.shape) && Valid(l.crop) && IsSquare(l.crop)
    ensures Valid(Apply(l, e).crop) && IsSquare(Apply(l, e).crop)
  {
    if e.Move? && Corner(Classify(l.crop, e.p)) {
      EqualDrag(l.image, l.crop, e.p);
    }
  }

  /** Square and circle: every drag keeps the crop rectangle valid and square. */
  lemma {:induction false} SquareStaysSquare(l: Label, events: seq<Event>)
    requires Equal(l.shape) && Valid(l.crop) && IsSquare(l.crop)
    ensures Valid(Exec(l, events).crop) && IsSquare(Exec(l, events).crop)
    decreases |events|
  {
    if events != [] {
      EqualStep(l, events[0]);
      SquareStaysSquare(Apply(l, events[0]), events[1..]);
    }
  }

  /** The one drag that carries a square over the border: the top left corner pulled further left than up, when the
      new top side would lie above the image.  The code asks for the opposite there. */
  predicate Escapes(l: Label, e: Event) {
    && e.Move? && l.pressed && Contains(l.image, e.p, false)
    && Classify(l.crop, e.p) == LeftTop
    && var dx, dy := Dx(l.crop, LeftTop, e.p), Dy(l.crop, LeftTop, e.p);
       dx > dy && dx >= MINIMUM && l.crop.bottom - dx < l.image.top
  }

  lemma EqualDragInside(image: Rect, r: Rect, p: Point)
    requires Valid(r) && IsSquare(r) && Within(r, image) && Contains(image, p, false) && Corner(Classify(r, p))
    ensures var pos := Classify(r, p);
            Within(DragEqual(image, r, pos, p), image)
            <==> !(pos == LeftTop && Dx(r, pos, p) > Dy(r, pos, p) && r.bottom - Dx(r, pos, p) < image.top)
  {
    CornerDistances(r, p);
  }

  /** A square inside the image stays inside exactly when the step is not that drag. */
  lemma SquareStaysInsideIff(l: Label, e: Event)
    requires Equal(l.shape) && Valid(l.crop) && IsSquare(l.crop) && Within(l.crop, l.image)
    ensures Within(Apply(l, e).crop, l.image) <==> !Escapes(l, e)
  {
    if e.Move? && Contains(l.image, e.p, false) && Corner(Classify(l.crop, e.p)) {
      CornerDistances(l.crop, e.p);
      EqualDragInside(l.image, l.crop, e.p);
    }
  }

  ghost predicate NeverEscapes(l: Label, events: seq<Event>)
    decreases |events|
  {
    events == [] || (!Escapes(l, events[0]) && NeverEscapes(Apply(l, events[0]), events[1..]))
  }

  /** Over whole drags: a square is inside the image after every step exactly when it never escapes. */
  lemma {:induction false} SquareRunStaysInsideIff(l: Label, events: seq<Event>)
    requires Equal(l.shape) && Valid(l.crop) && IsSquare(l.crop) && Within(l.crop, l.image)
    ensures NeverEscapes(l, events)
            <==> forall k: nat :: k <= |events| ==> Within(Exec(l, events[..k]).crop, l.image)
    decreases |events|
  {
    if events == [] {
      assert Exec(l, events[..0]) == l;
    } else {
      var m := Apply(l, events[0]);
      EqualStep(l, events[0]);
      SquareStaysInsideIff(l, events[0]);
      forall k: nat | k <= |events|
        ensures Exec(l, events[..k]) == if k == 0 then l else Exec(m, events[1..][..k - 1])
      {
        if k > 0 { assert events[..k][1..] == events[1..][..k - 1]; }
      }
      if Within(m.crop, l.image) {
        SquareRunStaysInsideIff(m, events[1..]);
        if NeverEscapes(m, events[1..]) {
        } else {
          var k: nat :| k <= |events[1..]| && !Within(Exec(m, events[1..][..k]).crop, l.image);
          assert !Within(Exec(l, events[..k + 1]).crop, l.image);
        }
      } else {
        assert events[1..][..0] == [];
        assert !Within(Exec(l, events[..1]).crop, l.image);
      }
    }
  }

  /** Such a drag exists: a square of 40 pixels near the top of an image of 200. */
  lemma SquareCanEscape()
    ensures var l := Label(Rect(0, 0, 199, 199), Square, Rect(50, 0, 90, 40), true, Point(50, 0));
            && Within(l.crop, l.image) && IsSquare(l.crop) && Escapes(l, Move(Point(48, 1)))
            && Apply(l, Move(Point(48, 1))).crop == Rect(48, -2, 90, 40)
  {
  }
}

/** The cropper label with its mouse handlers; moveSelectionFrame works on the crop rectangle in place. */
module CropperLabel {
  import opened ImageCropper

  class ImageCropperQLabel {
    var shape: Shape
    var imageRect: Rect
    var left: int
    var top: int
    var right: int
    var bottom: int
    var isLbuttonPressed: bool
    var pressedPos: Point
    var currMovedPos: Point

    function Crop(): Rect
      reads this
    {
      Rect(left, top, right, bottom)
    }

    function View(): Label
      reads this
    {
      Label(imageRect, shape, Crop(), isLbuttonPressed, pressedPos)
    }

    constructor (shape: Shape, image: Rect, crop: Rect)
      ensures View() == Label(image, shape, crop, false, Point(0, 0))
    {
      this.shape, imageRect := shape, image;
      left, top, right, bottom := crop.left, crop.top, crop.right, crop.bottom;
      isLbuttonPressed, pressedPos, currMovedPos := false, Point(0, 0), Point(0, 0);
    }

    method MousePressEvent(pos: Point)
      modifies this
      ensures View() == Apply(old(View()), Press(pos))
    {
      isLbuttonPressed := true;
      currMovedPos, pressedPos := pos, pos;
    }

    method MouseReleaseEvent()
      modifies this
      ensures View() == Apply(old(View()), Release)
    {
      isLbuttonPressed := false;
    }

    method MouseMoveEvent(pos: Point)
      modifies this
      ensures View() == Apply(old(View()), Move(pos))
    {
      currMovedPos := pos;
      var status := Classify(Crop(), currMovedPos);
      if !isLbuttonPressed || !Contains(imageRect, currMovedPos, false) {
        return;
      }
      var xOffset, yOffset := currMovedPos.x - pressedPos.x, currMovedPos.y - pressedPos.y;
      pressedPos := currMovedPos;
      MoveSelectionFrame(status, xOffset, yOffset);
    }

    method MoveSelectionFrame(pos: Position, xOffset: int, yOffset: int)
      modifies this`left, this`top, this`right, this`bottom
      ensures Crop() == MoveFrame(imageRect, shape, old(Crop()), pos, currMovedPos, xOffset, yOffset)
    {
      if pos == OutsideRect {
        return;
      } else if pos == RightBottom {
        DragRightBottom(currMovedPos.x - left, currMovedPos.y - top);
      } else if pos == LeftBottom {
        DragLeftBottom(right - currMovedPos.x, currMovedPos.y - top);
      } else if pos == LeftTop {
        DragLeftTop(right - currMovedPos.x, bottom - currMovedPos.y);
      } else if pos == RightTop {
        DragRightTop(currMovedPos.x - right, bottom - currMovedPos.y);
      } else if pos == InsideRect {
        MoveInside(xOffset, yOffset);
      }
    }

    method DragRightBottom(dx: int, dy: int)
      requires dx == Dx(Crop(), RightBottom, currMovedPos) && dy == Dy(Crop(), RightBottom, currMovedPos)
      modifies this`right, this`bottom
      ensures Crop() == MoveFrame(imageRect, shape, old(Crop()), RightBottom, currMovedPos, 0, 0)
    {
      if Unsigned(dx) < MINIMUM && Unsigned(dy) < MINIMUM {
        return;
      }
      match shape {
        case Rectangle | Ellipse =>
          if Unsigned(dx) >= MINIMUM { right := currMovedPos.x; }
          if Unsigned(dy) >= MINIMUM { bottom := currMovedPos.y; }
        case Square | Circle =>
          if dx > dy && dx + top <= imageRect.bottom {
            bottom := top + dx;
            right := currMovedPos.x;
          } else if dx <= dy && dy + left <= imageRect.right {
            bottom := currMovedPos.y;
            right := dy + left;
          }
        case _ =>
      }
    }

    method DragLeftBottom(dx: int, dy: int)
      requires dx == Dx(Crop(), LeftBottom, currMovedPos) && dy == Dy(Crop(), LeftBottom, currMovedPos)
      modifies this`left, this`bottom
      ensures Crop() == MoveFrame(imageRect, shape, old(Crop()), LeftBottom, currMovedPos, 0, 0)
    {
      if Unsigned(dx) < MINIMUM && Unsigned(dy) < MINIMUM {
        return;
      }
      match shape {
        case Rectangle | Ellipse =>
          if Unsigned(dx) >= MINIMUM { left := currMovedPos.x; }
          if Unsigned(dy) >= MINIMUM { bottom := currMovedPos.y; }
        case Square | Circle =>
          if dx > dy && dx + top <= imageRect.bottom {
            bottom := top + dx;
            left := currMovedPos.x;
          } else if dx <= dy && right - dy >= imageRect.left {
            bottom := currMovedPos.y;
            left := right - dy;
          }
        case _ =>
      }
    }

    method DragLeftTop(dx: int, dy: int)
      requires dx == Dx(Crop(), LeftTop, currMovedPos) && dy == Dy(Crop(), LeftTop, currMovedPos)
      modifies this`left, this`top
      ensures Crop() == MoveFrame(imageRect, shape, old(Crop()), LeftTop, currMovedPos, 0, 0)
    {
      if Unsigned(dx) < MINIMUM && Unsigned(dy) < MINIMUM {
        return;
      }
      match shape {
        case Rectangle | Ellipse =>
          if Unsigned(dx) >= MINIMUM { left := currMovedPos.x; }
          if Unsigned(dy) >= MINIMUM { top := currMovedPos.y; }
        case Square | Circle =>
          if dx > dy && bottom - dx <= imageRect.top {
            top := bottom - dx;
            left := currMovedPos.x;
          } else if dx <= dy && right - dy >= imageRect.left {
            top := currMovedPos.y;
            left := right - dy;
          }
        case _ =>
      }
    }

    method DragRightTop(dx: int, dy: int)
      requires dx == Dx(Crop(), RightTop, currMovedPos) && dy == Dy(Crop(), RightTop, currMovedPos)
      modifies this`left, this`top, this`right, this`bottom
      ensures Crop() == MoveFrame(imageRect, shape, old(Crop()), RightTop, currMovedPos, 0, 0)
    {
      if Unsigned(dx) < MINIMUM && Unsigned(dy) < MINIMUM {
        return;
      }
      match shape {
        case Rectangle | Ellipse =>
          if Unsigned(dx) >= MINIMUM { right := currMovedPos.x; }
          if Unsigned(dy) >= MINIMUM { top := currMovedPos.y; }
        case Square | Circle =>
          if dx < dy && dy + left <= imageRect.right {
            right := dy + left;
            top := currMovedPos.y;
          } else if dx >= dy && bottom - dx >= imageRect.top {
            bottom := currMovedPos.x;
            left := bottom - dx;
          }
        case _ =>
      }
    }

    method MoveInside(xOffset: int, yOffset: int)
      modifies this`left, this`top, this`right, this`bottom
      ensures Crop() == MoveFrame(imageRect, shape, old(Crop()), InsideRect, currMovedPos, xOffset, yOffset)
    {
      var x, y := xOffset, yOffset;
      if x > 0 {
        if right + x > imageRect.right { x := 0; }
      } else {
        if left + x < imageRect.left { x := 0; }
      }
      if y > 0 {
        if bottom + y > imageRect.bottom { y := 0; }
      } else {
        if top + y < imageRect.top { y := 0; }
      }
      right, bottom := right + x, bottom + y;
      left, top := left + x, top + y;
    }
  }
}

// The drawing tools of the ImGui front end (src/Tools/*.cpp): the line,
// line-strip, circle and arc tools. Each tool is an object with a preview
// shape and one or two "started" flags that its event handlers update click
// by click; the handlers also write the navigator's preview-point fields and
// hand finished shapes to the navigator.
//
// The tools are written against a navigator that offers `AddLine(LineShape)`,
// `AddCircle` and `AddArc` and a `currentShapeColor`; those exist only as
// commented-out code (src/TskHost.cpp:746-784), so the host below records the
// shapes handed to it in a log, refusing them as that code does: a line whose
// end points coincide, a circle or arc of radius 0. The two-point
// `AddLine(p1, p2)` that does exist is modelled as the navigator writes it
// (identical end points are refused). Distances, vector
// lengths and `acos` are floating-point library calls and come in as
// function parameters.

module DrawingTools {
  import opened Geometry

  /** An RGBA colour (`glm::vec4` / `ImVec4`), components as in the program (0..255). */
  datatype Color = Color(r: real, g: real, b: real, a: real)

  /** `DEFAULT_LINE_THICKNESS` and `DEFAULT_LINE_COLOR` of config.h. */
  const DefaultLineThickness: real := 1.0
  const DefaultLineColor: Color := Color(0.0, 0.0, 0.0, 255.0)
  const Transparent: Color := Color(0.0, 0.0, 0.0, 0.0)
  const Origin: Vec2 := Vec2(0.0, 0.0)

  datatype LineShape = LineShape(p1: Vec2, p2: Vec2, thickness: real, color: Color)
  datatype CircleShape = CircleShape(center: Vec2, radius: real, thickness: real, color: Color)
  datatype ArcShape = ArcShape(center: Vec2, radius: real, startAngle: real, endAngle: real, thickness: real, color: Color)

  /** What a tool handed to the navigator. */
  datatype Drawn =
    | DrawnLine(line: LineShape)
    | DrawnSegment(from: Vec2, to: Vec2, thickness: real)
    | DrawnCircle(circle: CircleShape)
    | DrawnArc(arc: ArcShape)

  /** The navigator's safety checks: a shape of zero extent is not added. */
  predicate Drawable(d: Drawn)
  {
    match d
    case DrawnLine(line) => line.p1 != line.p2
    case DrawnSegment(from, to, _) => from != to
    case DrawnCircle(circle) => circle.radius != 0.0
    case DrawnArc(arc) => arc.radius != 0.0
  }

  /** What the navigator's log gains when `d` is handed to it. */
  function Accepted(d: Drawn): (r: seq<Drawn>)
    ensures Drawable(d) <==> r == [d]
    ensures !Drawable(d) <==> r == []
  {
    if Drawable(d) then [d] else []
  }

  /** `b::distance` / `glm::distance` of two points, a parameter of the model. */
  type Distance = (Vec2, Vec2) -> real

  /** The vector from `center` to `p` with its y axis flipped to point up
    * (ArcTool.cpp:62-63 and 87-88). */
  function UpwardOffset(p: Vec2, center: Vec2): (r: Vec2)
    ensures r.x == p.x - center.x && r.y == center.y - p.y
  {
    Vec2(p.x - center.x, -(p.y - center.y))
  }

  /** `angle(v)` of ArcTool.cpp: the angle from the x axis to `v` in degrees,
    * counter-clockwise. `mag` is the vector length and `acosDegrees` the
    * arc cosine in degrees. */
  function Angle(v: Vec2, mag: Vec2 -> real, acosDegrees: real -> real): (r: real)
    ensures mag(v) <= 0.0 ==> r == 0.0
    ensures (forall c :: 0.0 <= acosDegrees(c) <= 180.0) ==>
      0.0 <= r <= 360.0 &&
      (mag(v) > 0.0 && v.y > 0.0 ==> r <= 180.0) &&
      (mag(v) > 0.0 && v.y < 0.0 ==> 180.0 <= r)
    ensures mag(v) > 0.0 && v.y < 0.0 ==> r + acosDegrees(v.x / mag(v)) == 360.0
  {
    if mag(v) > 0.0 then
      if v.y >= 0.0 then acosDegrees(v.x / mag(v))
      else 360.0 - acosDegrees(v.x / mag(v))
    else 0.0
  }

  /** Two consecutive segments of a strip share their joint. */
  ghost predicate Chained(strip: seq<(Vec2, Vec2)>)
  {
    forall i :: 0 < i < |strip| ==> strip[i - 1].1 == strip[i].0
  }

  /** The part of the navigator the tools work with, initialised as in
    * include/Navigator.h (`currentShapeColor` is not declared there and
    * starts black here). */
  class ToolHost {
    var previewPointShown: bool
    var previewPointPosition: Vec2
    var mouseSnapped: Vec2
    var currentLineThickness: real
    var currentShapeColor: Color
    /** The shapes handed to the navigator, oldest first. */
    var drawn: seq<Drawn>

    constructor()
      ensures drawn == [] && !previewPointShown
      ensures currentLineThickness == 5.0 && currentShapeColor == DefaultLineColor
    {
      previewPointShown := false;
      previewPointPosition := Origin;
      mouseSnapped := Origin;
      currentLineThickness := 5.0;
      currentShapeColor := DefaultLineColor;
      drawn := [];
    }

    /** `AddLine(p1, p2)`: a line in the current thickness, refused when both
      * end points are the same. */
    method AddSegment(p1: Vec2, p2: Vec2)
      modifies this`drawn
      ensures p1 == p2 ==> drawn == old(drawn)
      ensures p1 != p2 ==> drawn == old(drawn) + [DrawnSegment(p1, p2, currentLineThickness)]
    {
      if p1 != p2 {
        drawn := drawn + [DrawnSegment(p1, p2, currentLineThickness)];
      }
    }

    method AddLine(line: LineShape)
      modifies this`drawn
      ensures drawn == old(drawn) + Accepted(DrawnLine(line))
    {
      drawn := drawn + Accepted(DrawnLine(line));
    }

    method AddCircle(circle: CircleShape)
      modifies this`drawn
      ensures drawn == old(drawn) + Accepted(DrawnCircle(circle))
    {
      drawn := drawn + Accepted(DrawnCircle(circle));
    }

    method AddArc(arc: ArcShape)
      modifies this`drawn
      ensures drawn == old(drawn) + Accepted(DrawnArc(arc))
    {
      drawn := drawn + Accepted(DrawnArc(arc));
    }
  }

  /** A line from one click to the next. */
  class LineTool {
    const host: ToolHost
    var previewLine: LineShape
    var lineStarted: bool

    constructor(host: ToolHost)
      ensures this.host == host && !lineStarted
      ensures previewLine == LineShape(Origin, Origin, 0.0, Transparent)
    {
      this.host := host;
      previewLine := LineShape(Origin, Origin, 0.0, Transparent);
      lineStarted := false;
    }

    /** The preview point is shown at the snapped mouse position. */
    method OnToolChanged()
      modifies host`previewPointShown, host`previewPointPosition
      ensures host.previewPointShown && host.previewPointPosition == host.mouseSnapped
    {
      host.previewPointShown := true;
      host.previewPointPosition := host.mouseSnapped;
    }

    /** Drops an unfinished line and shows the preview point again. */
    method CancelShape()
      modifies this`lineStarted, host`previewPointShown, host`previewPointPosition
      ensures !lineStarted && host.previewPointShown && host.previewPointPosition == host.mouseSnapped
    {
      host.previewPointPosition := host.mouseSnapped;
      host.previewPointShown := true;
      lineStarted := false;
    }

    /** A left click starts a line at the snapped point or finishes the
      * started one there, handing it to the navigator with the preview's
      * thickness and colour; any other button drops the line. */
    method OnSpaceClicked(snapped: Vec2, left: bool)
      modifies this, host`previewPointShown, host`previewPointPosition, host`drawn
      ensures left && !old(lineStarted) ==>
        lineStarted && previewLine == old(previewLine).(p1 := snapped, p2 := snapped) &&
        !host.previewPointShown && host.previewPointPosition == old(host.previewPointPosition) &&
        host.drawn == old(host.drawn)
      ensures left && old(lineStarted) ==>
        previewLine == old(previewLine).(p2 := snapped) &&
        host.drawn == old(host.drawn) + Accepted(DrawnLine(old(previewLine).(p2 := snapped))) &&
        !lineStarted && host.previewPointShown && host.previewPointPosition == host.mouseSnapped
      ensures !left ==>
        previewLine == old(previewLine) && host.drawn == old(host.drawn) &&
        !lineStarted && host.previewPointShown && host.previewPointPosition == host.mouseSnapped
    {
      if left {
        if !lineStarted {
          previewLine := previewLine.(p1 := snapped, p2 := snapped);
          host.previewPointShown := false;
          lineStarted := true;
        } else {
          previewLine := previewLine.(p2 := snapped);
          host.AddLine(previewLine);
          CancelShape();
        }
      } else {
        CancelShape();
      }
    }

    /** The started line follows the mouse; otherwise the preview point does. */
    method OnMouseHovered(snapped: Vec2)
      modifies this`previewLine, host`previewPointPosition
      ensures lineStarted ==> (previewLine == old(previewLine).(p2 := snapped) &&
        host.previewPointPosition == old(host.previewPointPosition))
      ensures !lineStarted ==> (previewLine == old(previewLine) &&
        host.previewPointPosition == host.mouseSnapped)
    {
      if lineStarted {
        previewLine := previewLine.(p2 := snapped);
      } else {
        host.previewPointPosition := host.mouseSnapped;
      }
    }

    /** Undo inside the tool: drops a started line and says whether there was one. */
    method StepToolBack() returns (stepped: bool)
      modifies this`lineStarted, host`previewPointShown, host`previewPointPosition
      ensures stepped == old(lineStarted) && !lineStarted
      ensures stepped ==> host.previewPointShown && host.previewPointPosition == host.mouseSnapped
      ensures !stepped ==> (host.previewPointShown == old(host.previewPointShown) &&
        host.previewPointPosition == old(host.previewPointPosition))
    {
      if lineStarted {
        CancelShape();
        return true;
      }
      return false;
    }

    /** The preview's properties can be edited only between lines. */
    method IsPropertiesWindowShown() returns (shown: bool)
      ensures shown <==> !lineStarted
    {
      return !lineStarted;
    }
  }

  /** Connected segments, each click ending one segment and starting the next. */
  class LineStripTool {
    const host: ToolHost
    var previewLine: LineShape
    var lineStarted: bool
    /** The segments of the current strip, as end-point pairs. */
    ghost var strip: seq<(Vec2, Vec2)>

    /** The strip is connected and continues at the preview line's start. */
    ghost predicate Valid()
      reads this
    {
      (!lineStarted ==> strip == []) &&
      Chained(strip) &&
      (strip != [] ==> strip[|strip| - 1].1 == previewLine.p1)
    }

    constructor(host: ToolHost)
      ensures Valid() && this.host == host && !lineStarted
      ensures previewLine == LineShape(Origin, Origin, 0.0, Transparent)
    {
      this.host := host;
      previewLine := LineShape(Origin, Origin, 0.0, Transparent);
      lineStarted := false;
      strip := [];
    }

    method OnToolChanged()
      modifies host`previewPointShown, host`previewPointPosition
      ensures host.previewPointShown && host.previewPointPosition == host.mouseSnapped
    {
      host.previewPointShown := true;
      host.previewPointPosition := host.mouseSnapped;
    }

    method CancelShape()
      modifies this`lineStarted, this`strip, host`previewPointShown, host`previewPointPosition
      ensures Valid() && !lineStarted
      ensures host.previewPointShown && host.previewPointPosition == host.mouseSnapped
    {
      host.previewPointPosition := host.mouseSnapped;
      host.previewPointShown := true;
      lineStarted := false;
      strip := [];
    }

    /** The first click starts the strip; every later click hands the
      * navigator the segment from the last joint to the snapped point (which
      * the navigator refuses when it has length zero) and makes that point
      * the next joint. The preview takes the current thickness and colour. */
    method OnSpaceClicked(snapped: Vec2)
      requires Valid()
      modifies this, host`previewPointShown, host`drawn
      ensures Valid() && lineStarted && !host.previewPointShown
      ensures previewLine == LineShape(snapped, snapped, host.currentLineThickness, host.currentShapeColor)
      ensures !old(lineStarted) ==> host.drawn == old(host.drawn) && strip == []
      ensures old(lineStarted) && old(previewLine.p1) == snapped ==>
        host.drawn == old(host.drawn) && strip == old(strip)
      ensures old(lineStarted) && old(previewLine.p1) != snapped ==>
        host.drawn == old(host.drawn) + [DrawnSegment(old(previewLine.p1), snapped, host.currentLineThickness)] &&
        strip == old(strip) + [(old(previewLine.p1), snapped)]
    {
      if !lineStarted {
        previewLine := LineShape(snapped, snapped, host.currentLineThickness, host.currentShapeColor);
        host.previewPointShown := false;
        lineStarted := true;
      } else {
        var from := previewLine.p1;
        host.AddSegment(from, snapped);
        if from != snapped {
          strip := strip + [(from, snapped)];
        }
        previewLine := LineShape(snapped, snapped, host.currentLineThickness, host.currentShapeColor);
        host.previewPointShown := false;
      }
    }

    method OnMouseHovered(snapped: Vec2)
      requires Valid()
      modifies this`previewLine, host`previewPointPosition
      ensures Valid()
      ensures lineStarted ==> (previewLine == old(previewLine).(p2 := snapped) &&
        host.previewPointPosition == old(host.previewPointPosition))
      ensures !lineStarted ==> (previewLine == old(previewLine) &&
        host.previewPointPosition == host.mouseSnapped)
    {
      if lineStarted {
        previewLine := previewLine.(p2 := snapped);
      } else {
        host.previewPointPosition := host.mouseSnapped;
      }
    }
  }

  /** A circle: the first click fixes the centre, hovering sets the radius,
    * the second click finishes it. */
  class CircleTool {
    const host: ToolHost
    var previewCircle: CircleShape
    var circleStarted: bool

    constructor(host: ToolHost)
      ensures this.host == host && !circleStarted
      ensures previewCircle == CircleShape(Origin, 0.0, DefaultLineThickness, DefaultLineColor)
    {
      this.host := host;
      previewCircle := CircleShape(Origin, 0.0, DefaultLineThickness, DefaultLineColor);
      circleStarted := false;
    }

    method OnToolChanged()
      modifies host`previewPointShown, host`previewPointPosition
      ensures host.previewPointShown && host.previewPointPosition == host.mouseSnapped
    {
      host.previewPointShown := true;
      host.previewPointPosition := host.mouseSnapped;
    }

    method CancelShape()
      modifies this`circleStarted, host`previewPointShown, host`previewPointPosition
      ensures !circleStarted && host.previewPointShown && host.previewPointPosition == host.mouseSnapped
    {
      host.previewPointPosition := host.mouseSnapped;
      host.previewPointShown := true;
      circleStarted := false;
    }

    /** A left click starts a circle of radius 0 at the snapped point (the
      * preview point stays shown) or hands the previewed circle to the
      * navigator; any other button drops it. */
    method OnSpaceClicked(snapped: Vec2, left: bool)
      modifies this, host`previewPointShown, host`previewPointPosition, host`drawn
      ensures left && !old(circleStarted) ==>
        circleStarted && previewCircle == old(previewCircle).(center := snapped, radius := 0.0) &&
        host.previewPointShown && host.previewPointPosition == old(host.previewPointPosition) &&
        host.drawn == old(host.drawn)
      ensures left && old(circleStarted) ==>
        host.drawn == old(host.drawn) + Accepted(DrawnCircle(old(previewCircle)))
      ensures (left && old(circleStarted)) || !left ==>
        previewCircle == old(previewCircle) && !circleStarted &&
        host.previewPointShown && host.previewPointPosition == host.mouseSnapped
      ensures !left ==> host.drawn == old(host.drawn)
    {
      if left {
        if !circleStarted {
          previewCircle := previewCircle.(center := snapped, radius := 0.0);
          host.previewPointShown := true;
          circleStarted := true;
        } else {
          host.AddCircle(previewCircle);
          CancelShape();
        }
      } else {
        CancelShape();
      }
    }

    /** While a circle is started its radius is the distance from the centre
      * to the snapped point; the preview point always follows the mouse. */
    method OnMouseHovered(snapped: Vec2, distance: Distance)
      modifies this`previewCircle, host`previewPointPosition
      ensures circleStarted ==>
        previewCircle == old(previewCircle).(radius := distance(snapped, old(previewCircle).center))
      ensures !circleStarted ==> previewCircle == old(previewCircle)
      ensures previewCircle.center == old(previewCircle).center
      ensures host.previewPointPosition == host.mouseSnapped
    {
      if circleStarted {
        previewCircle := previewCircle.(radius := distance(snapped, previewCircle.center));
      }
      host.previewPointPosition := host.mouseSnapped;
    }

    method StepToolBack() returns (stepped: bool)
      modifies this`circleStarted, host`previewPointShown, host`previewPointPosition
      ensures stepped == old(circleStarted) && !circleStarted
      ensures stepped ==> host.previewPointShown && host.previewPointPosition == host.mouseSnapped
      ensures !stepped ==> (host.previewPointShown == old(host.previewPointShown) &&
        host.previewPointPosition == old(host.previewPointPosition))
    {
      if circleStarted {
        CancelShape();
        return true;
      }
      return false;
    }

    method IsPropertiesWindowShown() returns (shown: bool)
      ensures shown <==> !circleStarted
    {
      return !circleStarted;
    }
  }

  /** The first click of the arc tool as written (ArcTool.cpp:47-52): the
    * arc's radius is reset twice and the guide circle's not at all. */
  function StartArcAsWritten(arc: ArcShape, circle: CircleShape, snapped: Vec2): (r: (ArcShape, CircleShape))
    ensures r.0 == arc.(center := snapped, radius := 0.0)
    ensures r.1.center == snapped && r.1.radius == circle.radius
  {
    var a := arc.(center := snapped, radius := 0.0);
    var c := circle.(center := snapped);
    (a.(radius := 0.0), c.(thickness := 1.0, color := DefaultLineColor))
  }

  /** The first click of the arc tool: both the arc and the guide circle
    * start at the snapped point with radius 0; the guide circle is thin
    * and black. */
  function StartArc(arc: ArcShape, circle: CircleShape, snapped: Vec2): (r: (ArcShape, CircleShape))
    ensures r.0 == arc.(center := snapped, radius := 0.0)
    ensures r.1 == CircleShape(snapped, 0.0, 1.0, DefaultLineColor)
  {
    (arc.(center := snapped, radius := 0.0),
     circle.(center := snapped, radius := 0.0, thickness := 1.0, color := DefaultLineColor))
  }

  /** As written, a new arc's guide circle keeps the radius of the previous
    * one (drawn until the mouse next moves), where a circle of radius 0 is
    * meant; the arc itself is started alike. */
  lemma StartArcAsWrittenKeepsRadius(arc: ArcShape, circle: CircleShape, snapped: Vec2)
    requires circle.radius != 0.0
    ensures StartArcAsWritten(arc, circle, snapped).0 == StartArc(arc, circle, snapped).0
    ensures StartArcAsWritten(arc, circle, snapped).1.radius == circle.radius
    ensures StartArcAsWritten(arc, circle, snapped).1 != StartArc(arc, circle, snapped).1
  {
  }

  /** An arc in three clicks: centre, then radius and start angle, then the
    * end angle (set while hovering) and finish. */
  class ArcTool {
    const host: ToolHost
    var previewArc: ArcShape
    var previewCircle: CircleShape
    var arcStarted: bool
    var arcSecondStage: bool

    /** The second stage is only ever reached within a started arc. */
    predicate Valid()
      reads this
    {
      arcSecondStage ==> arcStarted
    }

    constructor(host: ToolHost)
      ensures Valid() && this.host == host && !arcStarted && !arcSecondStage
      ensures previewArc == ArcShape(Origin, 0.0, 0.0, 0.0, DefaultLineThickness, DefaultLineColor)
      ensures previewCircle == CircleShape(Origin, 0.0, 0.0, Transparent)
    {
      this.host := host;
      previewArc := ArcShape(Origin, 0.0, 0.0, 0.0, DefaultLineThickness, DefaultLineColor);
      previewCircle := CircleShape(Origin, 0.0, 0.0, Transparent);
      arcStarted := false;
      arcSecondStage := false;
    }

    method OnToolChanged()
      modifies host`previewPointShown, host`previewPointPosition
      ensures host.previewPointShown && host.previewPointPosition == host.mouseSnapped
    {
      host.previewPointShown := true;
      host.previewPointPosition := host.mouseSnapped;
    }

    method CancelShape()
      modifies this`arcStarted, this`arcSecondStage, host`previewPointShown, host`previewPointPosition
      ensures Valid() && !arcStarted && !arcSecondStage
      ensures host.previewPointShown && host.previewPointPosition == host.mouseSnapped
    {
      host.previewPointPosition := host.mouseSnapped;
      host.previewPointShown := true;
      arcStarted := false;
      arcSecondStage := false;
    }

    /** Left clicks step through the three stages; the last hands the arc to
      * the navigator. The start angle is taken at the navigator's snapped
      * mouse position, the radius at the clicked point. Any other button
      * drops the arc. */
    method OnSpaceClicked(snapped: Vec2, left: bool, distance: Distance, mag: Vec2 -> real, acosDegrees: real -> real)
      requires Valid()
      modifies this, host`previewPointShown, host`previewPointPosition, host`drawn
      ensures Valid()
      ensures left && !old(arcStarted) ==>
        arcStarted && !arcSecondStage &&
        (previewArc, previewCircle) == StartArc(old(previewArc), old(previewCircle), snapped) &&
        host.previewPointShown && host.previewPointPosition == old(host.previewPointPosition) &&
        host.drawn == old(host.drawn)
      ensures left && old(arcStarted) && !old(arcSecondStage) ==>
        arcStarted && arcSecondStage && previewCircle == old(previewCircle) &&
        previewArc == old(previewArc).(radius := distance(snapped, old(previewArc).center),
          startAngle := Angle(UpwardOffset(host.mouseSnapped, old(previewArc).center), mag, acosDegrees)) &&
        host.previewPointShown == old(host.previewPointShown) &&
        host.previewPointPosition == old(host.previewPointPosition) &&
        host.drawn == old(host.drawn)
      ensures left && old(arcSecondStage) ==>
        host.drawn == old(host.drawn) + Accepted(DrawnArc(old(previewArc)))
      ensures (left && old(arcSecondStage)) || !left ==>
        !arcStarted && !arcSecondStage &&
        previewArc == old(previewArc) && previewCircle == old(previewCircle) &&
        host.previewPointShown && host.previewPointPosition == host.mouseSnapped
      ensures !left ==> host.drawn == old(host.drawn)
    {
      if left {
        if !arcStarted {
          previewArc, previewCircle := StartArc(previewArc, previewCircle, snapped).0,
            StartArc(previewArc, previewCircle, snapped).1;
          host.previewPointShown := true;
          arcStarted := true;
          arcSecondStage := false;
        } else if !arcSecondStage {
          arcSecondStage := true;
          var toMouse := UpwardOffset(host.mouseSnapped, previewArc.center);
          previewArc := previewArc.(radius := distance(snapped, previewArc.center),
            startAngle := Angle(toMouse, mag, acosDegrees));
        } else {
          host.AddArc(previewArc);
          CancelShape();
        }
      } else {
        CancelShape();
      }
    }

    /** First stage: the guide circle's radius follows the snapped point.
      * Second stage: the end angle follows the navigator's snapped mouse. */
    method OnMouseHovered(snapped: Vec2, distance: Distance, mag: Vec2 -> real, acosDegrees: real -> real)
      modifies this`previewArc, this`previewCircle, host`previewPointPosition
      ensures arcStarted && !arcSecondStage ==> (previewArc == old(previewArc) &&
        previewCircle == old(previewCircle).(radius := distance(snapped, old(previewArc).center)))
      ensures arcStarted && arcSecondStage ==> (previewCircle == old(previewCircle) &&
        previewArc == old(previewArc).(endAngle := Angle(UpwardOffset(host.mouseSnapped, old(previewArc).center), mag, acosDegrees)))
      ensures !arcStarted ==> previewArc == old(previewArc) && previewCircle == old(previewCircle)
      ensures host.previewPointPosition == host.mouseSnapped
    {
      if arcStarted {
        if !arcSecondStage {
          previewCircle := previewCircle.(radius := distance(snapped, previewArc.center));
        } else {
          var toMouse := UpwardOffset(host.mouseSnapped, previewArc.center);
          previewArc := previewArc.(endAngle := Angle(toMouse, mag, acosDegrees));
        }
      }
      host.previewPointPosition := host.mouseSnapped;
    }

    method StepToolBack() returns (stepped: bool)
      requires Valid()
      modifies this`arcStarted, this`arcSecondStage, host`previewPointShown, host`previewPointPosition
      ensures Valid() && stepped == old(arcStarted) && !arcStarted && !arcSecondStage
      ensures stepped ==> host.previewPointShown && host.previewPointPosition == host.mouseSnapped
      ensures !stepped ==> (host.previewPointShown == old(host.previewPointShown) &&
        host.previewPointPosition == old(host.previewPointPosition))
    {
      if arcStarted {
        CancelShape();
        return true;
      }
      return false;
    }

    method IsPropertiesWindowShown() returns (shown: bool)
      ensures shown <==> !arcStarted
    {
      return !arcStarted;
    }
  }
}

/** The document the renderer draws and the external collaborators it
    relies on (svg.h and triangulation.cpp are not part of this model, so
    the triangulator and the point-in-triangle test are parameters). */
module Svg {
  import opened Geometry
  import opened Colors

  datatype Style = Style(fillColor: Color, strokeColor: Color)

  /** One drawable element: its local transform, its style and the geometry
      of its kind. A group owns its children. */
  datatype Element =
    | PointElement(transform: Matrix, style: Style, position: Vec2)
    | LineElement(transform: Matrix, style: Style, fromPoint: Vec2, toPoint: Vec2)
    | PolylineElement(transform: Matrix, style: Style, points: seq<Vec2>)
    | RectElement(transform: Matrix, style: Style, position: Vec2, dimension: Vec2)
    | PolygonElement(transform: Matrix, style: Style, points: seq<Vec2>)
    | EllipseElement(transform: Matrix, style: Style, center: Vec2, radius: Vec2)
    | ImageElement(transform: Matrix, style: Style, position: Vec2, dimension: Vec2)
    | GroupElement(transform: Matrix, style: Style, elements: seq<Element>)

  datatype Document = Document(width: real, height: real, elements: seq<Element>)

  /** `triangulate(polygon, triangles)`: a flat list of triangle corners, a
      multiple of three long. */
  type Triangulator = f: seq<Vec2> -> seq<Vec2>
    | forall ps: seq<Vec2> :: |f(ps)| % 3 == 0
    witness (ps: seq<Vec2>) => []

  /** `inside(A, B, C, P)`: whether P lies in triangle ABC for that winding. */
  type InsideTest = (Vec2, Vec2, Vec2, Vec2) -> bool
}
